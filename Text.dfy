/** String operations of Python that the scanner relies on, written out over
    `seq<char>`: `s.replace(pat, '')`, `s.split(c)[0]`, `s.startswith(p)` and
    `str(i)` for an integer, with the parser that inverts `str(i)`. */
module Text {

  /** `s.startswith(p)` */
  predicate StartsWith(s: string, p: string) {
    p <= s
  }

  /** True when `pat` occurs in `s` at position `i`. */
  predicate OccursAt(s: string, pat: string, i: nat) {
    i + |pat| <= |s| && s[i..i + |pat|] == pat
  }

  /** `s.replace(pat, '')`: scanning from the left, every occurrence of `pat`
      is dropped and the scan resumes after it, so occurrences never overlap.
      An empty `pat` leaves `s` as it is. */
  function RemoveAll(s: string, pat: string): (r: string)
    ensures |r| <= |s|
    decreases |s|
  {
    if pat == [] || s == [] then s
    else if pat <= s then RemoveAll(s[|pat|..], pat)
    else [s[0]] + RemoveAll(s[1..], pat)
  }

  /** A leading occurrence of `pat` disappears. */
  lemma RemoveAllLeading(pat: string, t: string)
    requires pat != []
    ensures RemoveAll(pat + t, pat) == RemoveAll(t, pat)
  {
    assert pat <= pat + t;
    assert (pat + t)[|pat|..] == t;
  }

  /** When no occurrence of `pat` starts inside `h`, removal leaves `h` alone
      and only works on what follows it. */
  lemma {:induction false} RemoveAllSkips(h: string, t: string, pat: string)
    requires forall i :: 0 <= i < |h| ==> !StartsWith((h + t)[i..], pat)
    ensures RemoveAll(h + t, pat) == h + RemoveAll(t, pat)
  {
    if h != [] && pat != [] {
      assert (h + t)[0..] == h + t;
      assert !(pat <= h + t);
      assert (h + t)[1..] == h[1..] + t;
      forall i | 0 <= i < |h[1..]|
        ensures !StartsWith((h[1..] + t)[i..], pat)
      {
        assert (h[1..] + t)[i..] == (h + t)[i + 1..];
      }
      RemoveAllSkips(h[1..], t, pat);
      assert h == [h[0]] + h[1..];
    } else if h == [] {
      assert h + t == t;
    }
  }

  /** A string in which `pat` never occurs is returned unchanged. */
  lemma RemoveAllNoOccurrence(s: string, pat: string)
    requires forall i :: 0 <= i < |s| ==> !StartsWith(s[i..], pat)
    ensures RemoveAll(s, pat) == s
  {
    assert s + [] == s;
    RemoveAllSkips(s, [], pat);
  }

  /** `s.split(c)[0]`: the text before the first `c`, or all of `s`. */
  function Before(s: string, c: char): (r: string)
    ensures r <= s
    ensures c !in r
    ensures |r| < |s| ==> s[|r|] == c
  {
    if s == [] || s[0] == c then [] else [s[0]] + Before(s[1..], c)
  }

  /** The three properties of `Before` determine its result. */
  lemma {:induction false} BeforeUnique(s: string, c: char, r: string)
    requires r <= s && c !in r && (|r| < |s| ==> s[|r|] == c)
    ensures Before(s, c) == r
  {
    if s != [] && s[0] != c {
      assert r != [] && r[0] == s[0];
      BeforeUnique(s[1..], c, r[1..]);
      assert r == [r[0]] + r[1..];
    }
  }

  /** Splitting a string that has no `c` before a `c` recovers it. */
  lemma BeforeSeparator(h: string, c: char, t: string)
    requires c !in h
    ensures Before(h + [c] + t, c) == h
    ensures Before(h, c) == h
  {
    BeforeUnique(h + [c] + t, c, h);
    BeforeUnique(h, c, h);
  }

  predicate IsDigit(ch: char) {
    '0' <= ch <= '9'
  }

  predicate AllDigits(s: string) {
    forall i :: 0 <= i < |s| ==> IsDigit(s[i])
  }

  function DigitChar(d: nat): (ch: char)
    requires d < 10
    ensures IsDigit(ch)
  {
    "0123456789"[d]
  }

  function DigitValue(ch: char): (d: nat)
    requires IsDigit(ch)
    ensures d < 10
  {
    (ch - '0') as nat
  }

  /** `str(n)` for a non-negative integer: its decimal digits, without
      leading zeros. */
  function NatToDecimal(n: nat): (r: string)
    ensures r != [] && AllDigits(r)
    ensures |r| > 1 ==> r[0] != '0'
  {
    if n < 10 then [DigitChar(n)] else NatToDecimal(n / 10) + [DigitChar(n % 10)]
  }

  /** `str(i)` for any integer: a minus sign before the digits of a negative one. */
  function IntToDecimal(i: int): (r: string)
    ensures r != [] && ',' !in r && ' ' !in r && '\n' !in r
  {
    if i < 0 then "-" + NatToDecimal(-i) else NatToDecimal(i)
  }

  /** The value of a string of decimal digits, read most significant first. */
  function DecimalValue(s: string): nat
    requires AllDigits(s)
  {
    if s == [] then 0 else DecimalValue(s[..|s| - 1]) * 10 + DigitValue(s[|s| - 1])
  }

  /** `int(s)` on the strings that `str` produces. */
  function ParseInt(s: string): int {
    if s != [] && s[0] == '-' && AllDigits(s[1..]) then -(DecimalValue(s[1..]) as int)
    else if AllDigits(s) then DecimalValue(s)
    else 0
  }

  lemma {:induction false} DecimalRoundTrip(n: nat)
    ensures DecimalValue(NatToDecimal(n)) == n
  {
    if n >= 10 {
      var s := NatToDecimal(n);
      assert s[..|s| - 1] == NatToDecimal(n / 10);
      DecimalRoundTrip(n / 10);
    }
  }

  /** Reading back the decimal rendering of an integer gives the integer. */
  lemma IntRoundTrip(i: int)
    ensures ParseInt(IntToDecimal(i)) == i
  {
    if i < 0 {
      var s := IntToDecimal(i);
      assert s[1..] == NatToDecimal(-i);
      DecimalRoundTrip(-i);
    } else {
      DecimalRoundTrip(i);
    }
  }

  /** The number of line breaks in `s`. */
  function NewlineCount(s: string): nat {
    if s == [] then 0 else NewlineCount(s[..|s| - 1]) + (if s[|s| - 1] == '\n' then 1 else 0)
  }

  lemma {:induction false} NewlineCountConcat(a: string, b: string)
    ensures NewlineCount(a + b) == NewlineCount(a) + NewlineCount(b)
    decreases |b|
  {
    if b == [] {
      assert a + b == a;
    } else {
      assert (a + b)[..|a + b| - 1] == a + b[..|b| - 1];
      NewlineCountConcat(a, b[..|b| - 1]);
    }
  }

  lemma {:induction false} NewlineCountNone(s: string)
    requires '\n' !in s
    ensures NewlineCount(s) == 0
    decreases |s|
  {
    if s != [] {
      assert s[..|s| - 1] + [s[|s| - 1]] == s;
      NewlineCountNone(s[..|s| - 1]);
    }
  }
}
