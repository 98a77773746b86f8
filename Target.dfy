/** The target strings of the scanner: the hostname that the TLS probe
    connects to, the hostname that the port probe connects to, and the
    scheme that the command-line entry point adds to a bare target. */
module Target {
  import opened Text

  const Https: string := "https://"
  const Http: string := "http://"

  /** `url.replace('https://', '').split('/')[0]`: the TLS probe's host. Only
      the "https://" scheme is removed. */
  function TlsHost(url: string): (h: string)
    ensures '/' !in h
    ensures h <= RemoveAll(url, Https)
    ensures |h| < |RemoveAll(url, Https)| ==> RemoveAll(url, Https)[|h|] == '/'
  {
    Before(RemoveAll(url, Https), '/')
  }

  /** `url.replace('https://', '').replace('http://', '').split('/')[0]`: the
      port probe's host. Both schemes are removed. */
  function PortHost(url: string): (h: string)
    ensures '/' !in h
    ensures h <= RemoveAll(RemoveAll(url, Https), Http)
    ensures |h| < |RemoveAll(RemoveAll(url, Https), Http)| ==> RemoveAll(RemoveAll(url, Https), Http)[|h|] == '/'
  {
    Before(RemoveAll(RemoveAll(url, Https), Http), '/')
  }

  predicate HasScheme(url: string) {
    StartsWith(url, Http) || StartsWith(url, Https)
  }

  /** "https://" is put in front of a target that starts with neither scheme. */
  function Normalize(target: string): (url: string)
    ensures HasScheme(url)
    ensures HasScheme(target) ==> url == target
    ensures !HasScheme(target) ==> url == Https + target
  {
    if HasScheme(target) then target else Https + target
  }

  lemma NormalizeIdempotent(target: string)
    ensures Normalize(Normalize(target)) == Normalize(target)
  {
  }

  /** A host name as a user types it: no path and no port suffix. */
  predicate PlainHost(h: string) {
    '/' !in h && ':' !in h
  }

  /** No occurrence of a scheme starts inside a plain host followed by
      nothing or by a path. */
  lemma NoSchemeInside(h: string, t: string, pat: string)
    requires PlainHost(h)
    requires t == [] || t[0] == '/'
    requires pat == Https || pat == Http
    ensures forall i :: 0 <= i < |h| ==> !StartsWith((h + t)[i..], pat)
  {
    forall i | 0 <= i < |h|
      ensures !StartsWith((h + t)[i..], pat)
    {
      var s := h + t;
      // The scheme's ':' sits at index |pat| - 3, and only '/' follows it.
      var colon := |pat| - 3;
      if i + colon < |h| {
        assert s[i + colon] == h[i + colon] != pat[colon];
      } else if t != [] {
        var k := |h| - i;
        assert s[i + k] == t[0] == '/' != pat[k];
      } else {
        assert |s| < i + |pat|;
      }
    }
  }

  /** Removing a scheme from host + text leaves the host in front. */
  lemma RemoveSchemeAfterHost(h: string, t: string, pat: string)
    requires PlainHost(h)
    requires t == [] || t[0] == '/'
    requires pat == Https || pat == Http
    ensures RemoveAll(h + t, pat) == h + RemoveAll(t, pat)
  {
    NoSchemeInside(h, t, pat);
    RemoveAllSkips(h, t, pat);
  }

  /** Removing a scheme from scheme + host + path keeps the host. */
  lemma RemoveSchemeKeepsHost(h: string, p: string, pat: string)
    requires PlainHost(h)
    requires pat == Https || pat == Http
    ensures RemoveAll(h + "/" + p, pat) == h + "/" + RemoveAll(p, pat)
    ensures RemoveAll(h, pat) == h
  {
    var t := "/" + p;
    RemoveSchemeAfterHost(h, t, pat);
    assert h + "/" + p == h + t;
    assert !StartsWith(t, pat) by { assert t[0] != pat[0]; }
    assert t[1..] == p;
    RemoveSchemeAfterHost(h, [], pat);
    assert h + [] == h;
  }

  /** An "https://" URL of a plain host gives that host to both probes,
      whatever path follows it. */
  lemma HostsOfHttpsUrl(h: string, p: string)
    requires PlainHost(h)
    ensures TlsHost(Https + h + "/" + p) == h
    ensures PortHost(Https + h + "/" + p) == h
    ensures TlsHost(Https + h) == h
    ensures PortHost(Https + h) == h
  {
    assert Https + h + "/" + p == Https + (h + "/" + p);
    RemoveAllLeading(Https, h + "/" + p);
    RemoveAllLeading(Https, h);
    RemoveSchemeKeepsHost(h, p, Https);
    var rest := RemoveAll(p, Https);
    RemoveSchemeKeepsHost(h, rest, Http);
    BeforeSeparator(h, '/', RemoveAll(rest, Http));
    BeforeSeparator(h, '/', rest);
    assert h + "/" + rest == h + ['/'] + rest;
    assert h + "/" + RemoveAll(rest, Http) == h + ['/'] + RemoveAll(rest, Http);
  }

  /** An "http://" URL of a plain host gives that host to the port probe,
      whatever path follows it. */
  lemma PortHostOfHttpUrl(h: string, p: string)
    requires PlainHost(h)
    ensures PortHost(Http + h + "/" + p) == h
    ensures PortHost(Http + h) == h
  {
    var s := Http + h + "/" + p;
    NoHttpsInHttp(h + "/" + p);
    assert s == Http + (h + "/" + p);
    // after the first removal the scheme "http://" is still in front
    RemoveAllLeading(Http, RemoveAll(h + "/" + p, Https));
    RemoveSchemeKeepsHost(h, p, Https);
    var rest := RemoveAll(p, Https);
    RemoveSchemeKeepsHost(h, rest, Http);
    BeforeSeparator(h, '/', RemoveAll(rest, Http));
    assert h + "/" + RemoveAll(rest, Http) == h + ['/'] + RemoveAll(rest, Http);
    NoHttpsInHttp(h);
    RemoveAllLeading(Http, RemoveAll(h, Https));
    RemoveSchemeKeepsHost(h, [], Https);
    RemoveSchemeKeepsHost(h, [], Http);
    BeforeSeparator(h, '/', []);
  }

  /** "https://" never starts inside the scheme "http://", so removing it from
      an "http://" URL keeps that scheme in front. */
  lemma NoHttpsInHttp(t: string)
    ensures RemoveAll(Http + t, Https) == Http + RemoveAll(t, Https)
  {
    forall i | 0 <= i < |Http|
      ensures !StartsWith((Http + t)[i..], Https)
    {
      if i == 0 {
        assert (Http + t)[4] != Https[4];
      } else {
        assert (Http + t)[i] != Https[0];
      }
    }
    RemoveAllSkips(Http, t, Https);
  }

  /** The TLS probe does not remove "http://": for such a target its host is
      the literal text "http:". */
  lemma TlsHostOfHttpUrl(rest: string)
    ensures TlsHost(Http + rest) == "http:"
  {
    NoHttpsInHttp(rest);
    var tail := RemoveAll(rest, Https);
    assert Http + tail == "http:" + ['/'] + ("/" + tail);
    BeforeSeparator("http:", '/', "/" + tail);
  }

  /** A bare plain host typed at the prompt reaches both probes unchanged. */
  lemma NormalizedPlainHost(h: string)
    requires PlainHost(h)
    ensures Normalize(h) == Https + h
    ensures TlsHost(Normalize(h)) == h && PortHost(Normalize(h)) == h
  {
    if |h| > 5 {
      assert h[4] != Http[4] && h[5] != Https[5];
    }
    HostsOfHttpsUrl(h, []);
  }
}
