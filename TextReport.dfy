/** The plain-text vulnerability report of the nmap-based scanner: a banner,
    then three numbered sections (open ports, the TLS certificate, the
    server software), each rendered from a list of ports or from a result
    that is either a mapping or an error text. */
module TextReport {
  import opened Text

  /** One item of a Python dict, with its value already rendered by `str`. */
  datatype Entry = Entry(key: string, value: string)

  /** A result that is a dict (its items in iteration order) or, on failure,
      a message string. */
  datatype Details = Mapping(entries: seq<Entry>) | Message(text: string)

  function Banner(target: string): string {
    "--- Vulnerability Report for " + target + " ---\n\n"
  }

  const PortsHeading: string := "1. Open Ports:\n"
  const TlsHeading: string := "\n2. SSL/TLS Configuration:\n"
  const SoftwareHeading: string := "\n3. Outdated Software:\n"
  const NoPortsLine: string := "No open ports detected or scan failed.\n"
  const PortsPrefix: string := "Open ports: "
  const CertificateLine: string := "SSL Certificate Details:\n"
  const TlsStatusPrefix: string := "SSL/TLS Status: "
  const SoftwareStatusPrefix: string := "Outdated Software Status: "

  /** `', '.join(map(str, ports))` */
  function JoinPorts(ports: seq<int>): (r: string)
    ensures ports == [] <==> r == []
    ensures '\n' !in r
  {
    if ports == [] then ""
    else if |ports| == 1 then IntToDecimal(ports[0])
    else IntToDecimal(ports[0]) + ", " + JoinPorts(ports[1..])
  }

  function DropSpace(s: string): string {
    if s != [] && s[0] == ' ' then s[1..] else s
  }

  /** Reads a ", "-separated list of integers back. */
  function ParsePorts(s: string): seq<int>
    decreases |s|
  {
    if s == [] then []
    else
      var token := Before(s, ',');
      if |token| == |s| then [ParseInt(token)]
      else [ParseInt(token)] + ParsePorts(DropSpace(s[|token| + 1..]))
  }

  /** One step of the parser: an integer's text, then ", " and the rest. */
  lemma ParsePortsStep(first: string, rest: string)
    requires first != [] && ',' !in first
    ensures ParsePorts(first) == [ParseInt(first)]
    ensures ParsePorts(first + ", " + rest) == [ParseInt(first)] + ParsePorts(rest)
  {
    BeforeSeparator(first, ',', " " + rest);
    var s := first + ", " + rest;
    assert s == first + [','] + (" " + rest);
    assert s[|first| + 1..] == " " + rest;
    assert DropSpace(" " + rest) == rest;
  }

  /** The joined port list reads back as the port list. */
  lemma {:induction false} PortsRoundTrip(ports: seq<int>)
    ensures ParsePorts(JoinPorts(ports)) == ports
    decreases |ports|
  {
    if ports != [] {
      var first := IntToDecimal(ports[0]);
      IntRoundTrip(ports[0]);
      ParsePortsStep(first, JoinPorts(ports[1..]));
      if |ports| > 1 {
        PortsRoundTrip(ports[1..]);
        assert ports == [ports[0]] + ports[1..];
      }
    }
  }

  function PortSection(ports: seq<int>): string {
    if ports != [] then PortsPrefix + JoinPorts(ports) + "\n" else NoPortsLine
  }

  function EntryLine(e: Entry): string {
    "  " + e.key + ": " + e.value + "\n"
  }

  /** The lines of a mapping, one per item, in iteration order. */
  function EntryLines(entries: seq<Entry>): string {
    if entries == [] then ""
    else EntryLines(entries[..|entries| - 1]) + EntryLine(entries[|entries| - 1])
  }

  function TlsSection(tls: Details): string {
    match tls
    case Mapping(entries) => CertificateLine + EntryLines(entries)
    case Message(text) => TlsStatusPrefix + text + "\n"
  }

  function SoftwareSection(software: Details): string {
    match software
    case Mapping(entries) => EntryLines(entries)
    case Message(text) => SoftwareStatusPrefix + text + "\n"
  }

  /** The report text. */
  function ReportText(target: string, ports: seq<int>, tls: Details, software: Details): string {
    Banner(target) + PortsHeading + PortSection(ports)
    + TlsHeading + TlsSection(tls)
    + SoftwareHeading + SoftwareSection(software)
  }

  /** The `for key, value in ....items()` loop of `generate_report`: one
      "  key: value" line appended per item, in iteration order. */
  method AppendEntries(report: string, entries: seq<Entry>) returns (r: string)
    ensures r == report + EntryLines(entries)
  {
    r := report;
    AppendEntryLines(report, entries);
    for i := 0 to |entries|
      invariant r == report + EntryLines(entries[..i])
    {
      r := r + ("  " + entries[i].key + ": " + entries[i].value + "\n");
    }
    assert entries[..|entries|] == entries;
  }

  /** `generate_report`: builds the report by appending piece after piece. It
      is defined for every input. */
  method GenerateReport(target: string, ports: seq<int>, tls: Details, software: Details) returns (report: string)
    ensures report == ReportText(target, ports, tls, software)
  {
    report := Banner(target);

    report := report + PortsHeading;
    if ports != [] {
      report := report + (PortsPrefix + JoinPorts(ports) + "\n");
    } else {
      report := report + NoPortsLine;
    }
    assert report == Banner(target) + PortsHeading + PortSection(ports);

    report := report + TlsHeading;
    ghost var beforeTls := report;
    match tls {
      case Mapping(entries) =>
        report := report + CertificateLine;
        report := AppendEntries(report, entries);
        assert report == beforeTls + (CertificateLine + EntryLines(entries));
      case Message(text) =>
        report := report + (TlsStatusPrefix + text + "\n");
    }

    report := report + SoftwareHeading;
    match software {
      case Mapping(entries) =>
        report := AppendEntries(report, entries);
      case Message(text) =>
        report := report + (SoftwareStatusPrefix + text + "\n");
    }
  }

  /** Appending the line of the next item extends the lines of the items so far. */
  lemma AppendEntryLines(prefix: string, entries: seq<Entry>)
    ensures forall i :: 0 <= i < |entries| ==>
      prefix + EntryLines(entries[..i]) + EntryLine(entries[i]) == prefix + EntryLines(entries[..i + 1])
  {
    forall i | 0 <= i < |entries|
      ensures prefix + EntryLines(entries[..i]) + EntryLine(entries[i]) == prefix + EntryLines(entries[..i + 1])
    {
      assert entries[..i + 1][..i] == entries[..i];
    }
  }

  predicate EndsWithNewline(s: string) {
    s != [] && s[|s| - 1] == '\n'
  }

  lemma EndsWithNewlineAppend(a: string, b: string)
    requires EndsWithNewline(b)
    ensures EndsWithNewline(a + b)
  {
  }

  /** The software section is empty or ends with a line break. */
  lemma SoftwareSectionEnd(software: Details)
    ensures SoftwareSection(software) == [] || EndsWithNewline(SoftwareSection(software))
  {
    match software
    case Mapping(entries) =>
      if entries != [] {
        var last := entries[|entries| - 1];
        assert EndsWithNewline(EntryLine(last));
        EndsWithNewlineAppend(EntryLines(entries[..|entries| - 1]), EntryLine(last));
      }
    case Message(text) =>
      EndsWithNewlineAppend(SoftwareStatusPrefix + text, "\n");
  }

  lemma PrefixExtends(s: string, p: string, t: string)
    requires StartsWith(s, p)
    ensures StartsWith(s + t, p)
  {
    assert (s + t)[..|p|] == s[..|p|];
  }

  /** The report begins with the banner and ends with a line break. */
  lemma ReportFrame(target: string, ports: seq<int>, tls: Details, software: Details)
    ensures StartsWith(ReportText(target, ports, tls, software), Banner(target))
    ensures EndsWithNewline(ReportText(target, ports, tls, software))
  {
    var r := ReportText(target, ports, tls, software);
    var s1 := Banner(target);
    var s2 := s1 + PortsHeading;
    var s3 := s2 + PortSection(ports);
    var s4 := s3 + TlsHeading;
    var s5 := s4 + TlsSection(tls);
    var s6 := s5 + SoftwareHeading;
    assert r == s6 + SoftwareSection(software);
    PrefixExtends(s1, s1, PortsHeading);
    PrefixExtends(s2, s1, PortSection(ports));
    PrefixExtends(s3, s1, TlsHeading);
    PrefixExtends(s4, s1, TlsSection(tls));
    PrefixExtends(s5, s1, SoftwareHeading);
    PrefixExtends(s6, s1, SoftwareSection(software));
    SoftwareSectionEnd(software);
    if SoftwareSection(software) == [] {
      assert r == s6;
      EndsWithNewlineAppend(s5, SoftwareHeading);
    } else {
      EndsWithNewlineAppend(s6, SoftwareSection(software));
    }
  }

  lemma OccursAtEnd(a: string, b: string)
    ensures OccursAt(a + b, b, |a|)
  {
    assert (a + b)[|a|..|a| + |b|] == b;
  }

  lemma OccursAtExtends(s: string, t: string, p: string, i: nat)
    requires OccursAt(s, p, i)
    ensures OccursAt(s + t, p, i)
  {
    assert (s + t)[i..i + |p|] == s[i..i + |p|];
  }

  /** The three headings occur in the report, in their order, after the
      banner. */
  lemma HeadingsInOrder(target: string, ports: seq<int>, tls: Details, software: Details)
    ensures var r := ReportText(target, ports, tls, software);
      exists i, j, k :: |Banner(target)| <= i < j < k
        && OccursAt(r, PortsHeading, i) && OccursAt(r, TlsHeading, j) && OccursAt(r, SoftwareHeading, k)
  {
    var r := ReportText(target, ports, tls, software);
    var s1 := Banner(target);
    var s2 := s1 + PortsHeading;
    var s3 := s2 + PortSection(ports);
    var s4 := s3 + TlsHeading;
    var s5 := s4 + TlsSection(tls);
    var s6 := s5 + SoftwareHeading;
    assert r == s6 + SoftwareSection(software);
    OccursAtEnd(s1, PortsHeading);
    OccursAtExtends(s2, PortSection(ports), PortsHeading, |s1|);
    OccursAtExtends(s3, TlsHeading, PortsHeading, |s1|);
    OccursAtExtends(s4, TlsSection(tls), PortsHeading, |s1|);
    OccursAtExtends(s5, SoftwareHeading, PortsHeading, |s1|);
    OccursAtExtends(s6, SoftwareSection(software), PortsHeading, |s1|);
    OccursAtEnd(s3, TlsHeading);
    OccursAtExtends(s4, TlsSection(tls), TlsHeading, |s3|);
    OccursAtExtends(s5, SoftwareHeading, TlsHeading, |s3|);
    OccursAtExtends(s6, SoftwareSection(software), TlsHeading, |s3|);
    OccursAtEnd(s5, SoftwareHeading);
    OccursAtExtends(s6, SoftwareSection(software), SoftwareHeading, |s5|);
    assert |s1| < |s3| < |s5|;
  }

  /** A non-empty port list yields "Open ports: " and the ports, which read
      back from the line; an empty one yields the fixed no-ports line. */
  lemma PortSectionSpec(ports: seq<int>)
    ensures ports == [] ==> PortSection(ports) == NoPortsLine
    ensures ports != [] ==>
      var line := PortSection(ports);
      && StartsWith(line, PortsPrefix) && line[|line| - 1] == '\n'
      && ParsePorts(line[|PortsPrefix|..|line| - 1]) == ports
  {
    if ports != [] {
      var line := PortSection(ports);
      assert line[|PortsPrefix|..|line| - 1] == JoinPorts(ports);
      PortsRoundTrip(ports);
    }
  }

  lemma EntryLinesConcat(a: seq<Entry>, b: seq<Entry>)
    ensures EntryLines(a + b) == EntryLines(a) + EntryLines(b)
    decreases |b|
  {
    if b == [] {
      assert a + b == a;
    } else {
      assert (a + b)[..|a + b| - 1] == a + b[..|b| - 1];
      EntryLinesConcat(a, b[..|b| - 1]);
    }
  }

  predicate SingleLine(s: string) {
    '\n' !in s
  }

  predicate EntriesSingleLine(entries: seq<Entry>) {
    forall i :: 0 <= i < |entries| ==> SingleLine(entries[i].key) && SingleLine(entries[i].value)
  }

  lemma EntryLineBreaks(e: Entry)
    requires SingleLine(e.key) && SingleLine(e.value)
    ensures NewlineCount(EntryLine(e)) == 1
  {
    NewlineCountConcat("  " + e.key + ": " + e.value, "\n");
    NewlineCountNone("  " + e.key + ": " + e.value);
  }

  /** When no key or value holds a line break, a mapping yields exactly one
      line per item. */
  lemma {:induction false} EntryLinesCount(entries: seq<Entry>)
    requires EntriesSingleLine(entries)
    ensures NewlineCount(EntryLines(entries)) == |entries|
    decreases |entries|
  {
    if entries != [] {
      var last := entries[|entries| - 1];
      EntryLinesCount(entries[..|entries| - 1]);
      EntryLineBreaks(last);
      NewlineCountConcat(EntryLines(entries[..|entries| - 1]), EntryLine(last));
    }
  }

  /** Every entry's line, in iteration order, is a piece of the mapping's text. */
  lemma {:induction false} EntryLineAt(entries: seq<Entry>, n: nat)
    requires n < |entries|
    ensures EntryLines(entries) == EntryLines(entries[..n]) + EntryLine(entries[n]) + EntryLines(entries[n + 1..])
  {
    assert entries == entries[..n] + [entries[n]] + entries[n + 1..];
    EntryLinesConcat(entries[..n] + [entries[n]], entries[n + 1..]);
    EntryLinesConcat(entries[..n], [entries[n]]);
    assert [entries[n]][..0] == [];
  }

  function DetailsSingleLine(d: Details): bool {
    match d
    case Mapping(entries) => EntriesSingleLine(entries)
    case Message(text) => SingleLine(text)
  }

  /** The number of lines of a section: one per item of a mapping (plus the
      "SSL Certificate Details:" line in the TLS section), one for a message. */
  function SectionLines(d: Details, isTls: bool): nat {
    match d
    case Mapping(entries) => |entries| + (if isTls then 1 else 0)
    case Message(_) => 1
  }

  /** A text without line breaks followed by "\n" is one line. */
  lemma OneLine(body: string)
    requires SingleLine(body)
    ensures NewlineCount(body + "\n") == 1
  {
    NewlineCountConcat(body, "\n");
    NewlineCountNone(body);
  }

  lemma SectionCounts(tls: Details, software: Details)
    requires DetailsSingleLine(tls) && DetailsSingleLine(software)
    ensures NewlineCount(TlsSection(tls)) == SectionLines(tls, true)
    ensures NewlineCount(SoftwareSection(software)) == SectionLines(software, false)
  {
    match tls {
      case Mapping(entries) =>
        EntryLinesCount(entries);
        NewlineCountConcat(CertificateLine, EntryLines(entries));
        assert CertificateLine == "SSL Certificate Details:" + "\n";
        OneLine("SSL Certificate Details:");
      case Message(text) =>
        OneLine(TlsStatusPrefix + text);
    }
    match software {
      case Mapping(entries) =>
        EntryLinesCount(entries);
      case Message(text) =>
        OneLine(SoftwareStatusPrefix + text);
    }
  }

  lemma BannerCount(target: string)
    requires SingleLine(target)
    ensures NewlineCount(Banner(target)) == 2
  {
    var line := "--- Vulnerability Report for " + target + " ---";
    assert Banner(target) == (line + "\n") + "\n";
    OneLine(line);
    NewlineCountConcat(line + "\n", "\n");
  }

  lemma PortsHeadingCount()
    ensures NewlineCount(PortsHeading) == 1
  {
    assert PortsHeading == "1. Open Ports:" + "\n";
    OneLine("1. Open Ports:");
  }

  /** A heading after a blank line: two line breaks. */
  lemma SpacedHeadingCount(title: string)
    requires SingleLine(title)
    ensures NewlineCount("\n" + (title + "\n")) == 2
  {
    OneLine(title);
    NewlineCountConcat("\n", title + "\n");
    OneLine("");
    assert "" + "\n" == "\n";
  }

  lemma TlsHeadingCount()
    ensures NewlineCount(TlsHeading) == 2
  {
    var title := "2. SSL/TLS Configuration:";
    assert TlsHeading == "\n" + (title + "\n");
    SpacedHeadingCount(title);
  }

  lemma SoftwareHeadingCount()
    ensures NewlineCount(SoftwareHeading) == 2
  {
    var title := "3. Outdated Software:";
    assert SoftwareHeading == "\n" + (title + "\n");
    SpacedHeadingCount(title);
  }

  lemma PortSectionCount(ports: seq<int>)
    ensures NewlineCount(PortSection(ports)) == 1
  {
    if ports != [] {
      OneLine(PortsPrefix + JoinPorts(ports));
    } else {
      assert NoPortsLine == "No open ports detected or scan failed." + "\n";
      OneLine("No open ports detected or scan failed.");
    }
  }

  /** When no input text holds a line break, the report has eight fixed line
      breaks (two after the banner, one after the first heading, one for the
      port line, two before each later heading) and then one per line of the
      TLS and software sections. */
  lemma ReportLineCount(target: string, ports: seq<int>, tls: Details, software: Details)
    requires SingleLine(target) && DetailsSingleLine(tls) && DetailsSingleLine(software)
    ensures NewlineCount(ReportText(target, ports, tls, software))
            == 8 + SectionLines(tls, true) + SectionLines(software, false)
  {
    BannerCount(target);
    PortsHeadingCount();
    TlsHeadingCount();
    SoftwareHeadingCount();
    PortSectionCount(ports);
    SectionCounts(tls, software);
    var a := Banner(target);
    var b := a + PortsHeading;
    var c := b + PortSection(ports);
    var d := c + TlsHeading;
    var e := d + TlsSection(tls);
    var f := e + SoftwareHeading;
    NewlineCountConcat(a, PortsHeading);
    NewlineCountConcat(b, PortSection(ports));
    NewlineCountConcat(c, TlsHeading);
    NewlineCountConcat(d, TlsSection(tls));
    NewlineCountConcat(e, SoftwareHeading);
    NewlineCountConcat(f, SoftwareSection(software));
  }
}
