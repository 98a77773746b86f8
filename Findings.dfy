/** The finding model of the security scanner: each finding is a record of a
    type, a severity and a description; the severity of each type is fixed by
    one table; a report carries the findings and a summary counted from them. */
module Findings {

  datatype Severity = Info | Low | Medium | High

  datatype FindingType =
    | SslExpired
    | WeakSslVersion
    | SslError
    | MissingSecurityHeader
    | OpenPort
    | InformationDisclosure
    | RequestError

  datatype Finding = Finding(kind: FindingType, severity: Severity, description: string)

  /** The one severity that every finding of a type carries. */
  function SeverityOf(kind: FindingType): Severity {
    match kind
    case SslExpired => High
    case SslError => High
    case WeakSslVersion => Medium
    case MissingSecurityHeader => Medium
    case InformationDisclosure => Medium
    case OpenPort => Low
    case RequestError => Info
  }

  /** The `type` string of a finding in the JSON report. */
  function TypeName(kind: FindingType): string {
    match kind
    case SslExpired => "ssl_expired"
    case WeakSslVersion => "weak_ssl_version"
    case SslError => "ssl_error"
    case MissingSecurityHeader => "missing_security_header"
    case OpenPort => "open_port"
    case InformationDisclosure => "information_disclosure"
    case RequestError => "request_error"
  }

  /** The `severity` string of a finding in the JSON report. */
  function SeverityName(s: Severity): string {
    match s
    case High => "HIGH"
    case Medium => "MEDIUM"
    case Low => "LOW"
    case Info => "INFO"
  }

  /** The labels of the JSON report tell types and severities apart. */
  lemma NamesDistinct(k1: FindingType, k2: FindingType, s1: Severity, s2: Severity)
    ensures TypeName(k1) == TypeName(k2) <==> k1 == k2
    ensures SeverityName(s1) == SeverityName(s2) <==> s1 == s2
  {
  }

  /** A finding as the scanner emits it: its severity is the one of its type
      and its description is never empty. */
  predicate WellFormed(f: Finding) {
    f.severity == SeverityOf(f.kind) && f.description != []
  }

  predicate AllWellFormed(fs: seq<Finding>) {
    forall i :: 0 <= i < |fs| ==> WellFormed(fs[i])
  }

  /** A finding of type `kind`, with the severity taken from the table. */
  function MakeFinding(kind: FindingType, description: string): (f: Finding)
    requires description != []
    ensures WellFormed(f) && f.kind == kind && f.description == description
  {
    Finding(kind, SeverityOf(kind), description)
  }

  lemma AllWellFormedConcat(a: seq<Finding>, b: seq<Finding>)
    requires AllWellFormed(a) && AllWellFormed(b)
    ensures AllWellFormed(a + b)
  {
  }

  /** `len([f for f in findings if f['severity'] == s])` */
  function CountSeverity(fs: seq<Finding>, s: Severity): (n: nat)
    ensures n <= |fs|
  {
    if fs == [] then 0
    else CountSeverity(fs[..|fs| - 1], s) + (if fs[|fs| - 1].severity == s then 1 else 0)
  }

  /** The same count taken over the findings of one type. */
  function CountKind(fs: seq<Finding>, k: FindingType): (n: nat)
    ensures n <= |fs|
  {
    if fs == [] then 0
    else CountKind(fs[..|fs| - 1], k) + (if fs[|fs| - 1].kind == k then 1 else 0)
  }

  /** The severities of the findings, in order. */
  function Severities(fs: seq<Finding>): seq<Severity> {
    seq(|fs|, i requires 0 <= i < |fs| => fs[i].severity)
  }

  /** The count agrees with the multiplicity of `s` among the severities. */
  lemma {:induction false} CountSeverityIsMultiplicity(fs: seq<Finding>, s: Severity)
    ensures CountSeverity(fs, s) == multiset(Severities(fs))[s]
    decreases |fs|
  {
    if fs != [] {
      var init := fs[..|fs| - 1];
      assert Severities(fs) == Severities(init) + [fs[|fs| - 1].severity];
      CountSeverityIsMultiplicity(init, s);
    }
  }

  lemma {:induction false} CountSeverityConcat(a: seq<Finding>, b: seq<Finding>, s: Severity)
    ensures CountSeverity(a + b, s) == CountSeverity(a, s) + CountSeverity(b, s)
    decreases |b|
  {
    if b == [] {
      assert a + b == a;
    } else {
      assert (a + b)[..|a + b| - 1] == a + b[..|b| - 1];
      CountSeverityConcat(a, b[..|b| - 1], s);
    }
  }

  lemma {:induction false} CountKindConcat(a: seq<Finding>, b: seq<Finding>, k: FindingType)
    ensures CountKind(a + b, k) == CountKind(a, k) + CountKind(b, k)
    decreases |b|
  {
    if b == [] {
      assert a + b == a;
    } else {
      assert (a + b)[..|a + b| - 1] == a + b[..|b| - 1];
      CountKindConcat(a, b[..|b| - 1], k);
    }
  }

  /** Every finding has exactly one of the four severities. */
  lemma {:induction false} SeverityCountsPartition(fs: seq<Finding>)
    ensures CountSeverity(fs, High) + CountSeverity(fs, Medium) + CountSeverity(fs, Low)
            + CountSeverity(fs, Info) == |fs|
    decreases |fs|
  {
    if fs != [] {
      SeverityCountsPartition(fs[..|fs| - 1]);
    }
  }

  /** In well-formed findings the severity counts are counts of types: HIGH
      are the expired certificates and TLS errors, LOW the open ports, INFO
      the request errors, MEDIUM the other three types. */
  lemma {:induction false} SeverityCountsByKind(fs: seq<Finding>)
    requires AllWellFormed(fs)
    ensures CountSeverity(fs, High) == CountKind(fs, SslExpired) + CountKind(fs, SslError)
    ensures CountSeverity(fs, Medium) == CountKind(fs, WeakSslVersion)
              + CountKind(fs, MissingSecurityHeader) + CountKind(fs, InformationDisclosure)
    ensures CountSeverity(fs, Low) == CountKind(fs, OpenPort)
    ensures CountSeverity(fs, Info) == CountKind(fs, RequestError)
    decreases |fs|
  {
    if fs != [] {
      assert WellFormed(fs[|fs| - 1]);
      SeverityCountsByKind(fs[..|fs| - 1]);
    }
  }

  /** The `summary` object of the JSON report. */
  datatype Summary = Summary(totalFindings: nat, highSeverity: nat, mediumSeverity: nat, lowSeverity: nat)

  /** The summary of a findings list: its length and its HIGH, MEDIUM and LOW
      counts; the INFO findings are counted in the total only. */
  function Summarize(fs: seq<Finding>): (s: Summary)
    ensures s.totalFindings == |fs|
    ensures s.highSeverity + s.mediumSeverity + s.lowSeverity + CountSeverity(fs, Info) == s.totalFindings
    ensures fs == [] ==> s == Summary(0, 0, 0, 0)
  {
    SeverityCountsPartition(fs);
    Summary(|fs|, CountSeverity(fs, High), CountSeverity(fs, Medium), CountSeverity(fs, Low))
  }

  function AddSummaries(a: Summary, b: Summary): Summary {
    Summary(a.totalFindings + b.totalFindings, a.highSeverity + b.highSeverity,
            a.mediumSeverity + b.mediumSeverity, a.lowSeverity + b.lowSeverity)
  }

  /** The summary of a concatenation is the sum of the summaries, so the
      summary of a scan can be taken probe by probe. */
  lemma SummarizeConcat(a: seq<Finding>, b: seq<Finding>)
    ensures Summarize(a + b) == AddSummaries(Summarize(a), Summarize(b))
  {
    CountSeverityConcat(a, b, High);
    CountSeverityConcat(a, b, Medium);
    CountSeverityConcat(a, b, Low);
  }

  /** The report object, before JSON serialisation. */
  datatype ScanReport = ScanReport(scanTarget: string, scanTime: string, findings: seq<Finding>, summary: Summary)

  /** The report of a findings list: the findings in their order, unfiltered,
      with the summary counted from them. */
  function BuildReport(target: string, scanTime: string, fs: seq<Finding>): (r: ScanReport)
    ensures r.scanTarget == target && r.scanTime == scanTime && r.findings == fs
    ensures r.summary.totalFindings == |fs|
    ensures r.summary.highSeverity == multiset(Severities(fs))[High]
    ensures r.summary.mediumSeverity == multiset(Severities(fs))[Medium]
    ensures r.summary.lowSeverity == multiset(Severities(fs))[Low]
  {
    CountSeverityIsMultiplicity(fs, High);
    CountSeverityIsMultiplicity(fs, Medium);
    CountSeverityIsMultiplicity(fs, Low);
    ScanReport(target, scanTime, fs, Summarize(fs))
  }
}
