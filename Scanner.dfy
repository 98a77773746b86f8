/** The `SecurityScanner` object: it holds the target URL and a findings list
    that its four checks append to, in a fixed order, before the report is
    built. The network is a parameter: each check receives the function that
    gives the outcome of its calls. */
module Scanner {
  import opened Text
  import opened Findings
  import opened Target
  import opened Probes

  /** What the network answers to each kind of call the checks make: the TLS
      handshake with a host on port 443, the GET of the target URL, a TCP
      connect to a host and port, and the GET of a candidate path (the URL
      joining is not modelled, so the answer is keyed by the path). */
  datatype Network = Network(
    tlsHandshake: string -> TlsProbe,
    httpGet: string -> HttpProbe,
    tcpConnect: (string, int) -> ConnectOutcome,
    fetchPath: string -> PathProbe)

  /** The findings of one full scan of `target`, in the order of the checks. */
  function ScanFindings(target: string, net: Network): seq<Finding> {
    TlsFindings(net.tlsHandshake(TlsHost(target)))
    + HeaderFindings(net.httpGet(target))
    + PortFindings(PortHost(target), CommonPorts, net.tcpConnect)
    + DisclosureFindings(CommonPaths, net.fetchPath)
  }

  class SecurityScanner {
    const targetUrl: string
    /** The headers sent with every HTTP request. */
    const requestHeaders: seq<(string, string)>
    var findings: seq<Finding>

    /** Every finding pairs its type with the severity of the table and has
        a description. */
    ghost predicate Valid()
      reads this
    {
      AllWellFormed(findings)
    }

    constructor (targetUrl: string)
      ensures Valid()
      ensures this.targetUrl == targetUrl && findings == []
      ensures requestHeaders == [("User-Agent", "Security-Audit-Script/1.0")]
    {
      this.targetUrl := targetUrl;
      findings := [];
      requestHeaders := [("User-Agent", "Security-Audit-Script/1.0")];
    }

    /** `check_ssl_tls` */
    method CheckSslTls(tlsHandshake: string -> TlsProbe)
      requires Valid()
      modifies this
      ensures Valid()
      ensures findings == old(findings) + TlsFindings(tlsHandshake(TlsHost(targetUrl)))
    {
      var hostname := TlsHost(targetUrl);
      match tlsHandshake(hostname)
      case TlsFailure(e) =>
        findings := findings + [TlsErrorFinding(e)];
      case TlsSession(Unparsable(e), _, _) =>
        findings := findings + [TlsErrorFinding(e)];
      case TlsSession(NotAfter(notAfter), now, version) =>
        if notAfter < now {
          findings := findings + [MakeFinding(SslExpired, "SSL certificate has expired")];
        }
        if IsWeakVersion(version) {
          findings := findings + [MakeFinding(WeakSslVersion, "Weak SSL/TLS version detected: " + version)];
        }
    }

    /** `check_security_headers` */
    method CheckSecurityHeaders(httpGet: string -> HttpProbe)
      requires Valid()
      modifies this
      ensures Valid()
      ensures findings == old(findings) + HeaderFindings(httpGet(targetUrl))
    {
      match httpGet(targetUrl)
      case RequestFailed(e) =>
        findings := findings + [MakeFinding(RequestError, "Error checking security headers: " + e)];
      case Responded(names) =>
        for i := 0 to |SecurityHeaders|
          invariant Valid()
          invariant findings == old(findings) + MissingHeaderFindings(SecurityHeaders[..i], names)
        {
          var rule := SecurityHeaders[i];
          if !HasHeader(names, rule.header) {
            findings := findings + [MissingHeaderFinding(rule)];
          }
          assert SecurityHeaders[..i + 1][..i] == SecurityHeaders[..i];
        }
        assert SecurityHeaders[..|SecurityHeaders|] == SecurityHeaders;
    }

    /** `check_open_ports` */
    method CheckOpenPorts(ports: seq<int>, tcpConnect: (string, int) -> ConnectOutcome)
      requires Valid()
      modifies this
      ensures Valid()
      ensures findings == old(findings) + PortFindings(PortHost(targetUrl), ports, tcpConnect)
    {
      var hostname := PortHost(targetUrl);
      for i := 0 to |ports|
        invariant Valid()
        invariant findings == old(findings) + PortFindings(hostname, ports[..i], tcpConnect)
      {
        var port := ports[i];
        var result := tcpConnect(hostname, port);
        if result == ConnectResult(0) {
          findings := findings + [MakeFinding(OpenPort, PortDescription(port))];
        }
        assert ports[..i + 1][..i] == ports[..i];
      }
      assert ports[..|ports|] == ports;
    }

    /** `check_information_disclosure` */
    method CheckInformationDisclosure(fetchPath: string -> PathProbe)
      requires Valid()
      modifies this
      ensures Valid()
      ensures findings == old(findings) + DisclosureFindings(CommonPaths, fetchPath)
    {
      var paths := CommonPaths;
      for i := 0 to |paths|
        invariant Valid()
        invariant findings == old(findings) + DisclosureFindings(paths[..i], fetchPath)
      {
        var path := paths[i];
        if fetchPath(path) == Status(200) {
          findings := findings + [MakeFinding(InformationDisclosure, DisclosurePrefix + path)];
        }
        assert paths[..i + 1][..i] == paths[..i];
      }
      assert paths[..|paths|] == paths;
    }

    /** `generate_report`: the findings so far, unfiltered and in order, with
        their summary. */
    function GenerateReport(scanTime: string): (r: ScanReport)
      reads this
      ensures r.scanTarget == targetUrl && r.findings == findings
      ensures r.summary.totalFindings == |findings|
      ensures r.summary.highSeverity + r.summary.mediumSeverity + r.summary.lowSeverity <= |findings|
      ensures r == BuildReport(targetUrl, scanTime, findings)
    {
      BuildReport(targetUrl, scanTime, findings)
    }

    /** `run_scan`: the four checks in order, then the report. */
    method RunScan(net: Network, scanTime: string) returns (report: ScanReport)
      requires Valid()
      modifies this
      ensures Valid()
      ensures findings == old(findings) + ScanFindings(targetUrl, net)
      ensures report == BuildReport(targetUrl, scanTime, findings)
    {
      ghost var before := findings;
      CheckSslTls(net.tlsHandshake);
      CheckSecurityHeaders(net.httpGet);
      CheckOpenPorts(CommonPorts, net.tcpConnect);
      CheckInformationDisclosure(net.fetchPath);
      ghost var t := TlsFindings(net.tlsHandshake(TlsHost(targetUrl)));
      ghost var h := HeaderFindings(net.httpGet(targetUrl));
      ghost var p := PortFindings(PortHost(targetUrl), CommonPorts, net.tcpConnect);
      ghost var d := DisclosureFindings(CommonPaths, net.fetchPath);
      assert findings == before + t + h + p + d;
      assert before + t + h + p + d == before + (t + h + p + d);
      report := GenerateReport(scanTime);
    }
  }

  /** The command-line flow: the typed target gets its scheme, a fresh
      scanner runs one scan, and the report holds exactly that scan's
      findings. */
  method ScanFromPrompt(typed: string, net: Network, scanTime: string) returns (report: ScanReport)
    ensures report.scanTarget == Normalize(typed)
    ensures report.findings == ScanFindings(Normalize(typed), net)
    ensures report.summary == Summarize(report.findings)
    ensures AllWellFormed(report.findings)
  {
    var targetUrl := Normalize(typed);
    var scanner := new SecurityScanner(targetUrl);
    report := scanner.RunScan(net, scanTime);
  }

  /** The step at which a check of a scan runs. */
  function CheckIndex(kind: FindingType): nat {
    match kind
    case SslExpired => 0
    case WeakSslVersion => 0
    case SslError => 0
    case MissingSecurityHeader => 1
    case RequestError => 1
    case OpenPort => 2
    case InformationDisclosure => 3
  }

  predicate AllFromCheck(fs: seq<Finding>, step: nat) {
    forall i :: 0 <= i < |fs| ==> CheckIndex(fs[i].kind) == step
  }

  /** The findings of a scan are grouped by check, in the order the checks
      run: TLS, headers, ports, paths. */
  predicate InCheckOrder(fs: seq<Finding>) {
    forall i, j :: 0 <= i < j < |fs| ==> CheckIndex(fs[i].kind) <= CheckIndex(fs[j].kind)
  }

  lemma {:induction false} PortFindingsFromPortCheck(host: string, ports: seq<int>, tcpConnect: (string, int) -> ConnectOutcome)
    ensures AllFromCheck(PortFindings(host, ports, tcpConnect), 2)
    ensures AllWellFormed(PortFindings(host, ports, tcpConnect))
    decreases |ports|
  {
    if ports != [] {
      PortFindingsFromPortCheck(host, ports[..|ports| - 1], tcpConnect);
    }
  }

  lemma {:induction false} DisclosureFindingsFromPathCheck(paths: seq<string>, fetchPath: string -> PathProbe)
    ensures AllFromCheck(DisclosureFindings(paths, fetchPath), 3)
    ensures AllWellFormed(DisclosureFindings(paths, fetchPath))
    decreases |paths|
  {
    if paths != [] {
      DisclosureFindingsFromPathCheck(paths[..|paths| - 1], fetchPath);
    }
  }

  /** Every finding of a scan is well formed, and the findings come check by
      check in the order the checks run. */
  lemma ScanFindingsWellFormedAndOrdered(target: string, net: Network)
    ensures AllWellFormed(ScanFindings(target, net))
    ensures InCheckOrder(ScanFindings(target, net))
  {
    var t := TlsFindings(net.tlsHandshake(TlsHost(target)));
    var h := HeaderFindings(net.httpGet(target));
    var p := PortFindings(PortHost(target), CommonPorts, net.tcpConnect);
    var d := DisclosureFindings(CommonPaths, net.fetchPath);
    TlsFindingsSpec(net.tlsHandshake(TlsHost(target)));
    HeaderFindingsSpec(net.httpGet(target));
    PortFindingsFromPortCheck(PortHost(target), CommonPorts, net.tcpConnect);
    DisclosureFindingsFromPathCheck(CommonPaths, net.fetchPath);
    assert AllFromCheck(t, 0);
    assert AllFromCheck(h, 1);
    var all := t + h + p + d;
    forall i | 0 <= i < |all|
      ensures CheckIndex(all[i].kind) == if i < |t| then 0 else if i < |t| + |h| then 1
                                         else if i < |t| + |h| + |p| then 2 else 3
      ensures WellFormed(all[i])
    {
      if i < |t| {
        assert all[i] == t[i];
      } else if i < |t| + |h| {
        assert all[i] == h[i - |t|];
      } else if i < |t| + |h| + |p| {
        assert all[i] == p[i - |t| - |h|];
      } else {
        assert all[i] == d[i - |t| - |h| - |p|];
      }
    }
  }

  lemma {:induction false} CountSeverityUniform(fs: seq<Finding>, s: Severity)
    requires forall i :: 0 <= i < |fs| ==> fs[i].severity == s
    ensures CountSeverity(fs, s) == |fs|
    ensures forall other :: other != s ==> CountSeverity(fs, other) == 0
    decreases |fs|
  {
    if fs != [] {
      CountSeverityUniform(fs[..|fs| - 1], s);
    }
  }

  lemma TlsSummary(tp: TlsProbe)
    ensures var s := Summarize(TlsFindings(tp));
      s.highSeverity <= 1 && s.mediumSeverity <= 1 && s.lowSeverity == 0 && s.totalFindings <= 2
  {
    var t := TlsFindings(tp);
    TlsFindingsSpec(tp);
    if tp.TlsSession? && tp.notAfter.NotAfter? {
      if |t| == 2 {
        assert Kinds(t) == [SslExpired, WeakSslVersion];
        assert WellFormed(t[0]) && WellFormed(t[1]);
        assert t[0].severity == High && t[1].severity == Medium;
        assert t[..1] == [t[0]] && t[..1][..0] == [];
        assert CountSeverity(t[..1], Medium) == 0 && CountSeverity(t[..1], Low) == 0;
        assert CountSeverity(t, Medium) == 1 && CountSeverity(t, Low) == 0;
      } else if |t| == 1 {
        assert t[..0] == [];
      }
    } else {
      assert t[..0] == [];
    }
  }

  lemma HeaderSummary(hp: HttpProbe)
    ensures var s := Summarize(HeaderFindings(hp));
      s.highSeverity == 0 && s.lowSeverity == 0 && s.mediumSeverity <= 4 && s.totalFindings <= 4
  {
    HeaderFindingsSpec(hp);
    var h := HeaderFindings(hp);
    if hp.Responded? {
      CountSeverityUniform(h, Medium);
    } else {
      CountSeverityUniform(h, Info);
    }
  }

  lemma PortSummary(host: string, tcpConnect: (string, int) -> ConnectOutcome)
    ensures var s := Summarize(PortFindings(host, CommonPorts, tcpConnect));
      && s.highSeverity == 0 && s.mediumSeverity == 0
      && s.lowSeverity == s.totalFindings == |OpenPorts(host, CommonPorts, tcpConnect)| <= 4
  {
    PortFindingsSpec(host, CommonPorts, tcpConnect);
    CountSeverityUniform(PortFindings(host, CommonPorts, tcpConnect), Low);
  }

  lemma DisclosureSummary(fetchPath: string -> PathProbe)
    ensures var s := Summarize(DisclosureFindings(CommonPaths, fetchPath));
      s.highSeverity == 0 && s.lowSeverity == 0 && s.mediumSeverity == s.totalFindings <= 5
  {
    DisclosureFindingsSpec(CommonPaths, fetchPath);
    CountSeverityUniform(DisclosureFindings(CommonPaths, fetchPath), Medium);
  }

  /** The summary of a scan: at most one HIGH finding (an expired
      certificate or a TLS error), LOW exactly the open ports among the four
      candidates, MEDIUM at most 1 + 4 + 5, at most 15 findings in all. */
  lemma ScanSummaryBounds(target: string, net: Network)
    ensures var s := Summarize(ScanFindings(target, net));
      && s.highSeverity <= 1
      && s.lowSeverity == |OpenPorts(PortHost(target), CommonPorts, net.tcpConnect)| <= 4
      && s.mediumSeverity <= 10
      && s.totalFindings <= 15
  {
    var t := TlsFindings(net.tlsHandshake(TlsHost(target)));
    var h := HeaderFindings(net.httpGet(target));
    var p := PortFindings(PortHost(target), CommonPorts, net.tcpConnect);
    var d := DisclosureFindings(CommonPaths, net.fetchPath);
    TlsSummary(net.tlsHandshake(TlsHost(target)));
    HeaderSummary(net.httpGet(target));
    PortSummary(PortHost(target), net.tcpConnect);
    DisclosureSummary(net.fetchPath);
    SummarizeConcat(t, h);
    SummarizeConcat(t + h, p);
    SummarizeConcat(t + h + p, d);
  }
}
