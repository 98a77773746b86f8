/** What each of the four checks appends to the findings list, as a function
    of the outcome of its network calls. The network is abstracted: each
    outcome type below lists what the Python code can observe. */
module Probes {
  import opened Text
  import opened Findings

  // ---------------------------------------------------------------- TLS

  /** The certificate's `notAfter`, after `datetime.strptime`: a point in
      time, or the message of the exception raised on a malformed date. */
  datatype CertExpiry = NotAfter(time: int) | Unparsable(error: string)

  /** The TLS handshake: an exception (DNS failure, refused connection,
      handshake or certificate failure), or a session with the certificate's
      expiry, the current time and the negotiated protocol version. */
  datatype TlsProbe =
    | TlsFailure(error: string)
    | TlsSession(notAfter: CertExpiry, now: int, version: string)

  predicate IsWeakVersion(version: string) {
    version == "TLSv1" || version == "TLSv1.1"
  }

  const TlsErrorPrefix: string := "SSL/TLS connection error: "

  function TlsErrorFinding(error: string): (f: Finding)
    ensures WellFormed(f) && f.kind == SslError
  {
    MakeFinding(SslError, TlsErrorPrefix + error)
  }

  /** The findings of `check_ssl_tls`. */
  function TlsFindings(p: TlsProbe): seq<Finding> {
    match p
    case TlsFailure(e) => [TlsErrorFinding(e)]
    case TlsSession(Unparsable(e), _, _) => [TlsErrorFinding(e)]
    case TlsSession(NotAfter(t), now, v) =>
      (if t < now then [MakeFinding(SslExpired, "SSL certificate has expired")] else [])
      + (if IsWeakVersion(v) then [MakeFinding(WeakSslVersion, "Weak SSL/TLS version detected: " + v)] else [])
  }

  /** The types of a findings list, in order. */
  function Kinds(fs: seq<Finding>): seq<FindingType> {
    seq(|fs|, i requires 0 <= i < |fs| => fs[i].kind)
  }

  /** A failed handshake or an unreadable expiry date gives exactly one HIGH
      `ssl_error` carrying the error text; a session gives `ssl_expired` iff
      the certificate expired strictly before now and `weak_ssl_version` iff
      TLS 1.0 or 1.1 was negotiated, the first before the second. */
  lemma TlsFindingsSpec(p: TlsProbe)
    ensures AllWellFormed(TlsFindings(p))
    ensures |TlsFindings(p)| <= 2
    ensures (p.TlsFailure? || p.notAfter.Unparsable?) ==>
      var e := if p.TlsFailure? then p.error else p.notAfter.error;
      TlsFindings(p) == [Finding(SslError, High, TlsErrorPrefix + e)]
    ensures p.TlsSession? && p.notAfter.NotAfter? ==>
      && (SslExpired in Kinds(TlsFindings(p)) <==> p.notAfter.time < p.now)
      && (WeakSslVersion in Kinds(TlsFindings(p)) <==> IsWeakVersion(p.version))
      && SslError !in Kinds(TlsFindings(p))
      && |TlsFindings(p)| == (if p.notAfter.time < p.now then 1 else 0) + (if IsWeakVersion(p.version) then 1 else 0)
      && (|TlsFindings(p)| == 2 ==> Kinds(TlsFindings(p)) == [SslExpired, WeakSslVersion])
  {
    var r := TlsFindings(p);
    if p.TlsSession? && p.notAfter.NotAfter? {
      var expired := p.notAfter.time < p.now;
      var weak := IsWeakVersion(p.version);
      if expired && weak {
        assert Kinds(r) == [SslExpired, WeakSslVersion];
      } else if expired {
        assert Kinds(r) == [SslExpired];
      } else if weak {
        assert Kinds(r) == [WeakSslVersion];
      } else {
        assert Kinds(r) == [];
      }
    }
  }

  // ---------------------------------------------------------------- headers

  /** The GET of the target URL: a `RequestException` with its text, or a
      response with the names of the headers it carries. */
  datatype HttpProbe = RequestFailed(error: string) | Responded(headerNames: seq<string>)

  /** The header table, in its order: a header and the message of its finding. */
  datatype HeaderRule = HeaderRule(header: string, message: string)

  const SecurityHeaders: seq<HeaderRule> := [
    HeaderRule("Strict-Transport-Security", "Missing HSTS header"),
    HeaderRule("X-Content-Type-Options", "Missing X-Content-Type-Options header"),
    HeaderRule("X-Frame-Options", "Missing X-Frame-Options header"),
    HeaderRule("Content-Security-Policy", "Missing Content Security Policy")
  ]

  function LowerChar(c: char): char {
    if 'A' <= c <= 'Z' then (c as int + 32) as char else c
  }

  function Lower(s: string): string {
    seq(|s|, i requires 0 <= i < |s| => LowerChar(s[i]))
  }

  /** `name in response.headers`: header names compare without regard to
      (ASCII) case. */
  predicate HasHeader(names: seq<string>, name: string) {
    exists i :: 0 <= i < |names| && Lower(names[i]) == Lower(name)
  }

  /** The lookup ignores case: two spellings of a name that differ only in
      case are both present or both absent, and the lower-case spelling
      stands for all of them. */
  lemma HasHeaderIgnoresCase(names: seq<string>, name: string, other: string)
    ensures Lower(name) == Lower(other) ==> (HasHeader(names, name) <==> HasHeader(names, other))
    ensures HasHeader(names, name) <==> HasHeader(names, Lower(name))
  {
  }

  function MissingHeaderFinding(rule: HeaderRule): (f: Finding)
    requires rule.message != []
    ensures WellFormed(f) && f.kind == MissingSecurityHeader && f.description == rule.message
  {
    MakeFinding(MissingSecurityHeader, rule.message)
  }

  predicate MessagesNonEmpty(table: seq<HeaderRule>) {
    forall i :: 0 <= i < |table| ==> table[i].message != []
  }

  /** The findings of the loop over `table`: one per header the response lacks. */
  function MissingHeaderFindings(table: seq<HeaderRule>, names: seq<string>): (r: seq<Finding>)
    requires MessagesNonEmpty(table)
    ensures |r| <= |table| && AllWellFormed(r)
  {
    if table == [] then []
    else
      var rule := table[|table| - 1];
      MissingHeaderFindings(table[..|table| - 1], names)
      + (if HasHeader(names, rule.header) then [] else [MissingHeaderFinding(rule)])
  }

  /** The findings of `check_security_headers`. */
  function HeaderFindings(p: HttpProbe): seq<Finding> {
    match p
    case RequestFailed(e) => [MakeFinding(RequestError, "Error checking security headers: " + e)]
    case Responded(names) => MissingHeaderFindings(SecurityHeaders, names)
  }

  /** The descriptions of a findings list, in order. */
  function Descriptions(fs: seq<Finding>): seq<string> {
    seq(|fs|, i requires 0 <= i < |fs| => fs[i].description)
  }

  /** The headers of a table that a response lacks, in table order. */
  function Absent(table: seq<HeaderRule>, names: seq<string>): seq<HeaderRule> {
    if table == [] then []
    else if HasHeader(names, table[0].header) then Absent(table[1..], names)
    else [table[0]] + Absent(table[1..], names)
  }

  lemma {:induction false} AbsentSnoc(table: seq<HeaderRule>, names: seq<string>)
    requires table != []
    ensures Absent(table, names) == Absent(table[..|table| - 1], names)
      + (if HasHeader(names, table[|table| - 1].header) then [] else [table[|table| - 1]])
    decreases |table|
  {
    if |table| > 1 {
      assert table[1..][..|table[1..]| - 1] == table[..|table| - 1][1..];
      AbsentSnoc(table[1..], names);
    }
  }

  /** The loop emits, in table order, one MEDIUM finding per absent header,
      carrying that header's message, and nothing else. */
  lemma {:induction false} MissingHeaderFindingsAreAbsentHeaders(table: seq<HeaderRule>, names: seq<string>)
    requires MessagesNonEmpty(table)
    ensures var r := MissingHeaderFindings(table, names);
      && |r| == |Absent(table, names)|
      && forall i :: 0 <= i < |r| ==>
           r[i] == Finding(MissingSecurityHeader, Medium, Absent(table, names)[i].message)
    decreases |table|
  {
    if table != [] {
      MissingHeaderFindingsAreAbsentHeaders(table[..|table| - 1], names);
      AbsentSnoc(table, names);
    }
  }

  /** A table with no header present in the response is absent entirely;
      a table with every header present is absent nowhere. */
  lemma {:induction false} AbsentExtremes(table: seq<HeaderRule>, names: seq<string>)
    ensures (forall i :: 0 <= i < |table| ==> !HasHeader(names, table[i].header)) ==> Absent(table, names) == table
    ensures (forall i :: 0 <= i < |table| ==> HasHeader(names, table[i].header)) ==> Absent(table, names) == []
    decreases |table|
  {
    if table != [] {
      AbsentExtremes(table[1..], names);
      assert table == [table[0]] + table[1..];
      if forall i :: 0 <= i < |table| ==> !HasHeader(names, table[i].header) {
        assert forall i :: 0 <= i < |table[1..]| ==> !HasHeader(names, table[1..][i].header) by {
          forall i | 0 <= i < |table[1..]| ensures !HasHeader(names, table[1..][i].header) {
            assert table[1..][i] == table[i + 1];
          }
        }
      }
      if forall i :: 0 <= i < |table| ==> HasHeader(names, table[i].header) {
        assert forall i :: 0 <= i < |table[1..]| ==> HasHeader(names, table[1..][i].header) by {
          forall i | 0 <= i < |table[1..]| ensures HasHeader(names, table[1..][i].header) {
            assert table[1..][i] == table[i + 1];
          }
        }
      }
    }
  }

  /** A header that is present is never reported; one that is absent is
      reported with its own message. */
  lemma {:induction false} AbsentMembership(table: seq<HeaderRule>, names: seq<string>, rule: HeaderRule)
    ensures rule in Absent(table, names) <==> rule in table && !HasHeader(names, rule.header)
    decreases |table|
  {
    if table != [] {
      AbsentMembership(table[1..], names, rule);
      assert table == [table[0]] + table[1..];
    }
  }

  /** The four messages of the header table are distinct. */
  lemma HeaderMessagesDistinct(rule: HeaderRule, other: HeaderRule)
    requires rule in SecurityHeaders && other in SecurityHeaders
    requires rule.message == other.message
    ensures rule == other
  {
  }

  /** The message of a table header is among the descriptions exactly when
      the response lacks that header. */
  lemma MissingMessageIffAbsent(names: seq<string>, rule: HeaderRule)
    requires rule in SecurityHeaders
    ensures rule.message in Descriptions(MissingHeaderFindings(SecurityHeaders, names))
            <==> !HasHeader(names, rule.header)
  {
    var r := MissingHeaderFindings(SecurityHeaders, names);
    var absent := Absent(SecurityHeaders, names);
    MissingHeaderFindingsAreAbsentHeaders(SecurityHeaders, names);
    AbsentMembership(SecurityHeaders, names, rule);
    if rule.message in Descriptions(r) {
      var i :| 0 <= i < |r| && Descriptions(r)[i] == rule.message;
      AbsentMembership(SecurityHeaders, names, absent[i]);
      HeaderMessagesDistinct(absent[i], rule);
    }
    if !HasHeader(names, rule.header) {
      var i :| 0 <= i < |absent| && absent[i] == rule;
      assert Descriptions(r)[i] == rule.message;
    }
  }

  /** `check_security_headers` on a request error: exactly one INFO
      `request_error` carrying the error text, and no header finding. On a
      response: between zero and four MEDIUM `missing_security_header`
      findings. Either way every finding is well formed. */
  lemma HeaderFindingsSpec(p: HttpProbe)
    ensures AllWellFormed(HeaderFindings(p))
    ensures p.RequestFailed? ==>
      HeaderFindings(p) == [Finding(RequestError, Info, "Error checking security headers: " + p.error)]
    ensures p.Responded? ==>
      && |HeaderFindings(p)| <= |SecurityHeaders|
      && (forall i :: 0 <= i < |HeaderFindings(p)| ==>
            HeaderFindings(p)[i].kind == MissingSecurityHeader && HeaderFindings(p)[i].severity == Medium)
  {
    if p.Responded? {
      MissingHeaderFindingsAreAbsentHeaders(SecurityHeaders, p.headerNames);
    }
  }

  /** On a response, the message of each of the four headers is among the
      descriptions exactly when the response lacks that header. */
  lemma HeaderReportedIffMissing(names: seq<string>)
    ensures forall j :: 0 <= j < |SecurityHeaders| ==>
      ((SecurityHeaders[j].message in Descriptions(HeaderFindings(Responded(names))))
       <==> !HasHeader(names, SecurityHeaders[j].header))
  {
    forall j | 0 <= j < |SecurityHeaders|
      ensures (SecurityHeaders[j].message in Descriptions(HeaderFindings(Responded(names))))
              <==> !HasHeader(names, SecurityHeaders[j].header)
    {
      MissingMessageIffAbsent(names, SecurityHeaders[j]);
    }
  }

  /** A response carrying all four headers gives no finding; one carrying
      none of them gives the four messages in table order. */
  lemma HeaderExtremes(names: seq<string>)
    ensures (forall j :: 0 <= j < |SecurityHeaders| ==> HasHeader(names, SecurityHeaders[j].header)) ==>
      HeaderFindings(Responded(names)) == []
    ensures (forall j :: 0 <= j < |SecurityHeaders| ==> !HasHeader(names, SecurityHeaders[j].header)) ==>
      Descriptions(HeaderFindings(Responded(names))) ==
        ["Missing HSTS header", "Missing X-Content-Type-Options header",
         "Missing X-Frame-Options header", "Missing Content Security Policy"]
  {
    MissingHeaderFindingsAreAbsentHeaders(SecurityHeaders, names);
    AbsentExtremes(SecurityHeaders, names);
  }

  /** A response without any header lacks all four. */
  lemma NoHeadersAllMissing()
    ensures |HeaderFindings(Responded([]))| == 4
  {
    HeaderExtremes([]);
  }

  // ---------------------------------------------------------------- ports

  /** One probe of a port: `connect_ex`'s result code (0 on success), or an
      exception raised while creating the socket, setting its timeout or
      connecting. A `close` that raises after a successful connect keeps the
      finding already appended, so that case is `ConnectResult(0)`. */
  datatype ConnectOutcome = ConnectResult(code: int) | ConnectRaised

  const CommonPorts: seq<int> := [80, 443, 8080, 8443]

  function PortDescription(port: int): string {
    "Port " + IntToDecimal(port) + " is open"
  }

  predicate IsOpen(host: string, port: int, tcpConnect: (string, int) -> ConnectOutcome) {
    tcpConnect(host, port) == ConnectResult(0)
  }

  /** The findings of the loop over `ports` in `check_open_ports`. */
  function PortFindings(host: string, ports: seq<int>, tcpConnect: (string, int) -> ConnectOutcome): (r: seq<Finding>)
    ensures |r| <= |ports|
  {
    if ports == [] then []
    else
      var p := ports[|ports| - 1];
      PortFindings(host, ports[..|ports| - 1], tcpConnect)
      + (if IsOpen(host, p, tcpConnect) then [MakeFinding(OpenPort, PortDescription(p))] else [])
  }

  /** The ports that accepted the connection, in list order. */
  function OpenPorts(host: string, ports: seq<int>, tcpConnect: (string, int) -> ConnectOutcome): seq<int> {
    if ports == [] then []
    else if IsOpen(host, ports[0], tcpConnect) then [ports[0]] + OpenPorts(host, ports[1..], tcpConnect)
    else OpenPorts(host, ports[1..], tcpConnect)
  }

  lemma {:induction false} OpenPortsSnoc(host: string, ports: seq<int>, tcpConnect: (string, int) -> ConnectOutcome)
    requires ports != []
    ensures OpenPorts(host, ports, tcpConnect) == OpenPorts(host, ports[..|ports| - 1], tcpConnect)
      + (if IsOpen(host, ports[|ports| - 1], tcpConnect) then [ports[|ports| - 1]] else [])
    decreases |ports|
  {
    if |ports| > 1 {
      assert ports[1..][..|ports[1..]| - 1] == ports[..|ports| - 1][1..];
      OpenPortsSnoc(host, ports[1..], tcpConnect);
    }
  }

  lemma {:induction false} OpenPortsMembership(host: string, ports: seq<int>, tcpConnect: (string, int) -> ConnectOutcome, p: int)
    ensures p in OpenPorts(host, ports, tcpConnect) <==> p in ports && IsOpen(host, p, tcpConnect)
    decreases |ports|
  {
    if ports != [] {
      OpenPortsMembership(host, ports[1..], tcpConnect, p);
      assert ports == [ports[0]] + ports[1..];
    }
  }

  /** `check_open_ports`: one LOW `open_port` finding "Port p is open" per port
      whose connect result is 0, in list order; failed and raising ports add
      nothing and do not stop the loop. */
  lemma {:induction false} PortFindingsSpec(host: string, ports: seq<int>, tcpConnect: (string, int) -> ConnectOutcome)
    ensures var r := PortFindings(host, ports, tcpConnect);
      var open := OpenPorts(host, ports, tcpConnect);
      && |r| == |open| <= |ports|
      && forall i :: 0 <= i < |r| ==> r[i] == Finding(OpenPort, Low, PortDescription(open[i]))
    decreases |ports|
  {
    if ports != [] {
      PortFindingsSpec(host, ports[..|ports| - 1], tcpConnect);
      OpenPortsSnoc(host, ports, tcpConnect);
    }
  }

  /** The port number can be read back from an `open_port` description. */
  lemma PortDescriptionRoundTrip(port: int)
    ensures var d := PortDescription(port);
      |d| > 13 && ParseInt(d[5..|d| - 8]) == port
  {
    var d := PortDescription(port);
    assert d[5..|d| - 8] == IntToDecimal(port);
    IntRoundTrip(port);
  }

  /** When among the default ports only 443 accepts, the probe reports
      exactly that port. */
  lemma OnlyHttpsPortOpen(host: string, tcpConnect: (string, int) -> ConnectOutcome)
    requires forall p :: IsOpen(host, p, tcpConnect) <==> p == 443
    ensures PortFindings(host, CommonPorts, tcpConnect) == [Finding(OpenPort, Low, "Port 443 is open")]
  {
    PortFindingsSpec(host, CommonPorts, tcpConnect);
    assert OpenPorts(host, CommonPorts, tcpConnect) == [443] by {
      assert CommonPorts[1..] == [443, 8080, 8443];
      assert CommonPorts[1..][1..] == [8080, 8443];
      assert CommonPorts[1..][1..][1..] == [8443];
      assert CommonPorts[1..][1..][1..][1..] == [];
      assert OpenPorts(host, [8443], tcpConnect) == [];
      assert OpenPorts(host, [8080, 8443], tcpConnect) == [];
      assert OpenPorts(host, [443, 8080, 8443], tcpConnect) == [443];
    }
    assert IntToDecimal(443) == "443" by {
      assert NatToDecimal(4) == "4";
      assert NatToDecimal(44) == "44";
    }
    var r := PortFindings(host, CommonPorts, tcpConnect);
    assert |r| == 1 && r[0] == Finding(OpenPort, Low, PortDescription(443));
    assert PortDescription(443) == "Port 443 is open";
  }

  // ---------------------------------------------------------------- paths

  /** The GET of one candidate path without following redirects: the status
      code of the response, or a `RequestException`. */
  datatype PathProbe = Status(code: int) | PathFailed

  const CommonPaths: seq<string> := ["/robots.txt", "/.git/", "/.env", "/backup/", "/phpinfo.php"]

  const DisclosurePrefix: string := "Potentially sensitive file/directory found: "

  /** The findings of the loop over `paths` in `check_information_disclosure`. */
  function DisclosureFindings(paths: seq<string>, fetchPath: string -> PathProbe): (r: seq<Finding>)
    ensures |r| <= |paths|
  {
    if paths == [] then []
    else
      var p := paths[|paths| - 1];
      DisclosureFindings(paths[..|paths| - 1], fetchPath)
      + (if fetchPath(p) == Status(200) then [MakeFinding(InformationDisclosure, DisclosurePrefix + p)] else [])
  }

  /** The paths that answered exactly 200, in list order. */
  function ExposedPaths(paths: seq<string>, fetchPath: string -> PathProbe): seq<string> {
    if paths == [] then []
    else if fetchPath(paths[0]) == Status(200) then [paths[0]] + ExposedPaths(paths[1..], fetchPath)
    else ExposedPaths(paths[1..], fetchPath)
  }

  lemma {:induction false} ExposedPathsSnoc(paths: seq<string>, fetchPath: string -> PathProbe)
    requires paths != []
    ensures ExposedPaths(paths, fetchPath) == ExposedPaths(paths[..|paths| - 1], fetchPath)
      + (if fetchPath(paths[|paths| - 1]) == Status(200) then [paths[|paths| - 1]] else [])
    decreases |paths|
  {
    if |paths| > 1 {
      assert paths[1..][..|paths[1..]| - 1] == paths[..|paths| - 1][1..];
      ExposedPathsSnoc(paths[1..], fetchPath);
    }
  }

  lemma {:induction false} ExposedPathsMembership(paths: seq<string>, fetchPath: string -> PathProbe, p: string)
    ensures p in ExposedPaths(paths, fetchPath) <==> p in paths && fetchPath(p) == Status(200)
    decreases |paths|
  {
    if paths != [] {
      ExposedPathsMembership(paths[1..], fetchPath, p);
      assert paths == [paths[0]] + paths[1..];
    }
  }

  /** `check_information_disclosure`: one MEDIUM `information_disclosure`
      finding naming the path per path answering exactly 200, in list order;
      a path is named iff it answered 200, so a redirect, a 404 or a failed
      request names nothing. */
  lemma {:induction false} DisclosureFindingsSpec(paths: seq<string>, fetchPath: string -> PathProbe)
    ensures var r := DisclosureFindings(paths, fetchPath);
      var exposed := ExposedPaths(paths, fetchPath);
      && |r| == |exposed| <= |paths|
      && (forall i :: 0 <= i < |r| ==> r[i] == Finding(InformationDisclosure, Medium, DisclosurePrefix + exposed[i]))
      && (forall p :: DisclosurePrefix + p in Descriptions(r) <==> p in paths && fetchPath(p) == Status(200))
    decreases |paths|
  {
    var r := DisclosureFindings(paths, fetchPath);
    var exposed := ExposedPaths(paths, fetchPath);
    if paths != [] {
      DisclosureFindingsSpec(paths[..|paths| - 1], fetchPath);
      ExposedPathsSnoc(paths, fetchPath);
    }
    assert |r| == |exposed| && forall i :: 0 <= i < |r| ==> r[i] == Finding(InformationDisclosure, Medium, DisclosurePrefix + exposed[i]);
    forall p
      ensures DisclosurePrefix + p in Descriptions(r) <==> p in paths && fetchPath(p) == Status(200)
    {
      ExposedPathsMembership(paths, fetchPath, p);
      if DisclosurePrefix + p in Descriptions(r) {
        var i :| 0 <= i < |r| && Descriptions(r)[i] == DisclosurePrefix + p;
        assert DisclosurePrefix + exposed[i] == DisclosurePrefix + p;
        assert exposed[i] == (DisclosurePrefix + p)[|DisclosurePrefix|..] == p;
      }
      if p in exposed {
        var i :| 0 <= i < |exposed| && exposed[i] == p;
        assert Descriptions(r)[i] == DisclosurePrefix + p;
      }
    }
  }
}
