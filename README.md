# Web application security scanner — a Dafny model

This project models the deterministic core of a small Python security scanner.

`SecurityScanner` (security_scanner.py) takes a target URL and runs four checks:
- the TLS configuration;
- the presence of four security headers;
- four common TCP ports;
- five commonly exposed paths.

Each check appends findings to a list. Each finding has a type, a severity and a description. The scanner then builds a report of the findings with a summary of their counts by severity. The command-line entry point puts `https://` in front of a target typed without a scheme. A second script (scanner.py) renders a plain-text vulnerability report from a port list, a TLS result and a software result.

Every network interaction is a parameter of the model. The `Network` value carries one function per kind of call: the TLS handshake, the GET of the target, the TCP connect and the GET of a candidate path. Each function returns exactly what the Python code can observe of that call.

Modules:
- `Text`: Python's `str.replace(pat, '')` as a greedy left-to-right removal. Also `split(c)[0]`, and decimal rendering of integers with its parser.
- `Findings`: finding types, severities, the severity table, counting and the report summary.
- `Target`: the two hostname derivations and the scheme normalisation.
- `Probes`: what each check appends, as a function of its probe outcomes, with reference definitions and the lemmas that connect them.
- `Scanner`: the `SecurityScanner` class. Its check methods append in place, with loops over the header table, the ports and the paths. It also holds `run_scan`, the command-line flow, and the ordering and summary properties of a whole scan.
- `TextReport`: scanner.py's `generate_report`, as a method that appends piece by piece, proved equal to a specification function. Layout, port-line round-trip and line-count lemmas are proved about that function.

## Model

| member | source | states |
|---|---|---|
| Text.RemoveAll | security_scanner.py:24 | `str.replace(pat, '')` never lengthens the string |
| Text.RemoveAllLeading | security_scanner.py:24 | removing a pattern from pattern + t removes the leading occurrence and continues on t |
| Text.RemoveAllSkips | security_scanner.py:85 | when no occurrence starts inside h, removal from h + t keeps h and removes only in t |
| Text.RemoveAllNoOccurrence | security_scanner.py:85 | a string with no occurrence of the pattern is unchanged by the removal |
| Text.Before | security_scanner.py:24 | `split(c)[0]` is a prefix free of c, followed in the input by c unless it is the whole input |
| Text.BeforeUnique | security_scanner.py:24 | any c-free prefix followed by c or by nothing is `split(c)[0]` |
| Text.BeforeSeparator | security_scanner.py:85 | `split(c)[0]` of h + c + t, and of a c-free h, is h |
| Text.NatToDecimal | scanner.py:47 | `str` of a natural number is a non-empty digit string without a leading zero |
| Text.IntToDecimal | security_scanner.py:96 | `str` of an integer is non-empty and holds no ',', ' ' or line break |
| Text.DecimalRoundTrip | scanner.py:47 | reading the decimal digits of n back gives n |
| Text.IntRoundTrip | scanner.py:47 | parsing `str(i)` gives i, negative integers included |
| Text.NewlineCountConcat | scanner.py:43-66 | the line breaks of a concatenation are those of its parts |
| Text.NewlineCountNone | scanner.py:55 | a text without '\n' has no line breaks |
| Findings.NamesDistinct | security_scanner.py:33-121 | the JSON `type` and `severity` labels are distinct for distinct types and severities |
| Findings.MakeFinding | security_scanner.py:33-121 | a finding built by the checks carries the severity of its type in the table and a non-empty description |
| Findings.AllWellFormedConcat | security_scanner.py:141-148 | appending well-formed findings to well-formed findings keeps every finding well-formed |
| Findings.CountSeverity | security_scanner.py:134-136 | a severity count is at most the number of findings |
| Findings.CountKind | security_scanner.py:33-121 | a type count is at most the number of findings |
| Findings.CountSeverityIsMultiplicity | security_scanner.py:134-136 | the list-comprehension count equals the multiplicity of the severity among the findings' severities |
| Findings.CountSeverityConcat | security_scanner.py:134-136 | the severity count of a concatenation is the sum of the counts |
| Findings.CountKindConcat | security_scanner.py:33-121 | the type count of a concatenation is the sum of the counts |
| Findings.SeverityCountsPartition | security_scanner.py:133-136 | the HIGH, MEDIUM, LOW and INFO counts add up to the number of findings |
| Findings.SeverityCountsByKind | security_scanner.py:33-121 | in well-formed findings, HIGH counts expired certificates and TLS errors; MEDIUM counts weak versions, missing headers and disclosures; LOW counts open ports; INFO counts request errors |
| Findings.Summarize | security_scanner.py:132-137 | total is the number of findings; HIGH + MEDIUM + LOW + INFO equals the total; all counts are 0 for no findings |
| Findings.SummarizeConcat | security_scanner.py:132-137 | the summary of a concatenation is the field-wise sum of the summaries |
| Findings.BuildReport | security_scanner.py:126-139 | the report carries the target, the time and the findings unchanged; its counts are the multiplicities of HIGH, MEDIUM and LOW |
| Target.TlsHost | security_scanner.py:24 | the TLS host holds no '/' and is the prefix of the URL, with every "https://" removed, that ends at the first '/' or at the end |
| Target.PortHost | security_scanner.py:85 | the port host holds no '/' and is the prefix of the URL, with both schemes removed, that ends at the first '/' or at the end |
| Target.Normalize | security_scanner.py:161-163 | the result has a scheme; a target with a scheme is unchanged; any other target gets "https://" in front |
| Target.NormalizeIdempotent | security_scanner.py:161-163 | normalising twice equals normalising once |
| Target.NoSchemeInside | security_scanner.py:24 | no scheme starts inside a plain host followed by nothing or by a path |
| Target.RemoveSchemeAfterHost | security_scanner.py:85 | removing a scheme from host + path keeps the plain host in front |
| Target.RemoveSchemeKeepsHost | security_scanner.py:85 | removing a scheme from host + "/" + p keeps host + "/"; a plain host is unchanged |
| Target.HostsOfHttpsUrl | security_scanner.py:24 | for "https://" + plain host, with or without a path, both probes get that host |
| Target.PortHostOfHttpUrl | security_scanner.py:85 | for "http://" + plain host, with or without a path, the port probe gets that host |
| Target.NoHttpsInHttp | security_scanner.py:85 | "https://" never starts inside "http://", so removing it keeps an "http://" prefix |
| Target.TlsHostOfHttpUrl | security_scanner.py:24 | for any "http://" URL the TLS probe's host is the literal "http:" |
| Target.NormalizedPlainHost | security_scanner.py:161-163 | a bare plain host gets "https://" and then reaches both probes unchanged |
| Probes.TlsErrorFinding | security_scanner.py:48-53 | the error finding is a well-formed `ssl_error` |
| Probes.TlsFindingsSpec | security_scanner.py:21-53 | handshake failure or unparsable date gives exactly one HIGH `ssl_error` with "SSL/TLS connection error: " + message; a session gives `ssl_expired` iff notAfter < now and `weak_ssl_version` iff TLSv1 or TLSv1.1, never `ssl_error`, at most 2, expired first |
| Probes.HasHeaderIgnoresCase | security_scanner.py:69 | the header lookup ignores case: names that differ only in case are both present or both absent, and the lower-case name stands for them |
| Probes.MissingHeaderFinding | security_scanner.py:70-74 | a missing header gives a well-formed MEDIUM `missing_security_header` finding with that header's message |
| Probes.MissingHeaderFindings | security_scanner.py:68-74 | the loop over the table gives at most one well-formed finding per table entry |
| Probes.AbsentSnoc | security_scanner.py:68-69 | the reference list of absent headers extends entry by entry from the back |
| Probes.MissingHeaderFindingsAreAbsentHeaders | security_scanner.py:68-74 | the findings are exactly one per absent header, in table order, each carrying that header's message |
| Probes.AbsentExtremes | security_scanner.py:68-69 | no table header present gives the whole table; all present gives none |
| Probes.AbsentMembership | security_scanner.py:68-69 | an entry is absent iff it is in the table and the response lacks its header |
| Probes.HeaderMessagesDistinct | security_scanner.py:61-66 | the four messages identify their headers |
| Probes.MissingMessageIffAbsent | security_scanner.py:68-74 | a header's message is reported iff the response lacks that header |
| Probes.HeaderFindingsSpec | security_scanner.py:55-81 | a request error gives exactly one INFO `request_error` with "Error checking security headers: " + message; a response gives at most 4 findings, all MEDIUM `missing_security_header` |
| Probes.HeaderReportedIffMissing | security_scanner.py:61-74 | for each of the four headers, its message is reported iff the response lacks the header |
| Probes.HeaderExtremes | security_scanner.py:61-74 | all four headers present gives no finding; none present gives the four messages in table order |
| Probes.NoHeadersAllMissing | security_scanner.py:61-74 | a response without headers gives exactly 4 findings |
| Probes.PortFindings | security_scanner.py:87-100 | the port loop gives at most one finding per port |
| Probes.OpenPortsSnoc | security_scanner.py:87-92 | the reference list of open ports extends port by port from the back |
| Probes.OpenPortsMembership | security_scanner.py:87-92 | a port is listed as open iff it is in the list and its connect returned 0 |
| Probes.PortFindingsSpec | security_scanner.py:83-100 | the findings are one LOW `open_port` "Port p is open" per port whose connect returned 0, in list order; failures and exceptions add nothing |
| Probes.PortDescriptionRoundTrip | security_scanner.py:96 | the port number reads back from "Port p is open" |
| Probes.OnlyHttpsPortOpen | security_scanner.py:83-100 | when only 443 accepts, the default ports give exactly the finding "Port 443 is open" |
| Probes.DisclosureFindings | security_scanner.py:112-124 | the path loop gives at most one finding per path |
| Probes.ExposedPathsSnoc | security_scanner.py:112-117 | the reference list of exposed paths extends path by path from the back |
| Probes.ExposedPathsMembership | security_scanner.py:112-117 | a path is exposed iff it is in the list and answered exactly 200 |
| Probes.DisclosureFindingsSpec | security_scanner.py:102-124 | the findings are one MEDIUM `information_disclosure` naming the path per path that answered exactly 200, in list order; a path is named iff it answered 200 |
| Scanner.SecurityScanner.constructor | security_scanner.py:13-19 | a new scanner has the target URL, no findings and the User-Agent header |
| Scanner.SecurityScanner.CheckSslTls | security_scanner.py:21-53 | appends the TLS findings for the host of line 24; earlier findings are unchanged and every finding stays well-formed |
| Scanner.SecurityScanner.CheckSecurityHeaders | security_scanner.py:55-81 | appends the header findings for the target URL, keeping earlier findings and well-formedness |
| Scanner.SecurityScanner.CheckOpenPorts | security_scanner.py:83-100 | appends the port findings for the host of line 85 and the given ports, keeping earlier findings and well-formedness |
| Scanner.SecurityScanner.CheckInformationDisclosure | security_scanner.py:102-124 | appends the disclosure findings for the five paths, keeping earlier findings and well-formedness |
| Scanner.SecurityScanner.GenerateReport | security_scanner.py:126-139 | the report holds the target, the scan time and the findings list as it is, with the summary of BuildReport (per-severity multiplicities); total is its length; HIGH + MEDIUM + LOW is at most the total |
| Scanner.SecurityScanner.RunScan | security_scanner.py:141-150 | the findings grow by TLS ++ headers ++ ports ++ disclosure; the report is built from the new findings |
| Scanner.ScanFromPrompt | security_scanner.py:161-163 | the report of a fresh scan of the normalised target holds exactly that scan's well-formed findings and their summary |
| Scanner.PortFindingsFromPortCheck | security_scanner.py:93-97 | every port finding is an `open_port`, well-formed |
| Scanner.DisclosureFindingsFromPathCheck | security_scanner.py:118-122 | every disclosure finding is an `information_disclosure`, well-formed |
| Scanner.ScanFindingsWellFormedAndOrdered | security_scanner.py:145-148 | a scan's findings are well-formed and grouped by check in the order TLS, headers, ports, paths |
| Scanner.CountSeverityUniform | security_scanner.py:134-136 | findings of one severity count fully for it and zero for every other |
| Scanner.TlsSummary | security_scanner.py:21-53 | the TLS check contributes at most one HIGH, at most one MEDIUM, no LOW, at most 2 findings |
| Scanner.HeaderSummary | security_scanner.py:55-81 | the header check contributes no HIGH or LOW, at most 4 MEDIUM, at most 4 findings |
| Scanner.PortSummary | security_scanner.py:83-100 | the port check contributes only LOW findings, one per open port among the four, at most 4 |
| Scanner.DisclosureSummary | security_scanner.py:102-124 | the path check contributes only MEDIUM findings, at most 5 |
| Scanner.ScanSummaryBounds | security_scanner.py:126-150 | a scan has at most one HIGH, LOW equal to the number of open default ports, at most 10 MEDIUM and at most 15 findings |
| TextReport.JoinPorts | scanner.py:47 | the joined list is empty iff the port list is, and holds no line break |
| TextReport.ParsePortsStep | scanner.py:47 | reading one port and ", " off the joined text |
| TextReport.PortsRoundTrip | scanner.py:47 | the ", "-joined port list reads back as the port list |
| TextReport.AppendEntries | scanner.py:54-55 | the item loop appends one "  key: value" line per item in iteration order |
| TextReport.GenerateReport | scanner.py:42-66 | the string built step by step is the report text: banner, then the three sections in order; defined for every input |
| TextReport.AppendEntryLines | scanner.py:54-55 | each item's line extends the lines of the items before it |
| TextReport.SoftwareSectionEnd | scanner.py:59-64 | the software section is empty or ends with '\n' |
| TextReport.ReportFrame | scanner.py:43-66 | the report starts with "--- Vulnerability Report for {target} ---\n\n" and ends with '\n' |
| TextReport.HeadingsInOrder | scanner.py:45-59 | the three section headings occur after the banner, in the order 1, 2, 3 |
| TextReport.PortSectionSpec | scanner.py:45-49 | no ports gives the fixed no-ports line; otherwise "Open ports: " then a list that reads back as the ports, then '\n' |
| TextReport.EntryLinesConcat | scanner.py:54-55 | the lines of concatenated items are the concatenated lines |
| TextReport.EntryLineBreaks | scanner.py:55 | an item whose key and value hold no line break renders as exactly one line |
| TextReport.EntryLinesCount | scanner.py:54-55 | a mapping renders as exactly one line per item |
| TextReport.EntryLineAt | scanner.py:54-55 | the n-th item's line sits between the lines of the items before and after it |
| TextReport.OneLine | scanner.py:47-64 | a text without line breaks followed by '\n' is one line |
| TextReport.SectionCounts | scanner.py:51-64 | the TLS section has one line per item plus the heading line, or one status line; the software section has one line per item, or one status line |
| TextReport.BannerCount | scanner.py:43 | the banner ends in two line breaks |
| TextReport.SpacedHeadingCount | scanner.py:51 | a heading after a blank line has two line breaks |
| TextReport.PortSectionCount | scanner.py:46-49 | the port section is exactly one line |
| TextReport.ReportLineCount | scanner.py:42-66 | when no input text holds a line break, the report has 8 line breaks plus one per line of the TLS and software sections |

## Left out

- Network I/O is not modelled. `socket.create_connection`, TLS wrapping, `getpeercert`, `version()`, `requests.get`, `connect_ex` and socket timeouts become the functions of `Network`. Each returns the outcome the code can observe.
- `datetime.strptime` and `datetime.now()` are not modelled. Expiry is the comparison of two integers. A date that does not parse becomes `Unparsable`, which gives the single `ssl_error` finding, as the exception does. The local-time against GMT offset of line 31-32 is not modelled.
- `urljoin` (security_scanner.py:114) is not modelled. The answer to each path request is keyed by the path alone.
- Probes.HasHeader: header presence in `requests`' case-insensitive mapping is modelled with ASCII lower-casing only. Unicode case folding is not modelled.
- `json.dumps` layout, indentation and the ISO timestamp of `generate_report` are not modelled. The report is a record, and the scan time is a parameter.
- The `print` calls in `run_scan` and `main` are not modelled.
- `main`'s input loop, `strip()`, the connectivity pre-check, the unused hostname and timestamp (lines 173-174) and the file write are not modelled.
- A `sock.close()` that raises after a successful connect keeps the finding already appended; the model gives that port the outcome `ConnectResult(0)`. An exception while creating the socket, setting its timeout or connecting adds nothing for that port (`ConnectRaised`).
- `check_security_headers` and `check_information_disclosure` catch only `RequestException`. Any other exception would end the scan; the model has no such outcome.
- Probes.PortFindings: the connect outcome is a function of host and port, so a port listed twice gets the same outcome both times.
- The list of weak protocol versions follows the code: only "TLSv1" and "TLSv1.1". A plaintext-fallback case described elsewhere is not checked by the code, so the model omits it too.
- TextReport.Entry: dict values are taken as already rendered by `str`. Python's `str` of arbitrary values is not modelled.
- The nmap, ssl and requests probes of scanner.py, its `__main__` block, app.py (the Flask front end) and the browser scripts are not part of this model.
