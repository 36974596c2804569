# PenDoc core in Dafny

PenDoc documents penetration tests. It reads target lists:
- plain URL lists;
- subdomain lists (plain, CSV or JSON);
- Nmap XML scans.

It puts the targets together without duplicate URLs, then screenshots every target with a headless browser. Each capture is retried a bounded number of times, runs in batches of `concurrent_workers`, and writes a progress file after every batch so an interrupted run can resume. Each successful result is enriched with:
- technologies from the response headers;
- findings from a signature table of CMSs and frameworks;
- chosen header values.

The results are then grouped by domain with statistics for the HTML report. PenDoc also sorts the results into HTTPS/HTTP sites and CMS families and writes command files for downstream scanners (testssl, nikto, wpscan, joomscan, droopescan, SharePoint enumeration, nuclei), plus target lists and a master script.

This project models that flow in Dafny.
- One module per source file: `UrlParser`, `SubdomainParser`, `NmapParser`, `PortChecker`, `Screenshot`, `TechFingerprinter`, `Enrichment`, `ReportBuilder`, `CommandGenerator` and `PenDoc`.
- Three support modules:
  - `Text`: the Python string operations the code relies on (`lower`, `title`, `strip`, `split`, `splitlines`, `int`, `sorted(set(..))`);
  - `Urls`: the part of `urllib.parse.urlparse` the code relies on;
  - `Records`, `Counters`: the target and result dictionaries as datatypes, and `{key: count}` dictionaries as counters in insertion order.
- Result dictionaries the source mutates in place are modelled as values. Each step returns the new record, and its contract states how the new record relates to the old one.
- Loops are methods with invariants, proved against specification functions. The lemmas state what the source promises about those functions.

The outside world enters as parameters:
- The browser is an oracle. Per target, a `TaskPlan` says whether its capture task raised out of `_capture_target` or, if not, what each attempt does: which step raised, with a timeout or another error, and what the response carried.
- The progress file is a value. Its writes come back as a trace, and a resume gets the loaded records as an input.
- The completion order of the port probes, the TCP connect outcomes and the SSL lookup are inputs.
- The parsers take file contents (URL, subdomain and CSV lists) or decoded documents (JSON items, Nmap hosts).

## Model

| member | source | states |
|---|---|---|
| UrlParser.Parse | lib/input_parsers/url_parser.py:15-86 | The targets are the lines' outcomes collected in order. If any line aborts (a missing `default_protocol`), the whole parse yields the empty list. |
| UrlParser.Outcomes | lib/input_parsers/url_parser.py:45-76 | There is one outcome per line, and the outcome for line `i` uses line number `i + 1`. |
| UrlParser.LineEmits | lib/input_parsers/url_parser.py:53-73 | An emitted target records the source file and the line number. Its URL is the stripped line, or the line prefixed with the default protocol. Its domain is the URL's network location. |
| UrlParser.IgnoredSkipped | lib/input_parsers/url_parser.py:49-50 | Blank lines and `#` comments produce nothing. |
| UrlParser.BareHostLine | lib/input_parsers/url_parser.py:53-64 | A bare host line becomes `protocol://host`, with the host as its domain. |
| UrlParser.LineNumbered | lib/input_parsers/url_parser.py:66-73 | An emitted target carries the number of its line. |
| UrlParser.AbortSticks | lib/input_parsers/url_parser.py:74-86 | Once a line aborts, the whole list is lost, whatever follows. |
| UrlParser.CollectEmitted | lib/input_parsers/url_parser.py:45-76 | Each collected target was emitted by some line, and the targets keep line order. |
| UrlParser.CollectComplete | lib/input_parsers/url_parser.py:66-73 | When the parse does not abort, every emitted target is in the result. |
| UrlParser.CollectAborts | lib/input_parsers/url_parser.py:74-76 | A lost list means some line aborted. |
| UrlParser.CollectOrdered | lib/input_parsers/url_parser.py:66-73 | The targets' line numbers strictly increase. |
| UrlParser.ScanTargets | lib/input_parsers/url_parser.py:45-76 | Each parsed target comes from its own line and satisfies that line's emission rule. |
| UrlParser.EmittedAt | lib/input_parsers/url_parser.py:66-73 | The target emitted at position `i` has line number `i + 1`. |
| UrlParser.ScanComplete | lib/input_parsers/url_parser.py:66-73 | Every line that emits contributes its target to the result. |
| UrlParser.ScanOrdered | lib/input_parsers/url_parser.py:45-76 | The parsed targets appear in strictly increasing line order. |
| UrlParser.ScanAborts | lib/input_parsers/url_parser.py:74-86 | An empty result from abortion happens only without a default protocol and with a scheme-less, non-comment line. |
| Urls.FindFrom | lib/input_parsers/url_parser.py:60-64 | Gives the first index at or after `from` that satisfies the predicate. |
| Urls.LastIndexOf | lib/input_parsers/url_parser.py:60-64 | Gives the last occurrence of a character, or none when there is none. |
| Urls.ParseSchemeHost | lib/input_parsers/url_parser.py:60-64 | `urlparse("scheme://host...")` has the lower-cased scheme and the host as its network location. |
| Urls.SplitSchemeAt | lib/input_parsers/url_parser.py:60-64 | A valid scheme before `:` is split off, lower-cased. |
| Urls.NetlocAfterSlashes | lib/input_parsers/url_parser.py:60-64 | The network location runs from `//` to the first `/`, `?` or `#`. |
| Urls.ParseWithNetloc | lib/screenshot.py:303-307 | With no bracket in the network location, `urlparse` succeeds with the known scheme and network location. |
| Urls.FindFromIs | lib/input_parsers/url_parser.py:60-64 | The first index satisfying the predicate is unique. |
| Urls.IndexOfFirst | lib/input_parsers/url_parser.py:60-64 | The first occurrence of a character is found at its index. |
| SubdomainParser.DetectFormat | lib/input_parsers/subdomain_parser.py:37-42 | The format is JSON exactly when the stripped content starts with `[` or `{`. It is CSV exactly when it is not JSON and contains a comma. Otherwise it is plain. |
| SubdomainParser.Parse | lib/input_parsers/subdomain_parser.py:15-52 | A missing `default_protocol` yields nothing. Line formats give the per-line targets in line order. JSON gives its item targets, or nothing on a type error. |
| SubdomainParser.ParseLines | lib/input_parsers/subdomain_parser.py:54-113 | The line loop returns exactly the per-line targets, in line order. |
| SubdomainParser.ParseJson | lib/input_parsers/subdomain_parser.py:115-152 | A list of items gives the item targets, and a non-list document gives none. |
| SubdomainParser.JsonAbortSticks | lib/input_parsers/subdomain_parser.py:115-152 | Once an item raises, the whole JSON parse is lost. |
| SubdomainParser.JsonTypeErrorAborts | lib/input_parsers/subdomain_parser.py:138-150 | An object item whose `domain` is not a string raises `TypeError` in the domain check. That is not a JSON decoding error, so the JSON parse yields nothing. |
| SubdomainParser.JsonTargetsFacts | lib/input_parsers/subdomain_parser.py:115-152 | Every JSON target has a valid domain and the URL `protocol://domain`. Its source is `subdomain_json`, with the file and the scheme, and it has no line number. |
| SubdomainParser.RemoveWebScheme | lib/input_parsers/subdomain_parser.py:67-69 | Removes a leading `http://` or `https://` and leaves any other text unchanged. |
| SubdomainParser.LineTargetShape | lib/input_parsers/subdomain_parser.py:54-113 | A line target is a valid domain with the URL `protocol://domain`, the format's source name, the file, and the line number. |
| SubdomainParser.LineTargetsFacts | lib/input_parsers/subdomain_parser.py:54-113 | Each line-format target comes from its own line, and the targets keep line order. |
| SubdomainParser.LineTargetsComplete | lib/input_parsers/subdomain_parser.py:54-113 | Every line that yields a target contributes it. |
| SubdomainParser.SkippedLine | lib/input_parsers/subdomain_parser.py:62-64 | Blank lines and `#` lines yield nothing. |
| SubdomainParser.SimpleCandidateCuts | lib/input_parsers/subdomain_parser.py:67-69 | A plain line of a host with a scheme, a path or a port gives back just the host. |
| SubdomainParser.CsvPortRejected | lib/input_parsers/subdomain_parser.py:95-100 | A CSV first field that still has a `:` after the scheme is removed is rejected. |
| SubdomainParser.ValidDomainChars | lib/input_parsers/subdomain_parser.py:154-158 | A valid domain has at most 253 characters. It holds only letters, digits, hyphens and dots, except for one trailing newline that `$` admits. |
| SubdomainParser.PortOrPathInvalid | lib/input_parsers/subdomain_parser.py:154-158 | A domain with `:` or `/` is invalid. |
| SubdomainParser.SplitJoin | lib/input_parsers/subdomain_parser.py:95-96 | `split` on a leading field without the separator peels off that field. |
| SubdomainParser.SplitSingle | lib/input_parsers/subdomain_parser.py:95-96 | `split` of a text without the separator is that text alone. |
| SubdomainParser.SplitCovers | lib/input_parsers/subdomain_parser.py:95-96 | Every character that is not the separator ends up in some part. |
| SubdomainParser.DottedCons | lib/input_parsers/subdomain_parser.py:154-158 | A valid label, a dot and a dotted name form a dotted name. |
| SubdomainParser.DottedSingle | lib/input_parsers/subdomain_parser.py:154-158 | A single valid label is a dotted name. |
| SubdomainParser.DottedChars | lib/input_parsers/subdomain_parser.py:154-158 | A dotted name holds only label characters and dots. |
| NmapParser.Parse | lib/input_parsers/nmap_parser.py:15-104 | The targets are those of every host in order. A port id that `int()` rejects makes the result empty. |
| NmapParser.ScanPorts | lib/input_parsers/nmap_parser.py:48-91 | The port loop returns exactly the web targets of the open TCP ports with a service, or aborts. |
| NmapParser.PortsAbortSticks | lib/input_parsers/nmap_parser.py:72-104 | Once a port aborts, the host's port list is lost. |
| NmapParser.HostsAbortSticks | lib/input_parsers/nmap_parser.py:72-104 | Once a host aborts, the whole scan is lost. |
| NmapParser.PortTargetShape | lib/input_parsers/nmap_parser.py:48-91 | A target comes only from an open TCP port with a service and an integer port id that `_is_web_service` accepts. Its URL is `scheme://name:port`, where the name is the host's name or its address. The name is its domain, its source is `nmap_scan`, and the address and port are recorded. |
| NmapParser.PortsTargetsFrom | lib/input_parsers/nmap_parser.py:48-91 | Every target comes from one port of the host. |
| NmapParser.HostsTargetsFrom | lib/input_parsers/nmap_parser.py:15-104 | Every target comes from one port of one addressed host. |
| NmapParser.PortsTargetsComplete | lib/input_parsers/nmap_parser.py:48-91 | Every web port of the host contributes its target to a completed list. |
| NmapParser.HostsTargetsComplete | lib/input_parsers/nmap_parser.py:15-104 | Every web port of every addressed host contributes its target to a completed parse. |
| NmapParser.PortsTargetsAppend | lib/input_parsers/nmap_parser.py:48-91 | The ports of two lists give the first list's targets, then the second's, and nothing when either has a bad port id. |
| NmapParser.HostsTargetsAppend | lib/input_parsers/nmap_parser.py:30-104 | Two host lists give the first list's targets, then the second's, and nothing when either aborts. |
| NmapParser.PortsOrdered | lib/input_parsers/nmap_parser.py:48-91 | The targets of a host's first ports come before those of its later ports. |
| NmapParser.HostsOrdered | lib/input_parsers/nmap_parser.py:30-104 | A completed parse lists the earlier hosts' targets, then one host's, then the later hosts'. |
| NmapParser.UnaddressedSkipped | lib/input_parsers/nmap_parser.py:34-45 | A host without an IPv4 or IPv6 address contributes nothing. |
| NmapParser.BadPortEmpties | lib/input_parsers/nmap_parser.py:72 | An open TCP port with a service and a non-integer port id empties the whole result. |
| NmapParser.SslTunnelIsHttps | lib/input_parsers/nmap_parser.py:106-135 | An `ssl` tunnel always means an HTTPS web service. |
| NmapParser.HttpNames | lib/input_parsers/nmap_parser.py:106-135 | The `http`, `http-proxy` and `http-alt` services are web services. They are HTTPS exactly on an HTTPS port. |
| NmapParser.HttpsNames | lib/input_parsers/nmap_parser.py:106-135 | The `https`, `https-alt` and `ssl/http` services are HTTPS. |
| NmapParser.OtherNames | lib/input_parsers/nmap_parser.py:106-135 | Any other service is a web service only on a configured port: the HTTP ports first, then the HTTPS ports. |
| NmapParser.SchemeIsWeb | lib/input_parsers/nmap_parser.py:106-135 | The scheme is always `http` or `https`. |
| PortChecker.CommonWebPorts | lib/port_checker.py:12-23 | The default port table has ten ports, each listed once. |
| PortChecker.CommonWebPortsFacts | lib/port_checker.py:12-23 | Exactly 443, 8443 and 9443 are HTTPS in the default table. |
| PortChecker.CheckPort | lib/port_checker.py:37-56 | A port is open exactly when `connect_ex` returned 0. An exception means closed. |
| PortChecker.FindWebServices | lib/port_checker.py:58-97 | The services are the open ports in completion order, with the default table used when none is given. |
| PortChecker.DiscoveredFacts | lib/port_checker.py:58-97 | Every entry is built as the source builds it. A port is listed exactly when it is in the table and its probe succeeded, and no port is listed twice. |
| PortChecker.DiscoveredWellFormed | lib/port_checker.py:80-90 | Every entry has the table's protocol, the host, the port, and the URL `protocol://host:port`. |
| PortChecker.DiscoveredLists | lib/port_checker.py:58-97 | A port is listed exactly when a probed position holds it and its connect succeeded. |
| PortChecker.DiscoveredListsChecked | lib/port_checker.py:58-97 | A listed port was probed successfully. |
| PortChecker.DiscoveredListsOpen | lib/port_checker.py:58-97 | A successfully probed port is listed. |
| PortChecker.DiscoveredUnique | lib/port_checker.py:58-97 | With distinct table ports probed once each, no port is listed twice. |
| PortChecker.BareCharacterized | lib/port_checker.py:99-124 | A target is bare unless it has a web scheme, or has exactly one colon followed by an integer. |
| PortChecker.SchemeNotBare | lib/port_checker.py:110-111 | A URL with an `http://` or `https://` scheme is not bare. |
| PortChecker.HostPortNotBare | lib/port_checker.py:114-121 | `host:port` with an integer port is not bare. |
| PortChecker.NoColonBare | lib/port_checker.py:114-124 | A target without a colon and without a scheme is bare. |
| PortChecker.ManyColonsBare | lib/port_checker.py:114-124 | Two or more colons (an IPv6 address) make a scheme-less target bare. |
| PortChecker.BadPortBare | lib/port_checker.py:118-124 | One colon followed by text `int()` rejects leaves the target bare. |
| PortChecker.EmptyPortBare | lib/port_checker.py:118-124 | `host:` is bare. |
| PortChecker.SplitWithoutSeparator | lib/port_checker.py:116 | `split(':')` of colon-free text gives one part. |
| PortChecker.CountNone | lib/port_checker.py:114 | Text without a colon has a colon count of 0. |
| PortChecker.CountSome | lib/port_checker.py:114 | Text with a colon has a positive colon count. |
| PortChecker.SplitOneSeparator | lib/port_checker.py:116-117 | With exactly one colon, `split(':')` gives the text before and after it. |
| Screenshot.ShotStem | lib/screenshot.py:312-314 | The file stem is between 1 and 100 characters and has no `/`. It is `index` when the path is only slashes. Otherwise it is the stripped path with `/` turned into `_`, cut to 100 characters. |
| Screenshot.HostDir | lib/screenshot.py:307 | The host directory is the network location with every `:` replaced. |
| Screenshot.ShotFileShape | lib/screenshot.py:303-318 | The screenshot path is `dir/host/viewport/stem_timestamp.png`. |
| Screenshot.EnabledSet | lib/screenshot.py:250-268 | Gives the viewports whose capture flag is set. |
| Screenshot.CaptureTarget | lib/screenshot.py:201-299 | One target's capture equals the retry loop over its attempts, starting from a pending record with no screenshots. |
| Screenshot.RetryLoop | lib/screenshot.py:220-297 | The `while retries <= max_retries` loop returns the final record, the number of attempts and the number of sleeps of the retry function. |
| Screenshot.RetryIsRetryWith | lib/screenshot.py:220-297 | The capture retry is the generic retry over the target's attempts. |
| Screenshot.RaisedIndependent | lib/screenshot.py:224-290 | Whether and how an attempt raises depends only on the browser behaviour and the settings, not on the record. |
| Screenshot.ViewportRaisedIndependent | lib/screenshot.py:301-326 | The same holds for one viewport's capture. |
| Screenshot.CaptureRaisedIndependent | lib/screenshot.py:247-271 | The same holds for the steps after the title. |
| Screenshot.ViewportStepEffects | lib/screenshot.py:301-326 | A viewport step adds that viewport's screenshot path when it does not raise. It changes nothing else. |
| Screenshot.CaptureEffects | lib/screenshot.py:247-271 | The capture steps change only the screenshots and the status. They add at most the enabled viewports. |
| Screenshot.CaptureSucceeds | lib/screenshot.py:247-271 | When nothing raises, the status becomes success and exactly the enabled viewports are added. |
| Screenshot.AttemptEffects | lib/screenshot.py:224-297 | An attempt keeps the target, the timestamp and the error, and only adds screenshots of enabled viewports. An attempt that raises nothing sets success, the page title, every enabled screenshot, and the status code and headers of the response when there is one. |
| Screenshot.CaptureStatus | lib/screenshot.py:247-272 | The viewport steps change the status only to success, and a pass that then raises did so at `page.close()`. |
| Screenshot.AttemptFailureEffects | lib/screenshot.py:224-272 | What a failed attempt leaves, by stage: nothing when `new_page` or `goto` raised; only the status code when reading the headers raised; the response fields but no new title or screenshot when `title()` raised. A failed attempt changes the status only to success, and only when `page.close()` raised. |
| Screenshot.RetrySucceedsAt | lib/screenshot.py:223-290 | When attempt `j` is the first to succeed, the loop makes `j - k + 1` attempts and `j - k` sleeps. It ends successful with every enabled screenshot. |
| Screenshot.RetryStops | lib/screenshot.py:270-272 | A successful attempt ends the loop after one attempt with no sleep. |
| Screenshot.RetryGoesOn | lib/screenshot.py:274-290 | A failed attempt with retries left sleeps once and goes on. |
| Screenshot.RetryExhausted | lib/screenshot.py:274-290 | When every attempt fails, the loop makes them all and sleeps between them. It ends failed with the last error, `Timeout` for a timeout. |
| Screenshot.CaptureConcludes | lib/screenshot.py:220-299 | With `max_retries >= 0` a capture ends either successful or failed with an error, and keeps its target. |
| Screenshot.CaptureNeverRuns | lib/screenshot.py:220-223 | With `max_retries < 0` no attempt is made and the record stays pending. |
| Screenshot.FirstSuccess | lib/screenshot.py:223-272 | Finds the first successful attempt when one exists. |
| Screenshot.KeepsTarget | lib/screenshot.py:212-218 | The returned record carries its target. |
| Screenshot.RetryKeeps | lib/screenshot.py:220-297 | The retry loop never changes the record's target. |
| Screenshot.Outcomes | lib/screenshot.py:161-177 | There is one record per target. |
| Screenshot.OutcomesAt | lib/screenshot.py:163-177 | The `i`-th record is the outcome of the `i`-th task. A task that ran keeps its target. A task that raised becomes a failure record without URL. |
| Screenshot.OutcomesPrefix | lib/screenshot.py:161-177 | The records of a prefix of the targets are a prefix of the records. |
| Screenshot.CaptureOne | lib/screenshot.py:163-177 | `gather(..., return_exceptions=True)` turns a raised task into a `failed` record with the message as its error. |
| Screenshot.RunBatch | lib/screenshot.py:161-177 | One batch appends the outcomes of its targets, in order. |
| Screenshot.BatchLoop | lib/screenshot.py:154-199 | The batch loop returns the existing records followed by one per target. It writes the progress file once per batch with the records so far. |
| Screenshot.CaptureBatches | lib/screenshot.py:78-199 | `concurrent_workers` of 0 raises `ValueError`. A negative value runs no batch. A positive value gives the batch loop's records and writes. |
| Screenshot.BatchCountBounds | lib/screenshot.py:161 | The number of batches is the ceiling of targets over workers. |
| Screenshot.SavesCount | lib/screenshot.py:161-180 | There is one progress write per batch. |
| Screenshot.SavesExtend | lib/screenshot.py:172-180 | Every write extends the existing records and the outcomes before its batch. |
| Screenshot.SavesChain | lib/screenshot.py:179-180 | Each write extends the previous one. |
| Screenshot.SavesLast | lib/screenshot.py:179-180 | The last write holds every record. |
| Screenshot.CaptureAll | lib/screenshot.py:46-76 | Without resume, or with nothing loaded, every target is captured. With resume, a loaded record without URL raises `KeyError`. Otherwise the remaining targets are those whose URL is not done, and nothing remains means the loaded records come back unchanged. |
| Screenshot.Remaining | lib/screenshot.py:63-65 | A target remains exactly when its URL is not among the completed ones. |
| Screenshot.RemainingNone | lib/screenshot.py:67-69 | Nothing remains when every URL is done. |
| Screenshot.CrashedRunBlocksResume | lib/screenshot.py:63 | If a task raised, the progress file holds a record without URL, so resuming raises. |
| Screenshot.CompletedRunLeavesNothing | lib/screenshot.py:59-69 | Resuming after a run over the same targets in which no task raised captures nothing more. |
| TechFingerprinter.Signatures | lib/tech_fingerprinter.py:15-216 | The signature table has 29 entries. |
| TechFingerprinter.TableKeysDistinct | lib/tech_fingerprinter.py:15-216 | The table's name keys are pairwise distinct. |
| TechFingerprinter.TableKeysMatch | lib/tech_fingerprinter.py:15-216 | Each table entry's name has its listed key. |
| TechFingerprinter.SignatureNamesUnique | lib/tech_fingerprinter.py:15-216 | No two signatures share a name. |
| TechFingerprinter.Score | lib/tech_fingerprinter.py:236-261 | The confidence adds 30 per path hit, 40 per header hit and 20 per body hit. The reasons list those hits in that order. |
| TechFingerprinter.ScorePaths | lib/tech_fingerprinter.py:240-244 | Each matching path adds 30 and one `path:` reason. |
| TechFingerprinter.ScoreHeaders | lib/tech_fingerprinter.py:247-253 | Each matching header adds 40 and one `header:` reason. |
| TechFingerprinter.ScoreBody | lib/tech_fingerprinter.py:256-261 | Each body pattern found adds 20 and one reason. |
| TechFingerprinter.FingerprintFromResponse | lib/tech_fingerprinter.py:218-273 | Returns the detections of the signature table for the response. |
| TechFingerprinter.FingerprintWith | lib/tech_fingerprinter.py:233-273 | The loop over the signatures reports exactly the detections, in table order. |
| TechFingerprinter.FingerprintFromScreenshotResult | lib/tech_fingerprinter.py:275-295 | A result is fingerprinted from its URL and its lower-cased headers, without a body. |
| TechFingerprinter.DetectFacts | lib/tech_fingerprinter.py:264-270 | A signature is reported exactly when its score reaches 30. It is reported with its name and priority, and with the confidence capped at 100. |
| TechFingerprinter.BodyHitAloneNotReported | lib/tech_fingerprinter.py:256-270 | A single body hit alone is below the reporting threshold. |
| TechFingerprinter.StarMatchesPresence | lib/tech_fingerprinter.py:247-253 | A `*` header pattern matches exactly when the header is present. |
| TechFingerprinter.PathReasonsTagged | lib/tech_fingerprinter.py:240-244 | Every path reason starts with `path:`. |
| TechFingerprinter.HeaderReasonsTagged | lib/tech_fingerprinter.py:247-253 | Every header reason starts with `header:`. |
| TechFingerprinter.FingerprintIndices | lib/tech_fingerprinter.py:233-273 | The detections come from distinct signatures, in table order. |
| TechFingerprinter.Detections | lib/tech_fingerprinter.py:233-273 | Each signature has its own detection outcome. |
| TechFingerprinter.FingerprintSomes | lib/tech_fingerprinter.py:233-273 | The reported list is the signatures that detect, in order. |
| TechFingerprinter.SomesIndices | lib/tech_fingerprinter.py:233-273 | Every present outcome appears in the reported list at increasing positions. |
| TechFingerprinter.FingerprintBounds | lib/tech_fingerprinter.py:264-270 | Every detection has a confidence from 30 to 100 and names a signature with its priority. |
| TechFingerprinter.FingerprintNames | lib/tech_fingerprinter.py:233-273 | With unique names, a signature's name is reported exactly when its score reaches 30. |
| TechFingerprinter.ScreenshotResultFacts | lib/tech_fingerprinter.py:275-295 | The headers consulted are lower-cased. Every reason of a detection is a path or header reason, never a body pattern. |
| TechFingerprinter.TableReportsOnce | lib/tech_fingerprinter.py:15-273 | With the built-in table, each technology is reported at most once. |
| Enrichment.EnrichAll | lib/enrichment.py:29-46 | The list keeps its length. Results that did not succeed are unchanged. Each successful result is enriched, with the steps before a raise kept. |
| Enrichment.EnrichTarget | lib/enrichment.py:48-80 | The result goes through the fingerprint, SSL, label and header steps in order. It raises exactly when the URL is missing or the interesting-header names are not configured. |
| Enrichment.FingerprintStep | lib/enrichment.py:53-62 | The findings are recorded. Each finding whose raw name is not yet in the technologies list is appended title-cased (the merge `AppendTitled`). |
| Enrichment.AppendEach | lib/enrichment.py:59-62 | The loop computes the merge `AppendTitled`, whose properties are the next four rows. |
| Enrichment.AppendTitledFacts | lib/enrichment.py:57-62 | The existing list is kept as a prefix, at most one entry is added per finding, and every added entry is the title-cased name of a finding. |
| Enrichment.AppendTitledStep | lib/enrichment.py:59-62 | A finding whose raw name is already listed leaves the list unchanged. Any other finding appends exactly its title-cased name. |
| Enrichment.AppendTitledAll | lib/enrichment.py:59-62 | When no finding's name is already listed, nor equal to an earlier finding's title-cased name, all findings are appended title-cased, in order. |
| Enrichment.TitledNameAppendedAgain | lib/enrichment.py:61-62 | The test compares the raw name with title-cased entries: `PHP` is appended as `Php` even when `Php` is already listed. |
| Enrichment.AsItems | lib/enrichment.py:55 | The findings become the `detected_technologies` entries, one per finding. |
| Enrichment.LabelsStep | lib/enrichment.py:69-74 | The technologies are extended by the detected labels not yet present, and nothing changes when the step is off. |
| Enrichment.Missing | lib/enrichment.py:74 | Gives the distinct labels not already listed. |
| Enrichment.HeadersStep | lib/enrichment.py:77-80 | The interesting headers are recorded when headers exist. `raised` holds exactly when the configuration lacks the header names. |
| Enrichment.DetectTechnologies | lib/enrichment.py:122-169 | The labels are distinct, and they are exactly those the header rules produce. |
| Enrichment.Distinct | lib/enrichment.py:169 | `list(set(..))` has no duplicates and the same elements. |
| Enrichment.ServerStep | lib/enrichment.py:132-140 | Gives the labels the `server` header yields. |
| Enrichment.PoweredStep | lib/enrichment.py:143-150 | Gives the labels the `x-powered-by` header yields. |
| Enrichment.OtherStep | lib/enrichment.py:152-167 | Gives the ASP.NET, framework and WAF/CDN labels. |
| Enrichment.RawMember | lib/enrichment.py:122-169 | A label is produced exactly when the server, powered-by or other rules produce it. |
| Enrichment.ServerMember | lib/enrichment.py:132-140 | The `server` header yields Nginx, Apache, IIS and Cloudflare exactly by substring. |
| Enrichment.PoweredMember | lib/enrichment.py:143-150 | `x-powered-by` yields only PHP, ASP.NET and Express.js, each exactly by substring. |
| Enrichment.OtherMember | lib/enrichment.py:152-167 | The other labels are ASP.NET for `x-aspnet-version`, the `x-framework` value, and WAF/CDN for a WAF header. |
| Enrichment.ServerLabelsFacts | lib/enrichment.py:132-140 | Each server label appears exactly when the lower-cased header contains its word. |
| Enrichment.ServerLabelFact | lib/enrichment.py:122-169 | Any other label comes from the server header or from `x-framework`. |
| Enrichment.NotServer | lib/enrichment.py:132-140 | The server rules produce no other name. |
| Enrichment.NotPowered | lib/enrichment.py:143-150 | The powered-by rules produce no other name. |
| Enrichment.FrameworkOnly | lib/enrichment.py:155-156 | Apart from ASP.NET and WAF/CDN, the other labels come only from `x-framework`. |
| Enrichment.PoweredByFacts | lib/enrichment.py:143-153 | Describes when PHP, ASP.NET and Express.js appear and when PHP cannot. |
| Enrichment.WafOnce | lib/enrichment.py:159-167 | WAF/CDN appears exactly when a WAF header is present, at most once and last. |
| Enrichment.WafNotBefore | lib/enrichment.py:159-167 | No WAF/CDN label comes before the WAF check. |
| Enrichment.Interesting | lib/enrichment.py:171-183 | A configured name is kept, lower-cased, exactly when the headers have it, with that header's value. |
| Enrichment.ExtractInterestingHeaders | lib/enrichment.py:171-183 | The loop builds exactly that map. |
| ReportBuilder.GroupByDomain | lib/report_builder.py:58-68 | There is one group per distinct domain key, in sorted order. Each group holds that key's results in input order. |
| ReportBuilder.CollectGroups | lib/report_builder.py:60-66 | The loop builds the groups in first-appearance order. |
| ReportBuilder.AddResult | lib/report_builder.py:63-66 | A result opens a new group or joins its key's group. |
| ReportBuilder.NewGroup | lib/report_builder.py:64-65 | A new key gets a group of just that result. |
| ReportBuilder.JoinGroup | lib/report_builder.py:66 | A known key appends the result to its group. |
| ReportBuilder.GroupAppend | lib/report_builder.py:62-66 | Appending a result adds its key and extends only its own group. |
| ReportBuilder.GroupEmpty | lib/report_builder.py:62-66 | A key no result has gets an empty group. |
| ReportBuilder.Grouped | lib/report_builder.py:38-42 | The grouping is by domain when `group_by_domain` is set, and otherwise a single `All Targets` group. |
| ReportBuilder.GroupMembership | lib/report_builder.py:58-68 | A result is in a key's group exactly when it has that domain key. |
| ReportBuilder.GroupSizesSum | lib/report_builder.py:58-68 | Across distinct keys covering every domain, the group sizes add up to the number of results. |
| ReportBuilder.GroupedSizesSum | lib/report_builder.py:38-68 | Either grouping partitions the results: the group sizes add up to the total. |
| ReportBuilder.SizesMatch | lib/report_builder.py:58-68 | The sizes of the groups are those of their keys. |
| ReportBuilder.SizeSumEmpty | lib/report_builder.py:58-68 | No results give size 0. |
| ReportBuilder.SizeSumStep | lib/report_builder.py:62-66 | One more result adds one to the size of its key's group. |
| ReportBuilder.SortedNoDuplicates | lib/report_builder.py:68 | Sorted keys are distinct. |
| ReportBuilder.GenerateStats | lib/report_builder.py:70-104 | The statistics are the total, the success and failure counts, and the counts of status codes, sources and technologies. |
| ReportBuilder.CountCodes | lib/report_builder.py:77-81 | Counts the status codes of the results that have one. |
| ReportBuilder.CountSources | lib/report_builder.py:84-87 | Counts the sources, with `Unknown` for a result without one. |
| ReportBuilder.CountTechnologies | lib/report_builder.py:90-94 | Counts every listed technology. |
| ReportBuilder.BumpEach | lib/report_builder.py:93-94 | Counting a list extends the counts. |
| ReportBuilder.StatusCountsBound | lib/report_builder.py:72-74 | Successful, failed and pending results add up to the total. |
| ReportBuilder.StatsTotals | lib/report_builder.py:76-94 | The code counts add up to the results with a status, and the source counts add up to all results. The technology counts add up to the listed technologies, and a record without a target appears as `Unknown`. |
| ReportBuilder.StatusCodesLength | lib/report_builder.py:78-79 | There is one status code per result that has one. |
| ReportBuilder.SourcesAt | lib/report_builder.py:85-86 | There is one source key per result, in order. |
| ReportBuilder.DomainKeys | lib/report_builder.py:63 | There is one domain key per result. |
| ReportBuilder.GroupKeys | lib/report_builder.py:68 | There is one key per group. |
| ReportBuilder.FindKey | lib/report_builder.py:64 | Gives the first group of a key, or none. |
| CommandGenerator.GenerateAll | lib/command_generator.py:20-114 | Says which command files exist: testssl exactly with HTTPS sites, nikto and nuclei exactly with any site, each CMS tool exactly with targets of its family, and the target lists always. Each path is in the commands directory. Its final `generate_target_lists` call gives the target lists of the results, and a master script over the scripts written now or left by an earlier run. |
| CommandGenerator.PresentMembers | lib/command_generator.py:405-454 | The master script keeps a script exactly when it is in its list and exists. |
| CommandGenerator.MasterRunsGenerated | lib/command_generator.py:20-114 | The master script runs a tool's script exactly when the tool was generated now or its script was left by an earlier run. |
| CommandGenerator.ScriptOfInjective | lib/command_generator.py:116-352 | Different tools write different scripts. |
| CommandGenerator.Categorise | lib/command_generator.py:37-76 | The loop fills each CMS family and the HTTPS and HTTP site lists as defined. |
| CommandGenerator.AddHits | lib/command_generator.py:53-70 | A result is appended to a family once per technology name in that family. |
| CommandGenerator.CollectNames | lib/command_generator.py:45-50 | Gives the technology names. |
| CommandGenerator.TechNames | lib/command_generator.py:45-50 | A finding gives its name as reported, and a plain entry gives its text lower-cased. |
| CommandGenerator.Repeat | lib/command_generator.py:53-70 | Gives `n` copies of the result. |
| CommandGenerator.ToolsFor | lib/command_generator.py:79-112 | Says which keys each condition produces. |
| CommandGenerator.When | lib/command_generator.py:79-112 | The key is present exactly under its condition. |
| CommandGenerator.SitesMembership | lib/command_generator.py:72-76 | A result is an HTTPS site exactly when it succeeded with an `https://` URL. It is an HTTP site exactly when it succeeded with an `http://` URL that is not HTTPS. |
| CommandGenerator.CmsMembership | lib/command_generator.py:52-70 | A result is in a family exactly when it succeeded and one of its names falls into that family. |
| CommandGenerator.HitsPositive | lib/command_generator.py:53-70 | A name counts exactly when it falls into the family. |
| CommandGenerator.HitsCount | lib/command_generator.py:53-70 | The hits are the occurrences of the family among the names' categories. |
| CommandGenerator.CountPositive | lib/command_generator.py:53-70 | The count is positive exactly when the value occurs. |
| CommandGenerator.Categories | lib/command_generator.py:53-70 | Gives each name's category, compared lower-cased. |
| CommandGenerator.CategoryIgnoresCase | lib/command_generator.py:54-66 | A finding named `WordPress` and the entries `WooCommerce` and `Umbraco` fall into their families. |
| CommandGenerator.Domain | lib/command_generator.py:130 | The domain of a URL has no `/`. |
| CommandGenerator.DomainOfUrl | lib/command_generator.py:130 | The domain of `http(s)://host/...` is the host. |
| CommandGenerator.SafeFilename | lib/command_generator.py:190 | The safe name replaces every `:` and `/` by `_` and keeps everything else. |
| CommandGenerator.ReplaceAllSkip | lib/command_generator.py:130 | Removing a pattern leaves a prefix alone when no match starts in it. |
| CommandGenerator.SlashStays | lib/command_generator.py:130 | Removing a pattern keeps a leading `/`. |
| CommandGenerator.NoMatchInHost | lib/command_generator.py:130 | No scheme starts inside such a host. |
| CommandGenerator.PassesHttps | lib/command_generator.py:130 | Says how both removals act on an `https://` URL. |
| CommandGenerator.PassesHttp | lib/command_generator.py:130 | Says how both removals act on an `http://` URL. |
| CommandGenerator.HostBeforeSlash | lib/command_generator.py:130 | The first part before `/` is the host. |
| CommandGenerator.StripPrefix | lib/command_generator.py:130 | A leading pattern is removed. |
| CommandGenerator.HttpUnderHttps | lib/command_generator.py:130 | Removing `https://` leaves a leading `http://`. |
| CommandGenerator.GenerateTargetLists | lib/command_generator.py:354-464 | `all_targets.txt` lists the successful URLs in order. `domains.txt` and `ips.txt` list the sorted distinct domains and IPs. The master script numbers the scripts that exist, in its order. |
| CommandGenerator.MasterSteps | lib/command_generator.py:405-454 | Each existing script gets the next step number. |
| CommandGenerator.IpsFacts | lib/command_generator.py:379-391 | Each IP has only digits and dots. A successful result with an empty domain puts `""` in the list. |
| CommandGenerator.IpsChars | lib/command_generator.py:379-391 | Each IP has no `:` and only digits and dots. |
| CommandGenerator.IpsEmptyDomain | lib/command_generator.py:385 | An empty domain passes the `all()` test. |
| CommandGenerator.DomainsMatchUrls | lib/command_generator.py:359-372 | There is one domain per successful URL, and it is that URL's domain. |
| PenDoc.ParseInputs | pendoc.py:99-136 | The targets are the URL list's, then Burp's, then the subdomains', then Nmap's, with duplicate URLs removed. |
| PenDoc.Dedup | pendoc.py:127-133 | The loop keeps the first target of each URL. |
| PenDoc.UrlsAppend | pendoc.py:130-133 | Appending a target adds its URL. |
| PenDoc.UniqueFacts | pendoc.py:127-136 | The kept URLs are distinct and exactly the input's URLs. Each kept target is the first with its URL, in input order. |
| PenDoc.UniqueOfDistinct | pendoc.py:127-133 | A list with distinct URLs is unchanged. |
| PenDoc.UniqueIdempotent | pendoc.py:127-133 | Deduplicating twice is deduplicating once. |
| PenDoc.EarlierSourceWins | pendoc.py:103-133 | For any earlier and later target lists, the first earlier target with a URL is kept, and it is the only kept target with that URL. |
| PenDoc.Run | pendoc.py:138-221 | Stops when there are no targets and raises for zero workers. Otherwise it captures, enriches only successful results when `collect_headers` is set, and builds the report data, the command files and the summary from the final results. The statistics are those of the final results. The groups are sorted by domain, and each holds that domain's results in order; without grouping there is one group of all results. The command files are exactly those `generate_all` produces for the final results (`GeneratedFiles`). The target lists are those of the final results, and the master script steps number the scripts that exist once the command files are written. |
| PenDoc.CountCms | pendoc.py:190-199 | Counts the CMS names of the successful results. |
| PenDoc.CountNames | pendoc.py:193-199 | Counts one result's CMS names. |
| PenDoc.CmsMentionsFacts | pendoc.py:190-199 | Only CMS names from successful results are counted, and the counts add up to the mentions. |
| PenDoc.CmsOfFacts | pendoc.py:195-198 | The CMS names are among the names and on the CMS list. |
| PenDoc.DefaultConfigFacts | pendoc.py:46-86 | The defaults use 5 workers, 2 retries and only desktop capture. Without `interesting_headers`, enriching a result with headers raises. |
| Text.Lower | lib/enrichment.py:132 | `lower()` keeps the length and lower-cases each ASCII letter. |
| Text.Title | lib/enrichment.py:62 | `title()` keeps the length. A letter is lower-cased when it follows a letter and upper-cased otherwise; other characters are unchanged. |
| Text.TitleFrom | lib/enrichment.py:62 | Title-casing a suffix keeps its length and applies the same casing rule, with `afterLetter` saying whether the character before the suffix was a letter. |
| Text.IndexOf | lib/command_generator.py:130 | Gives the first occurrence, or the length when there is none. |
| Text.BeforeFirst | lib/command_generator.py:130 | `split(c)[0]` is the longest prefix without `c`. |
| Text.BeforeFirstAppend | lib/command_generator.py:130 | A prefix free of `c` stays in front. |
| Text.IndexOfAppend | lib/command_generator.py:130 | A prefix free of `c` shifts the index. |
| Text.Split | lib/port_checker.py:116 | `split(c)` gives one more part than there are separators, no part holds `c`, and joining the parts with `c` gives the text back. |
| Text.CountAtFirst | lib/port_checker.py:116 | The separator count unfolds at the first separator. |
| Text.ReplaceChar | lib/screenshot.py:307 | `replace(c, d)` on one character changes exactly the occurrences of `c`. |
| Text.Strip | lib/input_parsers/url_parser.py:46 | `strip()` is the slice of the text after its leading whitespace, with only whitespace after it, and neither starts nor ends with whitespace. |
| Text.StripChar | lib/screenshot.py:312 | `strip(c)` is the slice of the text after its leading `c`s, with only `c`s after it, and neither starts nor ends with `c`. |
| Text.StripBy | lib/input_parsers/url_parser.py:46 | Stripping gives the slice after the leading stripped run, with only stripped characters after it, and no stripped character at either end. |
| Text.LeadingCount | lib/input_parsers/url_parser.py:46 | Counts the leading stripped characters. |
| Text.TrailingCount | lib/input_parsers/url_parser.py:46 | Counts the trailing stripped characters. |
| Text.FirstBreak | lib/input_parsers/url_parser.py:45 | Gives the first line break. |
| Text.SplitLines | lib/input_parsers/url_parser.py:45 | No line from `splitlines()` holds a line break. |
| Text.SplitLinesRejoin | lib/input_parsers/url_parser.py:45 | The lines are the pieces between the boundaries, in order. Each boundary is one break character or `\r\n`; only the last line may run to the end of the text, and then it is not empty; a lone `\r` is never followed by `\n`. Putting the boundaries back gives the text. |
| Text.NatToString | lib/input_parsers/nmap_parser.py:78-91 | A number prints as a non-empty string of digits whose decimal value is the number. |
| Text.NatToStringParses | lib/port_checker.py:85 | `int(str(n)) == n`: the printed number parses back to itself. |
| Text.ParseInt | lib/input_parsers/nmap_parser.py:72 | `int()` succeeds exactly when the stripped text is digit groups with an optional sign. The value is the digits' decimal value, negated for `-`. |
| Text.DigitWitness | lib/input_parsers/nmap_parser.py:72 | A digit after stripping was a digit before. |
| Text.SortedUnique | lib/command_generator.py:367-376 | `sorted(set(..))` is strictly sorted with the same elements. |
| Text.SortedUniqueDetermined | lib/command_generator.py:375 | Strictly sorted lists with the same elements are equal. |
| Text.InsertUnique | lib/command_generator.py:375 | Inserting keeps strict order and adds the element. |
| Text.SortSet | lib/command_generator.py:375 | Sorting a set gives the strictly sorted list of its elements. |
| Text.EmptyElements | lib/command_generator.py:388 | A list is empty exactly when its set is. |
| Text.ElementsAppend | lib/report_builder.py:64 | Appending adds the element to the set. |
| Text.LessIrreflexive | lib/report_builder.py:68 | String order is irreflexive. |
| Text.LessTransitive | lib/report_builder.py:68 | String order is transitive. |
| Text.LessTotal | lib/report_builder.py:68 | String order is total on distinct strings. |
| Records.Lookup | lib/enrichment.py:132 | A header is found exactly when present, with the value of its last binding. |
| Records.LowerKeys | lib/tech_fingerprinter.py:290 | The lower-cased header names are exactly the names of the headers, lower-cased. Each one holds the value of the last header whose name lowers to it. |
| Records.LowerIdempotent | lib/tech_fingerprinter.py:290 | Lower-casing twice is lower-casing once. |
| Counters.CountAllFacts | lib/report_builder.py:77-81 | The counts are the occurrences, each positive, under distinct keys, and they add up to the list's length. |
| Counters.BumpFacts | lib/report_builder.py:81 | `d[k] = d.get(k, 0) + 1` adds one to `k` only. |
| Counters.Find | lib/report_builder.py:81 | Gives the first entry of a key, or none. |
| Counters.GetAt | lib/report_builder.py:81 | An entry's count is its key's count. |
| Counters.GetMissing | lib/report_builder.py:81 | An absent key counts 0. |
| Counters.TotalAppend | lib/report_builder.py:81 | A new entry adds its count to the total. |
| Counters.TotalUpdate | lib/report_builder.py:81 | Updating an entry changes the total by the difference. |
| Counters.GetUpdate | lib/report_builder.py:81 | Updating an entry changes only its key's count. |
| Counters.GetAppend | lib/report_builder.py:81 | A new entry changes only its key's count. |

## Left out

- Browser automation is not modelled. Playwright's pages, navigation, screenshots, sleeps, timeouts and the browser launch options are an oracle per target (`TaskPlan`, `Attempt`), and the sleeps are counted rather than taken.
- The clock is an input. The `timestamp` of a record and the screenshot file time stamp are parameters.
- Concurrency is not modelled. `asyncio.gather` over a batch is modelled as sequential, in target order, which is the order the source appends results. The thread pool of `find_web_services` becomes a completion order given as a parameter.
- File I/O is mostly left out. Reading input files, `json.load`/`json.dump`, XML parsing, `mkdir`, `chmod` and existence checks become values: file contents, decoded JSON items and Nmap hosts, the set of scripts that exist, and progress writes returned as a trace.
- `load_progress` failing to read is not modelled: an unreadable progress file is the empty loaded list.
- The text of the command files (tool options, curl lines, nuclei templates) and of the master script is left out. The model states which files are produced, their paths, the target lists they contain and the steps of the master script. `CommandGenerator.SafeFilename` only gives the name of the per-site wpscan report that the wpscan script text would mention.
- The HTML template, `_render_html`, `success_rate` (a float formatting), the run duration, the coloured summary printing and logging are left out.
- `_get_ssl_info` opens a TLS connection. It is an input function from URL to certificate fields.
- `burp_parser.py` is not part of this model. Its targets enter `ParseInputs` as a list.
- `recover_report.py`, `test_pendoc.py` and `main()`'s argument parsing are not part of this model. `main()` only dispatches to `run`.
- Enrichment.DetectTechnologies: `list(set(..))` has an unspecified order, so the contract fixes the distinct labels and not their order.
- Text.Lower, Text.Title and Text.Strip: case mapping and whitespace are ASCII/Python-whitespace only. Unicode case folding is not modelled.
- Text.ParseInt: accepts ASCII digits only. `int()` also accepts other Unicode decimal digits.
- Urls.UrlParse: the removal of leading C0 control characters and of embedded tabs and newlines is not modelled.
- NmapParser.Parse: a `<hostname>` element without `name`, or an `<address>` without `addr`, gives Python's `None`. The model treats the element as absent.
- NmapParser.Parse: a `<port>` without `portid` is not modelled. `int(None)` raises `TypeError`, which the outer handler catches, so the parse yields `[]`; the model's `portid` is always a string.
- Urls.UrlParse: checks only that the brackets of the network location balance. The host validation of newer Python versions (`[abc]` raises `ValueError`) is not modelled.
- Screenshot.CaptureTarget: the `finally` close of a page that raised is not modelled separately. A close that raises after `success` counts as the failing step of that attempt, as in the source.
- The progress file is written with `default=str`, so non-JSON values become strings. Records round-trip unchanged in the model.

Behaviour that follows the code where a reader might expect otherwise:
- A `concurrent_workers` of 0 raises `ValueError` from `range`, and a negative value captures nothing.
- A negative `max_retries` leaves a record pending.
- The synthetic failure record of a task that raised has no `url`, so a later resume raises `KeyError`.
- The default configuration has no `enrichment.interesting_headers`, so enriching a result with headers raises `KeyError`, which `enrich_all` catches after the earlier steps.
- `cms_counts` compares a finding's name without lower-casing it.
- An empty `domain` passes the IP test and is written to `ips.txt`.
