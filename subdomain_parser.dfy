/** `SubdomainParser`: the choice between JSON, CSV and plain-list input, the per-line domain
    extraction of the two line formats, the handling of decoded JSON items, and the domain
    validity rule every emitted target passes. */
module SubdomainParser {
  import opened Text
  import opened Records

  // ---------------------------------------------------------------------------------------------
  // Domain validity: `^label(\.label)*$` with `label = [a-zA-Z0-9]([a-zA-Z0-9-]{0,61}[a-zA-Z0-9])?`,
  // and at most 253 characters

  predicate IsLabelChar(c: char) { IsAsciiAlnum(c) || c == '-' }

  /** One to 63 letters, digits and hyphens, starting and ending with a letter or digit. */
  predicate ValidLabel(l: string) {
    1 <= |l| <= 63 && IsAsciiAlnum(l[0]) && IsAsciiAlnum(l[|l| - 1])
    && forall k | 0 <= k < |l| :: IsLabelChar(l[k])
  }

  /** Dot-separated valid labels. */
  predicate DottedLabels(d: string) {
    forall p | p in Split(d, '.') :: ValidLabel(p)
  }

  /** `_is_valid_domain`. Python's `$` also matches just before a final newline, so the labels
      may be followed by one `'\n'` (which counts towards the length). */
  predicate IsValidDomain(d: string) {
    (DottedLabels(d) || (|d| > 0 && d[|d| - 1] == '\n' && DottedLabels(d[..|d| - 1]))) && |d| <= 253
  }

  lemma {:induction false} SplitJoin(a: string, b: string, c: char)
    requires c !in a
    ensures Split(a + [c] + b, c) == [a] + Split(b, c)
  {
    var s := a + [c] + b;
    assert s[|a|] == c;
    assert forall k | 0 <= k < |a| :: s[k] == a[k];
    assert IndexOf(s, c) == |a|;
    assert s[..|a|] == a && s[|a| + 1..] == b;
  }

  lemma {:induction false} SplitSingle(a: string, c: char)
    requires c !in a
    ensures Split(a, c) == [a]
  {
    assert IndexOf(a, c) == |a|;
  }

  /** Every character of `s` other than the separator lies in one of the pieces. */
  lemma {:induction false} SplitCovers(s: string, c: char, k: nat)
    requires k < |s| && s[k] != c
    ensures exists p | p in Split(s, c) :: s[k] in p
    decreases |s|
  {
    var i := IndexOf(s, c);
    if i == |s| {
      assert s[k] in Split(s, c)[0];
    } else if k < i {
      assert s[..i][k] == s[k];
      assert s[k] in Split(s, c)[0];
    } else {
      assert k > i;
      var rest := s[i + 1..];
      assert rest[k - i - 1] == s[k];
      SplitCovers(rest, c, k - i - 1);
      var p :| p in Split(rest, c) && s[k] in p;
      assert Split(s, c) == [s[..i]] + Split(rest, c);
      assert p in Split(s, c);
    }
  }

  /** A valid label followed by a dot and a dotted name is a dotted name. */
  lemma {:induction false} DottedCons(lab: string, rest: string)
    requires ValidLabel(lab) && DottedLabels(rest)
    ensures DottedLabels(lab + "." + rest)
  {
    assert '.' !in lab by {
      forall k | 0 <= k < |lab| ensures lab[k] != '.' { assert IsLabelChar(lab[k]); }
    }
    SplitJoin(lab, rest, '.');
  }

  /** A single valid label is a dotted name. */
  lemma {:induction false} DottedSingle(lab: string)
    requires ValidLabel(lab)
    ensures DottedLabels(lab)
  {
    assert '.' !in lab by {
      forall k | 0 <= k < |lab| ensures lab[k] != '.' { assert IsLabelChar(lab[k]); }
    }
    SplitSingle(lab, '.');
  }

  /** A dotted name is made of letters, digits, hyphens and dots only. */
  lemma {:induction false} DottedChars(d: string)
    requires DottedLabels(d)
    ensures forall k | 0 <= k < |d| :: IsLabelChar(d[k]) || d[k] == '.'
  {
    forall k | 0 <= k < |d| ensures IsLabelChar(d[k]) || d[k] == '.' {
      if d[k] != '.' {
        SplitCovers(d, '.', k);
        var p :| p in Split(d, '.') && d[k] in p;
        var m :| 0 <= m < |p| && p[m] == d[k];
        assert ValidLabel(p);
      }
    }
  }

  /** What a valid domain is made of: nothing but letters, digits, hyphens and dots, except for
      a possible final newline; never a colon, a slash or a space; at most 253 characters. */
  lemma {:induction false} ValidDomainChars(d: string)
    requires IsValidDomain(d)
    ensures |d| <= 253
    ensures forall k | 0 <= k < |d| :: IsLabelChar(d[k]) || d[k] == '.' || (k == |d| - 1 && d[k] == '\n')
  {
    if DottedLabels(d) {
      DottedChars(d);
    } else {
      var e := d[..|d| - 1];
      DottedChars(e);
      assert forall k | 0 <= k < |e| :: d[k] == e[k];
    }
  }

  /** So a candidate holding a colon (a port, as in `a.com:80`) or a slash is never valid. */
  lemma {:induction false} PortOrPathInvalid(d: string)
    requires ':' in d || '/' in d
    ensures !IsValidDomain(d)
  {
    var k :| 0 <= k < |d| && (d[k] == ':' || d[k] == '/');
    if IsValidDomain(d) {
      ValidDomainChars(d);
      assert false;
    }
  }

  // ---------------------------------------------------------------------------------------------
  // Format choice and per-line extraction

  datatype Format = Json | Csv | Simple

  /** JSON when the stripped content opens with `[` or `{`, else CSV when it holds any comma,
      else one name per line. */
  function DetectFormat(content: string): (f: Format)
    ensures f == Json <==> Strip(content) != [] && Strip(content)[0] in "[{"
    ensures f == Csv <==> !(Strip(content) != [] && Strip(content)[0] in "[{") && ',' in content
  {
    var s := Strip(content);
    if StartsWith(s, "[") || StartsWith(s, "{") then Json
    else if ',' in content then Csv
    else Simple
  }

  /** `re.sub(r'^https?://', '', s)`: one leading `http://` or `https://` removed. */
  function RemoveWebScheme(s: string): (r: string)
    ensures StartsWith(s, "http://") ==> s == "http://" + r
    ensures StartsWith(s, "https://") ==> s == "https://" + r
    ensures !StartsWith(s, "http://") && !StartsWith(s, "https://") ==> r == s
  {
    if StartsWith(s, "http://") then
      assert s == s[..7] + s[7..];
      assert !StartsWith(s, "https://") by { assert s[4] == ':'; }
      s[7..]
    else if StartsWith(s, "https://") then
      assert s == s[..8] + s[8..];
      s[8..]
    else s
  }

  /** The candidate domain of a stripped line: for plain lists the scheme is removed and the text
      cut at the first `/` and then at the first `:`; for CSV it is the trimmed first field with
      only the scheme removed. */
  function Candidate(format: Format, line: string): string {
    if format == Csv then RemoveWebScheme(Strip(BeforeFirst(line, ',')))
    else BeforeFirst(BeforeFirst(RemoveWebScheme(line), '/'), ':')
  }

  function SourceName(format: Format): string {
    match format
    case Json => "subdomain_json"
    case Csv => "subdomain_csv"
    case Simple => "subdomain_list"
  }

  /** The target `protocol://domain` the parser emits for a valid domain. */
  function Emitted(domain: string, format: Format, sourceFile: string, protocol: string, lineNumber: Option<nat>): Target {
    Target(protocol + "://" + domain, SourceName(format), sourceFile, domain, protocol, lineNumber, map[])
  }

  /** Line number `lineNumber` (1-based) of a CSV or plain-list file. */
  function LineTarget(format: Format, raw: string, lineNumber: nat, sourceFile: string, protocol: string): Option<Target> {
    var line := Strip(raw);
    if line == [] || line[0] == '#' then None
    else
      var domain := Candidate(format, line);
      if IsValidDomain(domain) then Some(Emitted(domain, format, sourceFile, protocol, Some(lineNumber))) else None
  }

  function LineTargets(format: Format, lines: seq<string>, sourceFile: string, protocol: string): seq<Target> {
    if lines == [] then []
    else
      LineTargets(format, lines[..|lines| - 1], sourceFile, protocol)
      + AsList(LineTarget(format, lines[|lines| - 1], |lines|, sourceFile, protocol))
  }

  /** The targets an optional target contributes: itself, or none. */
  function AsList(t: Option<Target>): seq<Target> {
    match t
    case Some(t) => [t]
    case None => []
  }

  lemma LineTargetsStep(format: Format, lines: seq<string>, i: nat, sourceFile: string, protocol: string)
    requires i < |lines|
    ensures LineTargets(format, lines[..i + 1], sourceFile, protocol)
      == LineTargets(format, lines[..i], sourceFile, protocol) + AsList(LineTarget(format, lines[i], i + 1, sourceFile, protocol))
  {
    assert lines[..i + 1][..i] == lines[..i];
  }

  /** `_parse_simple` / `_parse_csv` on `content`. */
  method ParseLines(format: Format, content: string, sourceFile: string, protocol: string) returns (targets: seq<Target>)
    ensures targets == LineTargets(format, SplitLines(content), sourceFile, protocol)
  {
    var lines := SplitLines(content);
    targets := [];
    var i := 0;
    while i < |lines|
      invariant 0 <= i <= |lines|
      invariant targets == LineTargets(format, lines[..i], sourceFile, protocol)
    {
      var t := LineTarget(format, lines[i], i + 1, sourceFile, protocol);
      LineTargetsStep(format, lines, i, sourceFile, protocol);
      if t.Some? {
        targets := targets + [t.value];
      }
      i := i + 1;
    }
    assert lines[..i] == lines;
  }

  // ---------------------------------------------------------------------------------------------
  // JSON input, given as the value `json.loads` produced

  /** An element of a decoded JSON array: a string, an object whose `domain` is a string, an
      object whose `domain` is something else (matching it raises `TypeError`), or anything
      else (ignored). */
  datatype JsonItem = JString(s: string) | JDomain(domain: string) | JDomainNotString | JOther

  /** What `json.loads(content)` gives: a decode error, a value that is not a list, or a list. */
  datatype JsonDoc = Malformed | NotAList | Items(items: seq<JsonItem>)

  function JsonItemTarget(item: JsonItem, sourceFile: string, protocol: string): Option<Target>
    requires !item.JDomainNotString?
  {
    match item
    case JString(s) =>
      var domain := RemoveWebScheme(s);
      if IsValidDomain(domain) then Some(Emitted(domain, Json, sourceFile, protocol, None)) else None
    case JDomain(d) =>
      if IsValidDomain(d) then Some(Emitted(d, Json, sourceFile, protocol, None)) else None
    case JOther => None
  }

  /** The targets of the decoded items, or `None` when an item's `TypeError` escapes. */
  function JsonTargets(items: seq<JsonItem>, sourceFile: string, protocol: string): Option<seq<Target>> {
    if items == [] then Some([])
    else
      match JsonTargets(items[..|items| - 1], sourceFile, protocol)
      case None => None
      case Some(ts) =>
        var last := items[|items| - 1];
        if last.JDomainNotString? then None
        else Some(ts + Contribution(last, sourceFile, protocol))
  }

  function Contribution(item: JsonItem, sourceFile: string, protocol: string): seq<Target>
    requires !item.JDomainNotString?
  {
    AsList(JsonItemTarget(item, sourceFile, protocol))
  }

  /** `_parse_json`; `None` when it raises. */
  method ParseJson(doc: JsonDoc, sourceFile: string, protocol: string) returns (targets: Option<seq<Target>>)
    ensures targets == (if doc.Items? then JsonTargets(doc.items, sourceFile, protocol) else Some([]))
  {
    if !doc.Items? { return Some([]); }
    var items := doc.items;
    var ts: seq<Target> := [];
    var i := 0;
    while i < |items|
      invariant 0 <= i <= |items|
      invariant JsonTargets(items[..i], sourceFile, protocol) == Some(ts)
    {
      assert items[..i + 1][..i] == items[..i];
      assert items[..i + 1][i] == items[i];
      if items[i].JDomainNotString? {
        JsonAbortSticks(items, i + 1, sourceFile, protocol);
        return None;
      }
      ts := ts + Contribution(items[i], sourceFile, protocol);
      i := i + 1;
    }
    assert items[..i] == items;
    targets := Some(ts);
  }

  lemma {:induction false} JsonAbortSticks(items: seq<JsonItem>, n: nat, sourceFile: string, protocol: string)
    requires n <= |items| && JsonTargets(items[..n], sourceFile, protocol).None?
    ensures JsonTargets(items, sourceFile, protocol).None?
    decreases |items| - n
  {
    if n < |items| {
      assert items[..n + 1][..n] == items[..n];
      JsonAbortSticks(items, n + 1, sourceFile, protocol);
    } else {
      assert items[..n] == items;
    }
  }

  /** `parse(file_path)` on the file's `content`; `doc` is what `json.loads(content)` gives, used
      only when the content is taken for JSON. A missing `default_protocol` raises `KeyError` in
      every format, which `parse` turns into `[]`, as it does a `TypeError` from a JSON item. */
  method Parse(content: string, doc: JsonDoc, sourceFile: string, protocol: Option<string>) returns (targets: seq<Target>)
    ensures protocol.None? ==> targets == []
    ensures protocol.Some? && DetectFormat(content) != Json ==>
      targets == LineTargets(DetectFormat(content), SplitLines(content), sourceFile, protocol.value)
    ensures protocol.Some? && DetectFormat(content) == Json ==>
      targets == (if doc.Items? then JsonTargets(doc.items, sourceFile, protocol.value).GetOr([]) else [])
  {
    if protocol.None? { return []; }
    var format := DetectFormat(content);
    if format == Json {
      var r := ParseJson(doc, sourceFile, protocol.value);
      targets := r.GetOr([]);
    } else {
      targets := ParseLines(format, content, sourceFile, protocol.value);
    }
  }

  // ---------------------------------------------------------------------------------------------
  // Properties

  /** Every emitted target is `protocol://domain` for a valid domain, tagged with its format's
      source name and the configured protocol as scheme. */
  predicate WellFormed(t: Target, format: Format, sourceFile: string, protocol: string) {
    t.url == protocol + "://" + t.domain && IsValidDomain(t.domain)
    && t.source == SourceName(format) && t.sourceFile == sourceFile && t.scheme == protocol
  }

  /** `t` is the well-formed target that its own 1-based line of `lines` yields. */
  predicate FromItsLine(t: Target, format: Format, lines: seq<string>, sourceFile: string, protocol: string) {
    WellFormed(t, format, sourceFile, protocol)
    && t.lineNumber.Some? && 1 <= t.lineNumber.value <= |lines|
    && LineTarget(format, lines[t.lineNumber.value - 1], t.lineNumber.value, sourceFile, protocol) == Some(t)
  }

  predicate InLineOrder(ts: seq<Target>) {
    forall k, m | 0 <= k < m < |ts| :: ts[k].lineNumber.Some? && ts[m].lineNumber.Some?
      && ts[k].lineNumber.value < ts[m].lineNumber.value
  }

  lemma LineTargetShape(format: Format, raw: string, lineNumber: nat, sourceFile: string, protocol: string)
    requires LineTarget(format, raw, lineNumber, sourceFile, protocol).Some?
    ensures WellFormed(LineTarget(format, raw, lineNumber, sourceFile, protocol).value, format, sourceFile, protocol)
    ensures LineTarget(format, raw, lineNumber, sourceFile, protocol).value.lineNumber == Some(lineNumber)
  {
  }

  /** Each target of a line format is what its own 1-based line yields, well formed, and the
      targets come in line order. */
  lemma {:induction false} LineTargetsFacts(format: Format, lines: seq<string>, sourceFile: string, protocol: string)
    ensures forall t | t in LineTargets(format, lines, sourceFile, protocol) :: FromItsLine(t, format, lines, sourceFile, protocol)
    ensures InLineOrder(LineTargets(format, lines, sourceFile, protocol))
  {
    if lines != [] {
      var init := lines[..|lines| - 1];
      LineTargetsFacts(format, init, sourceFile, protocol);
      var before := LineTargets(format, init, sourceFile, protocol);
      var ts := LineTargets(format, lines, sourceFile, protocol);
      var last := LineTarget(format, lines[|lines| - 1], |lines|, sourceFile, protocol);
      var tail := AsList(last);
      assert ts == before + tail;
      if last.Some? { LineTargetShape(format, lines[|lines| - 1], |lines|, sourceFile, protocol); }
      forall t | t in before ensures FromItsLine(t, format, lines, sourceFile, protocol) {
        assert FromItsLine(t, format, init, sourceFile, protocol);
        assert lines[t.lineNumber.value - 1] == init[t.lineNumber.value - 1];
      }
      forall k, m | 0 <= k < m < |ts| ensures ts[k].lineNumber.Some? && ts[m].lineNumber.Some?
        && ts[k].lineNumber.value < ts[m].lineNumber.value
      {
        assert ts[k] == before[k] && before[k] in before;
        if m < |before| { assert ts[m] == before[m]; } else { assert ts[m] == tail[0]; }
      }
    }
  }

  /** Conversely every line that yields a target contributes it. */
  lemma {:induction false} LineTargetsComplete(format: Format, lines: seq<string>, sourceFile: string, protocol: string, i: nat)
    requires i < |lines| && LineTarget(format, lines[i], i + 1, sourceFile, protocol).Some?
    ensures LineTarget(format, lines[i], i + 1, sourceFile, protocol).value in LineTargets(format, lines, sourceFile, protocol)
  {
    var init := lines[..|lines| - 1];
    if i < |lines| - 1 {
      assert init[i] == lines[i];
      LineTargetsComplete(format, init, sourceFile, protocol, i);
    }
  }

  /** Every target of a JSON list is well formed and carries no line number. */
  lemma {:induction false} JsonTargetsFacts(items: seq<JsonItem>, sourceFile: string, protocol: string)
    requires JsonTargets(items, sourceFile, protocol).Some?
    ensures forall t | t in JsonTargets(items, sourceFile, protocol).value ::
      WellFormed(t, Json, sourceFile, protocol) && t.lineNumber.None?
  {
    if items != [] {
      JsonTargetsFacts(items[..|items| - 1], sourceFile, protocol);
    }
  }

  /** A `TypeError` from one item empties the whole result. */
  lemma {:induction false} JsonTypeErrorAborts(items: seq<JsonItem>, sourceFile: string, protocol: string, i: nat)
    requires i < |items| && items[i].JDomainNotString?
    ensures JsonTargets(items, sourceFile, protocol).None?
  {
    assert items[..i + 1][..i] == items[..i];
    if JsonTargets(items[..i], sourceFile, protocol).Some? {
      assert JsonTargets(items[..i + 1], sourceFile, protocol).None?;
      JsonAbortSticks(items, i + 1, sourceFile, protocol);
    } else {
      JsonAbortSticks(items, i, sourceFile, protocol);
    }
  }

  /** Blank and comment lines produce nothing. */
  lemma SkippedLine(format: Format, raw: string, lineNumber: nat, sourceFile: string, protocol: string)
    requires Strip(raw) == [] || Strip(raw)[0] == '#'
    ensures LineTarget(format, raw, lineNumber, sourceFile, protocol) == None
  {
  }

  /** In a plain list, `scheme://host:port/path` and its shorter forms all yield `host`: one
      leading `http://` or `https://` goes, then everything from the first `/`, then everything
      from the first `:`. */
  lemma {:induction false} SimpleCandidateCuts(prefix: string, host: string, tail: string)
    requires prefix in ["", "http://", "https://"]
    requires prefix == "" ==> !StartsWith(host + tail, "http://") && !StartsWith(host + tail, "https://")
    requires '/' !in host && ':' !in host
    requires tail == [] || tail[0] == '/' || tail[0] == ':'
    ensures Candidate(Simple, prefix + host + tail) == host
  {
    var s := prefix + host + tail;
    assert RemoveWebScheme(s) == host + tail by {
      if prefix == "http://" {
        assert s == "http://" + (host + tail);
      } else if prefix == "https://" {
        assert s == "https://" + (host + tail);
        assert !StartsWith(s, "http://") by { assert s[4] == 's'; }
      } else {
        assert s == host + tail;
      }
    }
    BeforeFirstAppend(host, tail, '/');
    var t := BeforeFirst(tail, '/');
    assert t == [] || t[0] == ':' by {
      if tail != [] && tail[0] == ':' { assert IndexOf(tail, '/') > 0; assert t[0] == tail[0]; }
    }
    BeforeFirstAppend(host, t, ':');
    assert BeforeFirst(t, ':') == [];
  }

  /** A CSV first field keeps any port: `a.com:80` (with or without a scheme) yields no target. */
  lemma {:induction false} CsvPortRejected(line: string, lineNumber: nat, sourceFile: string, protocol: string)
    requires ':' in RemoveWebScheme(Strip(BeforeFirst(Strip(line), ',')))
    ensures LineTarget(Csv, line, lineNumber, sourceFile, protocol) == None
  {
    PortOrPathInvalid(RemoveWebScheme(Strip(BeforeFirst(Strip(line), ','))));
  }
}
