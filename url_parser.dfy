/** `URLParser.parse`: one URL per line, with comment and blank lines skipped, a default scheme
    added where a line has none, and lines without a network location dropped. */
module UrlParser {
  import opened Text
  import opened Records
  import opened Urls

  /** What one line of the file leads to. `Abort` is the `KeyError` raised when a line needs the
      default protocol and the configuration has none: it escapes the per-line handler and the
      whole parse returns `[]`. */
  datatype LineOutcome = Skip | Emit(target: Target) | Abort

  predicate HasWebScheme(s: string) {
    StartsWith(s, "http://") || StartsWith(s, "https://")
  }

  /** A stripped line that is empty or a comment. */
  predicate Ignored(line: string) {
    line == [] || line[0] == '#'
  }

  /** The URL a kept line stands for: the line itself when it has a web scheme, otherwise the
      line behind `protocol://`. */
  function LineUrl(line: string, protocol: string): string {
    if HasWebScheme(line) then line else protocol + "://" + line
  }

  /** The handling of line number `lineNumber` (1-based) with text `raw`. */
  function Line(raw: string, lineNumber: nat, sourceFile: string, defaultProtocol: Option<string>): LineOutcome {
    var line := Strip(raw);
    if Ignored(line) then Skip
    else if !HasWebScheme(line) && defaultProtocol.None? then Abort
    else
      var url := LineUrl(line, defaultProtocol.GetOr(""));
      match UrlParse(url)
      case None => Skip
      case Some(parsed) =>
        if parsed.netloc == [] then Skip
        else Emit(Target(url, "url_list", sourceFile, parsed.netloc, parsed.scheme, Some(lineNumber), map[]))
  }

  /** The outcome of every line, numbered from 1. */
  function Outcomes(lines: seq<string>, sourceFile: string, defaultProtocol: Option<string>): (outs: seq<LineOutcome>)
    ensures |outs| == |lines|
    ensures forall i | 0 <= i < |lines| :: outs[i] == Line(lines[i], i + 1, sourceFile, defaultProtocol)
  {
    seq(|lines|, i requires 0 <= i < |lines| => Line(lines[i], i + 1, sourceFile, defaultProtocol))
  }

  /** The targets the outcomes `outs` collect in order, or `None` once one of them aborted. */
  function Collect(outs: seq<LineOutcome>): Option<seq<Target>> {
    if outs == [] then Some([])
    else
      match Collect(outs[..|outs| - 1])
      case None => None
      case Some(ts) =>
        match outs[|outs| - 1]
        case Skip => Some(ts)
        case Emit(t) => Some(ts + [t])
        case Abort => None
  }

  /** The result of `parse`: the collected targets, or `[]` when the parse aborted. */
  function Scan(lines: seq<string>, sourceFile: string, defaultProtocol: Option<string>): seq<Target> {
    Collect(Outcomes(lines, sourceFile, defaultProtocol)).GetOr([])
  }

  /** `parse(file_path)` on the decoded file `content`. */
  method Parse(content: string, sourceFile: string, defaultProtocol: Option<string>) returns (targets: seq<Target>)
    ensures targets == Scan(SplitLines(content), sourceFile, defaultProtocol)
  {
    var lines := SplitLines(content);
    ghost var outs := Outcomes(lines, sourceFile, defaultProtocol);
    targets := [];
    var i := 0;
    while i < |lines|
      invariant 0 <= i <= |lines|
      invariant Collect(outs[..i]) == Some(targets)
    {
      var outcome := Line(lines[i], i + 1, sourceFile, defaultProtocol);
      CollectStep(outs, i, targets);
      match outcome {
        case Skip =>
        case Emit(t) => targets := targets + [t];
        case Abort =>
          AbortSticks(outs, i + 1);
          return [];
      }
      i := i + 1;
    }
    assert outs[..i] == outs;
  }

  /** One more outcome extends a run that has not aborted. */
  lemma CollectStep(outs: seq<LineOutcome>, i: nat, ts: seq<Target>)
    requires i < |outs| && Collect(outs[..i]) == Some(ts)
    ensures Collect(outs[..i + 1]) == match outs[i] case Skip => Some(ts) case Emit(t) => Some(ts + [t]) case Abort => None
  {
    assert outs[..i + 1][..i] == outs[..i];
  }

  /** Once an outcome aborts, so does every longer run of outcomes. */
  lemma {:induction false} AbortSticks(outs: seq<LineOutcome>, n: nat)
    requires n <= |outs| && Collect(outs[..n]).None?
    ensures Collect(outs).None?
    decreases |outs| - n
  {
    if n < |outs| {
      assert outs[..n + 1][..n] == outs[..n];
      AbortSticks(outs, n + 1);
    } else {
      assert outs[..n] == outs;
    }
  }

  /** Everything collected is an emission, and emissions keep their order. */
  lemma {:induction false} CollectEmitted(outs: seq<LineOutcome>)
    requires Collect(outs).Some?
    ensures var ts := Collect(outs).value;
      forall k | 0 <= k < |ts| :: exists i | 0 <= i < |outs| :: outs[i] == Emit(ts[k])
  {
    if outs != [] {
      var init := outs[..|outs| - 1];
      CollectEmitted(init);
      var ts := Collect(outs).value;
      var before := Collect(init).value;
      forall k | 0 <= k < |ts| ensures exists i | 0 <= i < |outs| :: outs[i] == Emit(ts[k]) {
        if k < |before| {
          var i :| 0 <= i < |init| && init[i] == Emit(before[k]);
          assert outs[i] == Emit(ts[k]);
        } else {
          assert outs[|outs| - 1] == Emit(ts[k]);
        }
      }
    }
  }

  /** Every emission lands in the collected targets unless the run aborted. */
  lemma {:induction false} CollectComplete(outs: seq<LineOutcome>, i: nat)
    requires Collect(outs).Some? && i < |outs| && outs[i].Emit?
    ensures outs[i].target in Collect(outs).value
  {
    var init := outs[..|outs| - 1];
    if i < |outs| - 1 {
      assert init[i] == outs[i];
      CollectComplete(init, i);
    }
  }

  /** A run aborts only if one of its outcomes is `Abort`. */
  lemma {:induction false} CollectAborts(outs: seq<LineOutcome>)
    requires Collect(outs).None?
    ensures exists i | 0 <= i < |outs| :: outs[i] == Abort
  {
    var init := outs[..|outs| - 1];
    if Collect(init).None? {
      CollectAborts(init);
      var i :| 0 <= i < |init| && init[i] == Abort;
      assert outs[i] == Abort;
    }
  }

  /** Targets of one run never share an emitting position, so with the line numbers Line puts in
      them they come out in strictly increasing line order. */
  lemma {:induction false} CollectOrdered(outs: seq<LineOutcome>)
    requires Collect(outs).Some?
    requires forall i | 0 <= i < |outs| :: outs[i].Emit? ==> outs[i].target.lineNumber == Some(i + 1)
    ensures var ts := Collect(outs).value;
      forall k | 0 <= k < |ts| :: ts[k].lineNumber.Some? && 1 <= ts[k].lineNumber.value <= |outs|
    ensures var ts := Collect(outs).value;
      forall k, m | 0 <= k < m < |ts| :: ts[k].lineNumber.value < ts[m].lineNumber.value
  {
    if outs != [] {
      var init := outs[..|outs| - 1];
      CollectOrdered(init);
      var ts := Collect(outs).value;
      var before := Collect(init).value;
      assert ts == before || ts == before + [outs[|outs| - 1].target];
      forall k | 0 <= k < |ts| ensures ts[k].lineNumber.Some? && 1 <= ts[k].lineNumber.value <= |outs| {
        if k < |before| { assert ts[k] == before[k]; }
      }
      forall k, m | 0 <= k < m < |ts| ensures ts[k].lineNumber.value < ts[m].lineNumber.value {
        assert ts[k] == before[k];
        if m < |before| { assert ts[m] == before[m]; }
      }
    }
  }

  /** A line is emitted only when, stripped, it is neither blank nor a comment and its URL has a
      network location; the record then carries source `url_list`, the line's 1-based number,
      the network location as `domain` and the parsed scheme. A line with a web scheme is kept
      verbatim, any other gets the default protocol in front. */
  lemma LineEmits(raw: string, lineNumber: nat, sourceFile: string, defaultProtocol: Option<string>)
    requires Line(raw, lineNumber, sourceFile, defaultProtocol).Emit?
    ensures var t := Line(raw, lineNumber, sourceFile, defaultProtocol).target;
      var line := Strip(raw);
      !Ignored(line)
      && (HasWebScheme(line) ==> t.url == line)
      && (!HasWebScheme(line) ==> defaultProtocol.Some? && t.url == defaultProtocol.value + "://" + line)
      && UrlParse(t.url).Some? && t.domain == UrlParse(t.url).value.netloc && t.domain != []
      && t.scheme == UrlParse(t.url).value.scheme
      && t.source == "url_list" && t.sourceFile == sourceFile && t.lineNumber == Some(lineNumber)
  {
  }

  /** Blank and comment lines produce nothing, whatever the configuration. */
  lemma IgnoredSkipped(raw: string, lineNumber: nat, sourceFile: string, defaultProtocol: Option<string>)
    requires Ignored(Strip(raw))
    ensures Line(raw, lineNumber, sourceFile, defaultProtocol) == Skip
  {
  }

  /** A bare host name on a line (`example.com`) becomes `protocol://example.com` with that host
      as its domain and the protocol, lower-cased, as its scheme. */
  lemma {:induction false} BareHostLine(host: string, protocol: string, lineNumber: nat, sourceFile: string)
    requires Strip(host) == host && !Ignored(host) && !HasWebScheme(host)
    requires forall k | 0 <= k < |host| :: !NetlocDelimiter(host[k]) && host[k] != '[' && host[k] != ']'
    requires |protocol| > 0 && IsAsciiAlpha(protocol[0]) && forall k | 0 <= k < |protocol| :: IsSchemeChar(protocol[k])
    ensures Line(host, lineNumber, sourceFile, Some(protocol))
      == Emit(Target(protocol + "://" + host, "url_list", sourceFile, host, Lower(protocol), Some(lineNumber), map[]))
  {
    ParseSchemeHost(protocol, host, "");
    assert protocol + "://" + host + "" == protocol + "://" + host;
  }

  lemma LineNumbered(raw: string, lineNumber: nat, sourceFile: string, defaultProtocol: Option<string>)
    requires Line(raw, lineNumber, sourceFile, defaultProtocol).Emit?
    ensures Line(raw, lineNumber, sourceFile, defaultProtocol).target.lineNumber == Some(lineNumber)
  {
  }

  /** Each target of a completed parse is what its own 1-based line emits. */
  lemma ScanTargets(lines: seq<string>, sourceFile: string, defaultProtocol: Option<string>)
    requires Collect(Outcomes(lines, sourceFile, defaultProtocol)).Some?
    ensures var ts := Scan(lines, sourceFile, defaultProtocol);
      forall k | 0 <= k < |ts| :: exists i | 0 <= i < |lines| ::
        ts[k].lineNumber == Some(i + 1) && Line(lines[i], i + 1, sourceFile, defaultProtocol) == Emit(ts[k])
  {
    var outs := Outcomes(lines, sourceFile, defaultProtocol);
    CollectEmitted(outs);
    var ts := Scan(lines, sourceFile, defaultProtocol);
    forall k | 0 <= k < |ts| ensures exists i | 0 <= i < |lines| ::
        ts[k].lineNumber == Some(i + 1) && Line(lines[i], i + 1, sourceFile, defaultProtocol) == Emit(ts[k])
    {
      var i :| 0 <= i < |outs| && outs[i] == Emit(ts[k]);
      EmittedAt(lines, sourceFile, defaultProtocol, i, ts[k]);
    }
  }

  lemma EmittedAt(lines: seq<string>, sourceFile: string, defaultProtocol: Option<string>, i: nat, t: Target)
    requires i < |lines| && Outcomes(lines, sourceFile, defaultProtocol)[i] == Emit(t)
    ensures t.lineNumber == Some(i + 1) && Line(lines[i], i + 1, sourceFile, defaultProtocol) == Emit(t)
  {
    LineNumbered(lines[i], i + 1, sourceFile, defaultProtocol);
  }

  /** Every line that emits a target contributes it to a completed parse: rejected lines drop
      out without stopping the loop. */
  lemma ScanComplete(lines: seq<string>, sourceFile: string, defaultProtocol: Option<string>, i: nat)
    requires Collect(Outcomes(lines, sourceFile, defaultProtocol)).Some?
    requires i < |lines| && Line(lines[i], i + 1, sourceFile, defaultProtocol).Emit?
    ensures Line(lines[i], i + 1, sourceFile, defaultProtocol).target in Scan(lines, sourceFile, defaultProtocol)
  {
    CollectComplete(Outcomes(lines, sourceFile, defaultProtocol), i);
  }

  /** Targets come out in line order: their line numbers strictly increase. */
  lemma ScanOrdered(lines: seq<string>, sourceFile: string, defaultProtocol: Option<string>)
    ensures var ts := Scan(lines, sourceFile, defaultProtocol);
      forall k, m | 0 <= k < m < |ts| :: ts[k].lineNumber.Some? && ts[m].lineNumber.Some?
        && ts[k].lineNumber.value < ts[m].lineNumber.value
  {
    var outs := Outcomes(lines, sourceFile, defaultProtocol);
    if Collect(outs).Some? {
      forall i | 0 <= i < |outs| ensures outs[i].Emit? ==> outs[i].target.lineNumber == Some(i + 1) {
        if outs[i].Emit? { LineNumbered(lines[i], i + 1, sourceFile, defaultProtocol); }
      }
      CollectOrdered(outs);
    }
  }

  /** A parse aborts to `[]` only when some non-blank, non-comment line lacks a web scheme and no
      default protocol is configured. */
  lemma ScanAborts(lines: seq<string>, sourceFile: string, defaultProtocol: Option<string>)
    requires Collect(Outcomes(lines, sourceFile, defaultProtocol)).None?
    ensures Scan(lines, sourceFile, defaultProtocol) == []
    ensures defaultProtocol.None?
    ensures exists k | 0 <= k < |lines| :: !Ignored(Strip(lines[k])) && !HasWebScheme(Strip(lines[k]))
  {
    var outs := Outcomes(lines, sourceFile, defaultProtocol);
    CollectAborts(outs);
    var i :| 0 <= i < |outs| && outs[i] == Abort;
    assert Line(lines[i], i + 1, sourceFile, defaultProtocol) == Abort;
  }
}
