/** `ScreenshotEngine`: the screenshot file naming, the bounded retry loop around one capture,
    the batch loop that checkpoints after every batch, and the resume filter. The browser is an
    oracle: for every attempt it says what the page answered and at which step, if any, an
    exception was raised. */
module Screenshot {
  import opened Text
  import opened Records
  import opened Urls

  // ---------------------------------------------------------------------------------------------
  // Screenshot paths (`_capture_viewport`)

  /** The file stem for a URL path: the path without leading and trailing slashes and with its
      inner slashes turned into underscores, `index` when nothing is left, cut to 100 characters. */
  function ShotStem(path: string): (stem: string)
    ensures 1 <= |stem| <= 100
    ensures '/' !in stem
    ensures StripChar(path, '/') == [] ==> stem == "index"
    ensures StripChar(path, '/') != [] ==>
      var flat := ReplaceChar(StripChar(path, '/'), '/', '_');
      StartsWith(flat, stem) && (|flat| <= 100 ==> stem == flat) && (|flat| > 100 ==> |stem| == 100)
  {
    var flat := ReplaceChar(StripChar(path, '/'), '/', '_');
    var name := if flat == [] then "index" else flat;
    if |name| > 100 then name[..100] else name
  }

  /** Joining one component onto a path as `pathlib` does: an empty or `.` component adds
      nothing. */
  function Join(dir: string, component: string): string {
    if component == "" || component == "." then dir else dir + "/" + component
  }

  /** The per-host directory name: the network location with every `:` turned into `_`. */
  function HostDir(netloc: string): (d: string)
    ensures |d| == |netloc| && ':' !in d
    ensures forall i | 0 <= i < |netloc| :: netloc[i] != ':' ==> d[i] == netloc[i]
  {
    ReplaceChar(netloc, ':', '_')
  }

  /** The path the screenshot of a page at parsed URL `p` in viewport `v` is written to, below
      the screenshot directory. */
  function ShotFile(shotDir: string, p: ParsedUrl, v: Viewport, stamp: string): string {
    Join(Join(Join(shotDir, HostDir(p.netloc)), ViewportName(v)), ShotStem(p.path) + "_" + stamp + ".png")
  }

  /** The file sits in `<viewport>` below the host directory and is named `<stem>_<stamp>.png`. */
  lemma ShotFileShape(shotDir: string, p: ParsedUrl, v: Viewport, stamp: string)
    ensures ShotFile(shotDir, p, v, stamp) ==
      Join(shotDir, HostDir(p.netloc)) + "/" + ViewportName(v) + "/" + ShotStem(p.path) + "_" + stamp + ".png"
  {
  }

  // ---------------------------------------------------------------------------------------------
  // One capture attempt

  /** The awaited browser calls of one attempt, in the order they run. */
  datatype Stage = NewPage | Goto | Headers | Title | Resize(viewport: Viewport) | Shot(viewport: Viewport) | Close

  /** How a step raised: Playwright's `TimeoutError`, or any other exception with its text. */
  datatype Failure = Timeout | Error(message: string)

  datatype Response = Response(status: int, headers: Headers)

  /** What the browser does on one attempt: the response `goto` returns (`None` for no
      response), the page title, the timestamp of each screenshot file, and the step that
      raises, if any. */
  datatype Attempt = Attempt(response: Option<Response>, title: string, stamp: Viewport -> string, raises: Option<(Stage, Failure)>)

  /** The capture settings the retry loop reads: which viewports are captured, `max_retries`,
      and the screenshot directory. */
  datatype CaptureConfig = CaptureConfig(desktop: bool, tablet: bool, mobile: bool, maxRetries: int, shotDir: string)

  predicate Enabled(cfg: CaptureConfig, v: Viewport) {
    match v
    case Desktop => cfg.desktop
    case Tablet => cfg.tablet
    case Mobile => cfg.mobile
  }

  /** The viewports the configuration captures. */
  function EnabledSet(cfg: CaptureConfig): (vs: set<Viewport>)
    ensures forall v :: v in vs <==> Enabled(cfg, v)
  {
    (if cfg.desktop then {Desktop} else {}) + (if cfg.tablet then {Tablet} else {}) + (if cfg.mobile then {Mobile} else {})
  }

  predicate RaisesAt(a: Attempt, s: Stage) {
    a.raises.Some? && a.raises.value.0 == s
  }

  /** The text `urlparse` raises with for an unmatched bracket. */
  const InvalidUrl: string := "Invalid IPv6 URL"

  /** The capture of one viewport: the resize for tablet and mobile, the path computation, the
      screenshot, and the entry in `screenshots`; skipped when the viewport is not enabled. */
  function ViewportStep(r: CaptureResult, parsed: Option<ParsedUrl>, a: Attempt, cfg: CaptureConfig, v: Viewport): (CaptureResult, Option<Failure>) {
    if !Enabled(cfg, v) then (r, None)
    else if v != Desktop && RaisesAt(a, Resize(v)) then (r, Some(a.raises.value.1))
    else
      match parsed
      case None => (r, Some(Error(InvalidUrl)))
      case Some(p) =>
        var path := ShotFile(cfg.shotDir, p, v, a.stamp(v));
        if RaisesAt(a, Shot(v)) then (r, Some(a.raises.value.1))
        else (r.(screenshots := Some(r.screenshots.GetOr(map[])[v := path])), None)
  }

  /** The steps after the title: the three viewports in order, `status = 'success'`, and the
      closing of the page. */
  function Capture(r: CaptureResult, parsed: Option<ParsedUrl>, a: Attempt, cfg: CaptureConfig): (CaptureResult, Option<Failure>) {
    var (r, f) := ViewportStep(r, parsed, a, cfg, Desktop);
    if f.Some? then (r, f)
    else
      var (r, f) := ViewportStep(r, parsed, a, cfg, Tablet);
      if f.Some? then (r, f)
      else
        var (r, f) := ViewportStep(r, parsed, a, cfg, Mobile);
        if f.Some? then (r, f)
        else
          var r := r.(status := Success);
          if RaisesAt(a, Close) then (r, Some(a.raises.value.1)) else (r, None)
  }

  /** One pass through the `try` block of `_capture_target`: the result as the steps that ran
      left it, and the exception that ended the pass, if any. */
  function RunAttempt(r: CaptureResult, parsed: Option<ParsedUrl>, a: Attempt, cfg: CaptureConfig): (CaptureResult, Option<Failure>) {
    if RaisesAt(a, NewPage) || RaisesAt(a, Goto) then (r, Some(a.raises.value.1))
    else
      var (r, f) :=
        match a.response
        case None => (r, None)
        case Some(resp) =>
          var r := r.(httpStatus := Some(resp.status));
          if RaisesAt(a, Headers) then (r, Some(a.raises.value.1)) else (r.(httpHeaders := Some(resp.headers)), None);
      if f.Some? then (r, f)
      else if RaisesAt(a, Title) then (r, Some(a.raises.value.1))
      else Capture(r.(pageTitle := Some(a.title)), parsed, a, cfg)
  }

  /** What `error` is set to when the last attempt fails. */
  function FailureText(f: Failure): string {
    match f
    case Timeout => "Timeout"
    case Error(m) => m
  }

  /** The retry loop from the attempt numbered `retries` on: the final result, the number of
      attempts made and the number of sleeps between them. */
  function Retry(r: CaptureResult, parsed: Option<ParsedUrl>, attempt: nat -> Attempt, cfg: CaptureConfig, retries: nat): (CaptureResult, nat, nat)
    decreases if cfg.maxRetries + 1 - retries < 0 then 0 else cfg.maxRetries + 1 - retries
  {
    if retries > cfg.maxRetries then (r, 0, 0)
    else
      var (r1, f) := RunAttempt(r, parsed, attempt(retries), cfg);
      if f.None? then (r1, 1, 0)
      else if retries + 1 > cfg.maxRetries then (r1.(status := Failed, error := Some(FailureText(f.value))), 1, 0)
      else
        var (r2, n, s) := Retry(r1, parsed, attempt, cfg, retries + 1);
        (r2, n + 1, s + 1)
  }

  /** `_capture_target(context, target)`, with `createdAt` the creation timestamp and `attempt(i)`
      the browser's behaviour on the attempt after `i` failures. Returns the result, the number
      of attempts and the number of `retry_delay` sleeps. */
  method CaptureTarget(target: Target, createdAt: string, attempt: nat -> Attempt, cfg: CaptureConfig)
    returns (result: CaptureResult, attempts: nat, sleeps: nat)
    ensures (result, attempts, sleeps) == Retry(PendingRecord(target, createdAt), UrlParse(target.url), attempt, cfg, 0)
  {
    var parsed := UrlParse(target.url);
    var step := AttemptStep(parsed, attempt, cfg);
    result, attempts, sleeps := RetryLoop(step, PendingRecord(target, createdAt), cfg.maxRetries);
    RetryIsRetryWith(PendingRecord(target, createdAt), parsed, attempt, cfg, 0);
  }

  /** One pass of the `try` block after `i` failures, as a step function of the record. */
  function AttemptStep(parsed: Option<ParsedUrl>, attempt: nat -> Attempt, cfg: CaptureConfig): (CaptureResult, nat) -> (CaptureResult, Option<Failure>) {
    (r: CaptureResult, i: nat) => RunAttempt(r, parsed, attempt(i), cfg)
  }

  /** The retry loop for any step function: the final result, the number of attempts made and
      the number of sleeps between them, from the attempt numbered `retries` on. */
  function RetryWith(step: (CaptureResult, nat) -> (CaptureResult, Option<Failure>), r: CaptureResult, maxRetries: int, retries: nat): (CaptureResult, nat, nat)
    decreases if maxRetries + 1 - retries < 0 then 0 else maxRetries + 1 - retries
  {
    if retries > maxRetries then (r, 0, 0)
    else
      var (r1, f) := step(r, retries);
      if f.None? then (r1, 1, 0)
      else if retries + 1 > maxRetries then (r1.(status := Failed, error := Some(FailureText(f.value))), 1, 0)
      else
        var (r2, n, s) := RetryWith(step, r1, maxRetries, retries + 1);
        (r2, n + 1, s + 1)
  }

  lemma {:induction false} RetryIsRetryWith(r: CaptureResult, parsed: Option<ParsedUrl>, attempt: nat -> Attempt, cfg: CaptureConfig, k: nat)
    ensures Retry(r, parsed, attempt, cfg, k) == RetryWith(AttemptStep(parsed, attempt, cfg), r, cfg.maxRetries, k)
    decreases if cfg.maxRetries + 1 - k < 0 then 0 else cfg.maxRetries + 1 - k
  {
    if k <= cfg.maxRetries {
      var (r1, f) := RunAttempt(r, parsed, attempt(k), cfg);
      assert AttemptStep(parsed, attempt, cfg)(r, k) == (r1, f);
      if f.Some? && k + 1 <= cfg.maxRetries {
        RetryIsRetryWith(r1, parsed, attempt, cfg, k + 1);
      }
    }
  }

  /** The `while retries <= max_retries` loop around one pass of the `try` block: stop
      at the first pass that raises nothing; after the last failed pass mark the record failed
      with the exception's text; sleep before every other retry. */
  method RetryLoop(step: (CaptureResult, nat) -> (CaptureResult, Option<Failure>), r0: CaptureResult, maxRetries: int)
    returns (result: CaptureResult, attempts: nat, sleeps: nat)
    ensures (result, attempts, sleeps) == RetryWith(step, r0, maxRetries, 0)
  {
    result := r0;
    attempts, sleeps := 0, 0;
    var retries: nat := 0;
    while retries <= maxRetries
      invariant attempts == retries && sleeps == retries
      invariant var (fr, fa, fs) := RetryWith(step, result, maxRetries, retries);
        RetryWith(step, r0, maxRetries, 0) == (fr, fa + attempts, fs + sleeps)
      decreases maxRetries + 1 - retries
    {
      var outcome := step(result, retries);
      attempts := attempts + 1;
      if outcome.1.None? {
        result := outcome.0;
        return;
      }
      retries := retries + 1;
      if retries > maxRetries {
        result := outcome.0.(status := Failed, error := Some(FailureText(outcome.1.value)));
        return;
      }
      result := outcome.0;
      sleeps := sleeps + 1;
    }
  }

  // ---------------------------------------------------------------------------------------------
  // What one attempt does

  /** The exception an attempt ends with. Which step raises does not depend on the record, so
      any record may be used to read it off. */
  function Raised(parsed: Option<ParsedUrl>, a: Attempt, cfg: CaptureConfig): Option<Failure> {
    RunAttempt(FailureRecord(""), parsed, a, cfg).1
  }

  lemma ViewportRaisedIndependent(r: CaptureResult, r': CaptureResult, parsed: Option<ParsedUrl>, a: Attempt, cfg: CaptureConfig, v: Viewport)
    ensures ViewportStep(r, parsed, a, cfg, v).1 == ViewportStep(r', parsed, a, cfg, v).1
  {
  }

  lemma CaptureRaisedIndependent(r: CaptureResult, r': CaptureResult, parsed: Option<ParsedUrl>, a: Attempt, cfg: CaptureConfig)
    ensures Capture(r, parsed, a, cfg).1 == Capture(r', parsed, a, cfg).1
  {
    ViewportRaisedIndependent(r, r', parsed, a, cfg, Desktop);
    var (r1, f1) := ViewportStep(r, parsed, a, cfg, Desktop);
    var (r1', f1') := ViewportStep(r', parsed, a, cfg, Desktop);
    ViewportRaisedIndependent(r1, r1', parsed, a, cfg, Tablet);
    var (r2, f2) := ViewportStep(r1, parsed, a, cfg, Tablet);
    var (r2', f2') := ViewportStep(r1', parsed, a, cfg, Tablet);
    ViewportRaisedIndependent(r2, r2', parsed, a, cfg, Mobile);
  }

  lemma RaisedIndependent(r: CaptureResult, parsed: Option<ParsedUrl>, a: Attempt, cfg: CaptureConfig)
    ensures RunAttempt(r, parsed, a, cfg).1 == Raised(parsed, a, cfg)
  {
    var r' := FailureRecord("");
    if !(RaisesAt(a, NewPage) || RaisesAt(a, Goto)) && !(a.response.Some? && RaisesAt(a, Headers)) && !RaisesAt(a, Title) {
      var rt := match a.response
        case None => r
        case Some(resp) => r.(httpStatus := Some(resp.status)).(httpHeaders := Some(resp.headers));
      var rt' := match a.response
        case None => r'
        case Some(resp) => r'.(httpStatus := Some(resp.status)).(httpHeaders := Some(resp.headers));
      CaptureRaisedIndependent(rt.(pageTitle := Some(a.title)), rt'.(pageTitle := Some(a.title)), parsed, a, cfg);
    }
  }

  function Shots(r: CaptureResult): set<Viewport> {
    if r.screenshots.Some? then r.screenshots.value.Keys else {}
  }

  /** One viewport step adds that viewport's screenshot when it does not raise, and touches
      nothing else. */
  lemma ViewportStepEffects(r: CaptureResult, parsed: Option<ParsedUrl>, a: Attempt, cfg: CaptureConfig, v: Viewport)
    requires r.screenshots.Some?
    ensures var (r1, f) := ViewportStep(r, parsed, a, cfg, v);
      r1 == r.(screenshots := r1.screenshots) && r1.screenshots.Some? &&
      Shots(r) <= Shots(r1) <= Shots(r) + {v} &&
      (f.None? ==> Shots(r1) == Shots(r) + (if Enabled(cfg, v) then {v} else {}))
  {
  }

  /** The steps after the title only add screenshots of enabled viewports and set the status. */
  lemma CaptureEffects(r: CaptureResult, parsed: Option<ParsedUrl>, a: Attempt, cfg: CaptureConfig)
    requires r.screenshots.Some?
    ensures var r1 := Capture(r, parsed, a, cfg).0;
      r1 == r.(screenshots := r1.screenshots, status := r1.status) && r1.screenshots.Some? &&
      Shots(r) <= Shots(r1) <= Shots(r) + EnabledSet(cfg)
  {
    var rc := Capture(r, parsed, a, cfg).0;
    ViewportStepEffects(r, parsed, a, cfg, Desktop);
    var (r1, f1) := ViewportStep(r, parsed, a, cfg, Desktop);
    ViewportStepEffects(r1, parsed, a, cfg, Tablet);
    var (r2, f2) := ViewportStep(r1, parsed, a, cfg, Tablet);
    ViewportStepEffects(r2, parsed, a, cfg, Mobile);
    var (r3, f3) := ViewportStep(r2, parsed, a, cfg, Mobile);
    assert Shots(r) <= Shots(r1) <= Shots(r2) <= Shots(r3);
    assert Shots(r3) <= Shots(r) + EnabledSet(cfg);
    if f1.Some? {
      assert rc == r1;
    } else if f2.Some? {
      assert rc == r2;
    } else if f3.Some? {
      assert rc == r3;
    } else {
      assert rc == r3.(status := Success);
    }
  }

  /** The steps after the title change the status only to success, and only once the three
      viewports are done: a pass that then raises did so at the closing of the page. */
  lemma CaptureStatus(r: CaptureResult, parsed: Option<ParsedUrl>, a: Attempt, cfg: CaptureConfig)
    ensures var (r1, f) := Capture(r, parsed, a, cfg);
      r1.status == r.status || (r1.status == Success && (f.None? || RaisesAt(a, Close)))
  {
    var (r1, f1) := ViewportStep(r, parsed, a, cfg, Desktop);
    var (r2, f2) := ViewportStep(r1, parsed, a, cfg, Tablet);
    var (r3, f3) := ViewportStep(r2, parsed, a, cfg, Mobile);
    assert r1.status == r.status && r2.status == r.status && r3.status == r.status;
  }

  /** When the steps after the title raise nothing, the record is successful with every enabled
      viewport captured. */
  lemma CaptureSucceeds(r: CaptureResult, parsed: Option<ParsedUrl>, a: Attempt, cfg: CaptureConfig)
    requires r.screenshots.Some? && Capture(r, parsed, a, cfg).1.None?
    ensures var r1 := Capture(r, parsed, a, cfg).0;
      r1.status == Success && Shots(r1) == Shots(r) + EnabledSet(cfg)
  {
    ViewportStepEffects(r, parsed, a, cfg, Desktop);
    var (r1, f1) := ViewportStep(r, parsed, a, cfg, Desktop);
    ViewportStepEffects(r1, parsed, a, cfg, Tablet);
    var (r2, f2) := ViewportStep(r1, parsed, a, cfg, Tablet);
    ViewportStepEffects(r2, parsed, a, cfg, Mobile);
    var (r3, f3) := ViewportStep(r2, parsed, a, cfg, Mobile);
    assert Capture(r, parsed, a, cfg).0 == r3.(status := Success);
  }

  /** An attempt keeps the target, the creation timestamp and the error; it only adds
      screenshots of enabled viewports; and one that raises nothing leaves the record marked
      successful, with the page's title, the response's status and headers when there was a
      response, and a screenshot of every enabled viewport. */
  lemma AttemptEffects(r: CaptureResult, parsed: Option<ParsedUrl>, a: Attempt, cfg: CaptureConfig)
    requires r.screenshots.Some?
    ensures var (r1, f) := RunAttempt(r, parsed, a, cfg);
      r1.target == r.target && r1.timestamp == r.timestamp && r1.error == r.error &&
      r1.screenshots.Some? && Shots(r) <= Shots(r1) <= Shots(r) + EnabledSet(cfg) &&
      (f.None? ==>
        r1.status == Success && r1.pageTitle == Some(a.title) &&
        Shots(r1) == Shots(r) + EnabledSet(cfg) &&
        (a.response.Some? ==> r1.httpStatus == Some(a.response.value.status) && r1.httpHeaders == Some(a.response.value.headers)) &&
        (a.response.None? ==> r1.httpStatus == r.httpStatus && r1.httpHeaders == r.httpHeaders))
  {
    if !(RaisesAt(a, NewPage) || RaisesAt(a, Goto)) && !(a.response.Some? && RaisesAt(a, Headers)) && !RaisesAt(a, Title) {
      var rt := match a.response
        case None => r
        case Some(resp) => r.(httpStatus := Some(resp.status)).(httpHeaders := Some(resp.headers));
      assert RunAttempt(r, parsed, a, cfg) == Capture(rt.(pageTitle := Some(a.title)), parsed, a, cfg);
      CaptureEffects(rt.(pageTitle := Some(a.title)), parsed, a, cfg);
      if Capture(rt.(pageTitle := Some(a.title)), parsed, a, cfg).1.None? {
        CaptureSucceeds(rt.(pageTitle := Some(a.title)), parsed, a, cfg);
      }
    }
  }

  /** What a pass that raises leaves behind, stage by stage: nothing when the page could not
      be opened or loaded; only the status code when reading the headers raised; the response
      fields but no title when reading the title raised; and a status changed only to success,
      only when the closing of the page raised. */
  lemma AttemptFailureEffects(r: CaptureResult, parsed: Option<ParsedUrl>, a: Attempt, cfg: CaptureConfig)
    ensures var (r1, f) := RunAttempt(r, parsed, a, cfg);
      (RaisesAt(a, NewPage) || RaisesAt(a, Goto) ==> r1 == r && f.Some?) &&
      (a.response.Some? && RaisesAt(a, Headers) ==> r1 == r.(httpStatus := Some(a.response.value.status)) && f.Some?) &&
      (RaisesAt(a, Title) ==>
        f.Some? && r1.pageTitle == r.pageTitle && r1.status == r.status && r1.screenshots == r.screenshots &&
        (a.response.Some? ==> r1.httpStatus == Some(a.response.value.status) && r1.httpHeaders == Some(a.response.value.headers)) &&
        (a.response.None? ==> r1.httpStatus == r.httpStatus && r1.httpHeaders == r.httpHeaders)) &&
      (f.Some? ==> r1.status == r.status || (r1.status == Success && RaisesAt(a, Close)))
  {
    if !(RaisesAt(a, NewPage) || RaisesAt(a, Goto)) && !(a.response.Some? && RaisesAt(a, Headers)) && !RaisesAt(a, Title) {
      var rt := match a.response
        case None => r
        case Some(resp) => r.(httpStatus := Some(resp.status)).(httpHeaders := Some(resp.headers));
      assert RunAttempt(r, parsed, a, cfg) == Capture(rt.(pageTitle := Some(a.title)), parsed, a, cfg);
      CaptureStatus(rt.(pageTitle := Some(a.title)), parsed, a, cfg);
    }
  }

  // ---------------------------------------------------------------------------------------------
  // What the retry loop does

  /** Attempts `k` up to, not including, `j` all raise. */
  predicate FailsFrom(parsed: Option<ParsedUrl>, attempt: nat -> Attempt, cfg: CaptureConfig, k: nat, j: nat) {
    forall i: nat | k <= i < j :: Raised(parsed, attempt(i), cfg).Some?
  }

  /** When attempt `j` is the first from `k` on that raises nothing, the loop makes `j - k + 1`
      attempts, sleeps between them, and ends with the record marked successful, its error
      untouched, the title of that attempt, and a screenshot of every enabled viewport. */
  lemma {:induction false} RetrySucceedsAt(r: CaptureResult, parsed: Option<ParsedUrl>, attempt: nat -> Attempt, cfg: CaptureConfig, k: nat, j: nat)
    requires r.screenshots.Some?
    requires k <= j <= cfg.maxRetries
    requires FailsFrom(parsed, attempt, cfg, k, j) && Raised(parsed, attempt(j), cfg).None?
    ensures var (rf, n, s) := Retry(r, parsed, attempt, cfg, k);
      n == j - k + 1 && s == j - k && rf.status == Success && rf.error == r.error &&
      rf.target == r.target && rf.timestamp == r.timestamp &&
      rf.pageTitle == Some(attempt(j).title) && EnabledSet(cfg) <= Shots(rf) <= Shots(r) + EnabledSet(cfg)
    decreases j - k
  {
    RaisedIndependent(r, parsed, attempt(k), cfg);
    AttemptEffects(r, parsed, attempt(k), cfg);
    var r1 := RunAttempt(r, parsed, attempt(k), cfg).0;
    if k < j {
      RetryGoesOn(r, parsed, attempt, cfg, k);
      RetrySucceedsAt(r1, parsed, attempt, cfg, k + 1, j);
      var rf := Retry(r1, parsed, attempt, cfg, k + 1).0;
      assert Shots(rf) <= Shots(r1) + EnabledSet(cfg) <= Shots(r) + EnabledSet(cfg);
    } else {
      RetryStops(r, parsed, attempt, cfg, k);
    }
  }

  /** An attempt that raises nothing ends the loop. */
  lemma RetryStops(r: CaptureResult, parsed: Option<ParsedUrl>, attempt: nat -> Attempt, cfg: CaptureConfig, k: nat)
    requires k <= cfg.maxRetries && Raised(parsed, attempt(k), cfg).None?
    ensures Retry(r, parsed, attempt, cfg, k) == (RunAttempt(r, parsed, attempt(k), cfg).0, 1, 0)
  {
    RaisedIndependent(r, parsed, attempt(k), cfg);
  }

  /** An attempt that raises before the last one is followed by a sleep and the next attempt. */
  lemma RetryGoesOn(r: CaptureResult, parsed: Option<ParsedUrl>, attempt: nat -> Attempt, cfg: CaptureConfig, k: nat)
    requires k < cfg.maxRetries && Raised(parsed, attempt(k), cfg).Some?
    ensures var rest := Retry(RunAttempt(r, parsed, attempt(k), cfg).0, parsed, attempt, cfg, k + 1);
      Retry(r, parsed, attempt, cfg, k) == (rest.0, rest.1 + 1, rest.2 + 1)
  {
    RaisedIndependent(r, parsed, attempt(k), cfg);
  }

  /** When every attempt from `k` to `max_retries` raises, the loop makes all of them, sleeps
      between them, and ends with the record marked failed, the last exception's text as its
      error, and no screenshots beyond the enabled viewports. */
  lemma {:induction false} RetryExhausted(r: CaptureResult, parsed: Option<ParsedUrl>, attempt: nat -> Attempt, cfg: CaptureConfig, k: nat)
    requires r.screenshots.Some?
    requires k <= cfg.maxRetries
    requires FailsFrom(parsed, attempt, cfg, k, cfg.maxRetries + 1)
    ensures var (rf, n, s) := Retry(r, parsed, attempt, cfg, k);
      n == cfg.maxRetries - k + 1 && s == cfg.maxRetries - k && rf.status == Failed &&
      rf.error == Some(FailureText(Raised(parsed, attempt(cfg.maxRetries), cfg).value)) &&
      rf.target == r.target && rf.timestamp == r.timestamp && Shots(rf) <= Shots(r) + EnabledSet(cfg)
    decreases cfg.maxRetries - k
  {
    RaisedIndependent(r, parsed, attempt(k), cfg);
    AttemptEffects(r, parsed, attempt(k), cfg);
    if k < cfg.maxRetries {
      var r1 := RunAttempt(r, parsed, attempt(k), cfg).0;
      RetryExhausted(r1, parsed, attempt, cfg, k + 1);
    }
  }

  /** With `max_retries >= 0` the capture of a target always concludes: it is marked successful or
      failed, after between one and `max_retries + 1` attempts with one sleep between each two;
      it is failed exactly when every attempt raised. */
  lemma CaptureConcludes(t: Target, createdAt: string, parsed: Option<ParsedUrl>, attempt: nat -> Attempt, cfg: CaptureConfig)
    requires cfg.maxRetries >= 0
    ensures var (rf, n, s) := Retry(PendingRecord(t, createdAt), parsed, attempt, cfg, 0);
      (rf.status == Success || rf.status == Failed) && 1 <= n <= cfg.maxRetries + 1 && s == n - 1 &&
      rf.target == Some(t) && rf.timestamp == Some(createdAt) && Shots(rf) <= EnabledSet(cfg) &&
      (rf.status == Failed <==> FailsFrom(parsed, attempt, cfg, 0, cfg.maxRetries + 1)) &&
      (rf.status == Success <==> rf.error.None?)
  {
    var r := PendingRecord(t, createdAt);
    if FailsFrom(parsed, attempt, cfg, 0, cfg.maxRetries + 1) {
      RetryExhausted(r, parsed, attempt, cfg, 0);
    } else {
      var j := FirstSuccess(parsed, attempt, cfg, 0);
      RetrySucceedsAt(r, parsed, attempt, cfg, 0, j);
    }
  }

  /** The first attempt from `k` on that raises nothing, when there is one up to `max_retries`. */
  function FirstSuccess(parsed: Option<ParsedUrl>, attempt: nat -> Attempt, cfg: CaptureConfig, k: nat): (j: nat)
    requires k <= cfg.maxRetries + 1
    requires !FailsFrom(parsed, attempt, cfg, k, cfg.maxRetries + 1)
    ensures k <= j <= cfg.maxRetries
    ensures FailsFrom(parsed, attempt, cfg, k, j) && Raised(parsed, attempt(j), cfg).None?
    decreases cfg.maxRetries + 1 - k
  {
    if Raised(parsed, attempt(k), cfg).None? then k else FirstSuccess(parsed, attempt, cfg, k + 1)
  }

  /** With a negative `max_retries` the loop never runs: the record stays pending. */
  lemma CaptureNeverRuns(t: Target, createdAt: string, parsed: Option<ParsedUrl>, attempt: nat -> Attempt, cfg: CaptureConfig)
    requires cfg.maxRetries < 0
    ensures Retry(PendingRecord(t, createdAt), parsed, attempt, cfg, 0) == (PendingRecord(t, createdAt), 0, 0)
  {
  }

  // ---------------------------------------------------------------------------------------------
  // The batch loop (`_capture_all_async`) and `capture_all`

  /** What happens to the capture task of one target: it raises out of `_capture_target` with
      the given text, or it runs with that creation timestamp and those attempts. */
  datatype TaskPlan = Crashes(message: string) | Runs(createdAt: string, attempt: nat -> Attempt)

  /** The record the batch loop appends for one target: the synthetic failure record for a task
      that raised, otherwise the captured record. */
  function Outcome(t: Target, plan: TaskPlan, cfg: CaptureConfig): CaptureResult {
    match plan
    case Crashes(m) => FailureRecord(m)
    case Runs(createdAt, attempt) => Retry(PendingRecord(t, createdAt), UrlParse(t.url), attempt, cfg, 0).0
  }

  /** The records for `ts` in order, `plan(i)` governing the `i`-th task. */
  function Outcomes(ts: seq<Target>, plan: nat -> TaskPlan, cfg: CaptureConfig): (rs: seq<CaptureResult>)
    ensures |rs| == |ts|
  {
    if ts == [] then [] else Outcomes(ts[..|ts| - 1], plan, cfg) + [Outcome(ts[|ts| - 1], plan(|ts| - 1), cfg)]
  }

  lemma OutcomesStep(ts: seq<Target>, i: nat, plan: nat -> TaskPlan, cfg: CaptureConfig)
    requires i < |ts|
    ensures Outcomes(ts[..i + 1], plan, cfg) == Outcomes(ts[..i], plan, cfg) + [Outcome(ts[i], plan(i), cfg)]
  {
    assert ts[..i + 1][..i] == ts[..i];
  }

  /** The `i`-th record is the outcome of the `i`-th target's task: it carries that target
      unless its task raised, in which case it has no URL. */
  lemma {:induction false} OutcomesAt(ts: seq<Target>, plan: nat -> TaskPlan, cfg: CaptureConfig, i: nat)
    requires i < |ts|
    ensures Outcomes(ts, plan, cfg)[i] == Outcome(ts[i], plan(i), cfg)
    ensures plan(i).Runs? ==> Outcomes(ts, plan, cfg)[i].target == Some(ts[i])
    ensures plan(i).Crashes? ==> UrlOf(Outcomes(ts, plan, cfg)[i]).None?
  {
    if i < |ts| - 1 {
      OutcomesAt(ts[..|ts| - 1], plan, cfg, i);
    }
    if plan(i).Runs? {
      KeepsTarget(ts[i], plan(i).createdAt, UrlParse(ts[i].url), plan(i).attempt, cfg, 0);
    }
  }

  lemma {:induction false} KeepsTarget(t: Target, createdAt: string, parsed: Option<ParsedUrl>, attempt: nat -> Attempt, cfg: CaptureConfig, k: nat)
    ensures Retry(PendingRecord(t, createdAt), parsed, attempt, cfg, k).0.target == Some(t)
  {
    RetryKeeps(PendingRecord(t, createdAt), parsed, attempt, cfg, k);
  }

  lemma {:induction false} RetryKeeps(r: CaptureResult, parsed: Option<ParsedUrl>, attempt: nat -> Attempt, cfg: CaptureConfig, k: nat)
    requires r.screenshots.Some?
    ensures Retry(r, parsed, attempt, cfg, k).0.target == r.target
    decreases if cfg.maxRetries + 1 - k < 0 then 0 else cfg.maxRetries + 1 - k
  {
    if k <= cfg.maxRetries {
      AttemptEffects(r, parsed, attempt(k), cfg);
      RetryKeeps(RunAttempt(r, parsed, attempt(k), cfg).0, parsed, attempt, cfg, k + 1);
    }
  }

  function Min(a: int, b: int): int { if a <= b then a else b }

  /** The number of batches of `w` the loop cuts `n` targets into: the length of
      `range(0, n, w)`. */
  function BatchCount(n: nat, w: nat): nat
    requires w > 0
  {
    if n == 0 then 0 else 1 + BatchCount(if n <= w then 0 else n - w, w)
  }

  /** `c` batches of `w` cover the `n` targets, and the last one is not empty. */
  lemma {:induction false} BatchCountBounds(n: nat, w: nat)
    requires w > 0
    ensures var c := BatchCount(n, w); n <= c * w && (c == 0 || (c - 1) * w < n)
  {
    if n > w {
      BatchCountBounds(n - w, w);
      var c := BatchCount(n - w, w);
      assert c > 0;
      assert (c + 1) * w == c * w + w;
      assert (c - 1) * w + w == c * w;
    }
  }

  /** The progress-file writes of the batches starting at target `i`, `i + w`, ...: after each
      batch, the earlier results and the records of every target up to that batch's end. */
  function SavesFrom(existing: seq<CaptureResult>, ts: seq<Target>, w: nat, plan: nat -> TaskPlan, cfg: CaptureConfig, i: nat): (saves: seq<seq<CaptureResult>>)
    requires w > 0
    decreases |ts| - i
  {
    if |ts| <= i then []
    else [existing + Outcomes(ts[..Min(i + w, |ts|)], plan, cfg)] + SavesFrom(existing, ts, w, plan, cfg, i + w)
  }

  /** The writes of the whole loop. */
  function Saves(existing: seq<CaptureResult>, ts: seq<Target>, w: nat, plan: nat -> TaskPlan, cfg: CaptureConfig): seq<seq<CaptureResult>>
    requires w > 0
  {
    SavesFrom(existing, ts, w, plan, cfg, 0)
  }

  /** How a capture run ends: `KeyError` on a loaded record without URL, `ValueError` from a zero
      batch step, or the results with the trace of progress-file writes. */
  datatype CaptureRun = MissingUrl | ZeroWorkers | Ran(results: seq<CaptureResult>, saves: seq<seq<CaptureResult>>)

  method CaptureOne(t: Target, plan: TaskPlan, cfg: CaptureConfig) returns (r: CaptureResult)
    ensures r == Outcome(t, plan, cfg)
  {
    match plan {
      case Crashes(m) =>
        r := FailureRecord(m);
      case Runs(createdAt, attempt) =>
        var attempts, sleeps;
        r, attempts, sleeps := CaptureTarget(t, createdAt, attempt, cfg);
    }
  }

  /** One batch: the capture tasks of targets `lo` up to `hi`, their records appended in target order. */
  method RunBatch(ts: seq<Target>, lo: nat, hi: nat, plan: nat -> TaskPlan, cfg: CaptureConfig, existing: seq<CaptureResult>, results0: seq<CaptureResult>)
    returns (results: seq<CaptureResult>)
    requires lo <= hi <= |ts|
    requires results0 == existing + Outcomes(ts[..lo], plan, cfg)
    ensures results == existing + Outcomes(ts[..hi], plan, cfg)
  {
    results := results0;
    var j := lo;
    while j < hi
      invariant lo <= j <= hi
      invariant results == existing + Outcomes(ts[..j], plan, cfg)
    {
      var r := CaptureOne(ts[j], plan(j), cfg);
      OutcomesStep(ts, j, plan, cfg);
      results := results + [r];
      j := j + 1;
    }
  }

  /** `_capture_all_async(targets, existing)` over batches of `workers` targets: the records of
      all targets after the earlier results, and one progress-file write after each batch. */
  method CaptureBatches(ts: seq<Target>, existing: seq<CaptureResult>, workers: int, plan: nat -> TaskPlan, cfg: CaptureConfig)
    returns (run: CaptureRun)
    ensures workers == 0 ==> run == ZeroWorkers
    ensures workers < 0 ==> run == Ran(existing, [])
    ensures workers > 0 ==> run == Ran(existing + Outcomes(ts, plan, cfg), Saves(existing, ts, workers, plan, cfg))
  {
    if workers == 0 {
      return ZeroWorkers;
    }
    if workers < 0 {
      return Ran(existing, []);
    }
    var results, saves := BatchLoop(ts, existing, workers, plan, cfg);
    run := Ran(results, saves);
  }

  /** The loop of `_capture_all_async` for a positive batch size. */
  method BatchLoop(ts: seq<Target>, existing: seq<CaptureResult>, workers: nat, plan: nat -> TaskPlan, cfg: CaptureConfig)
    returns (results: seq<CaptureResult>, saves: seq<seq<CaptureResult>>)
    requires workers > 0
    ensures results == existing + Outcomes(ts, plan, cfg)
    ensures saves == Saves(existing, ts, workers, plan, cfg)
  {
    results, saves := existing, [];
    var i: nat := 0;
    assert ts[..0] == [];
    while i < |ts|
      invariant results == existing + Outcomes(ts[..Min(i, |ts|)], plan, cfg)
      invariant saves + SavesFrom(existing, ts, workers, plan, cfg, i) == Saves(existing, ts, workers, plan, cfg)
      decreases |ts| - i
    {
      var hi := Min(i + workers, |ts|);
      results := RunBatch(ts, i, hi, plan, cfg, existing, results);
      SavesNext(saves, existing, ts, workers, plan, cfg, i);
      saves := saves + [results];
      i := i + workers;
    }
    assert ts[..Min(i, |ts|)] == ts;
  }

  lemma SavesNext(saves: seq<seq<CaptureResult>>, existing: seq<CaptureResult>, ts: seq<Target>, w: nat, plan: nat -> TaskPlan, cfg: CaptureConfig, i: nat)
    requires w > 0 && i < |ts|
    ensures saves + SavesFrom(existing, ts, w, plan, cfg, i)
      == (saves + [existing + Outcomes(ts[..Min(i + w, |ts|)], plan, cfg)]) + SavesFrom(existing, ts, w, plan, cfg, i + w)
  {
  }

  /** A loaded record without URL makes the resume raise `KeyError`. */
  predicate LacksUrl(loaded: seq<CaptureResult>) {
    exists i | 0 <= i < |loaded| :: UrlOf(loaded[i]).None?
  }

  /** The URLs of the loaded records. */
  function Completed(loaded: seq<CaptureResult>): set<string>
    requires !LacksUrl(loaded)
  {
    set i | 0 <= i < |loaded| :: UrlOf(loaded[i]).value
  }

  /** The targets whose URL is not among `done`, in their order. */
  function Remaining(ts: seq<Target>, done: set<string>): (rs: seq<Target>)
    ensures |rs| <= |ts|
    ensures forall t :: t in rs <==> t in ts && t.url !in done
  {
    if ts == [] then []
    else
      var rest := Remaining(ts[..|ts| - 1], done);
      assert ts == ts[..|ts| - 1] + [ts[|ts| - 1]];
      if ts[|ts| - 1].url in done then rest else rest + [ts[|ts| - 1]]
  }

  lemma {:induction false} RemainingNone(ts: seq<Target>, done: set<string>)
    requires forall t | t in ts :: t.url in done
    ensures Remaining(ts, done) == []
  {
    if ts != [] {
      RemainingNone(ts[..|ts| - 1], done);
    }
  }

  /** `capture_all(targets, resume)`, with `loaded` what `load_progress` returns. */
  method CaptureAll(ts: seq<Target>, resume: bool, loaded: seq<CaptureResult>, workers: int, plan: nat -> TaskPlan, cfg: CaptureConfig)
    returns (run: CaptureRun)
    ensures (!resume || loaded == []) && workers > 0 ==>
      run == Ran(Outcomes(ts, plan, cfg), Saves([], ts, workers, plan, cfg))
    ensures (!resume || loaded == []) && workers <= 0 ==> run == (if workers == 0 then ZeroWorkers else Ran([], []))
    ensures resume && LacksUrl(loaded) ==> run == MissingUrl
    ensures resume && loaded != [] && !LacksUrl(loaded) ==>
      var rest := Remaining(ts, Completed(loaded));
      (rest == [] ==> run == Ran(loaded, [])) &&
      (rest != [] && workers > 0 ==>
        run == Ran(loaded + Outcomes(rest, plan, cfg), Saves(loaded, rest, workers, plan, cfg))) &&
      (rest != [] && workers <= 0 ==> run == (if workers == 0 then ZeroWorkers else Ran(loaded, [])))
  {
    if resume && loaded != [] {
      if LacksUrl(loaded) {
        return MissingUrl;
      }
      var rest := Remaining(ts, Completed(loaded));
      if rest == [] {
        return Ran(loaded, []);
      }
      run := CaptureBatches(rest, loaded, workers, plan, cfg);
    } else {
      run := CaptureBatches(ts, [], workers, plan, cfg);
    }
  }

  /** A run in which some task raised leaves a record without URL, so resuming from its
      results raises `KeyError` before anything is captured. */
  lemma CrashedRunBlocksResume(ts: seq<Target>, plan: nat -> TaskPlan, cfg: CaptureConfig, i: nat)
    requires i < |ts| && plan(i).Crashes?
    ensures LacksUrl(Outcomes(ts, plan, cfg))
  {
    OutcomesAt(ts, plan, cfg, i);
  }

  /** Resuming after a run over the same targets that completed captures nothing more: every
      target's URL is among the loaded records. */
  lemma CompletedRunLeavesNothing(ts: seq<Target>, plan: nat -> TaskPlan, cfg: CaptureConfig)
    requires forall i | 0 <= i < |ts| :: plan(i).Runs?
    ensures !LacksUrl(Outcomes(ts, plan, cfg))
    ensures Remaining(ts, Completed(Outcomes(ts, plan, cfg))) == []
  {
    var rs := Outcomes(ts, plan, cfg);
    forall i | 0 <= i < |ts| ensures rs[i].target == Some(ts[i]) {
      OutcomesAt(ts, plan, cfg, i);
    }
    forall t | t in ts ensures t.url in Completed(rs) {
      var i :| 0 <= i < |ts| && ts[i] == t;
      assert UrlOf(rs[i]).value == t.url;
    }
    RemainingNone(ts, Completed(rs));
  }

  /** One progress-file write per batch of `range(i, |ts|, w)`. */
  lemma {:induction false} SavesCount(existing: seq<CaptureResult>, ts: seq<Target>, w: nat, plan: nat -> TaskPlan, cfg: CaptureConfig, i: nat)
    requires w > 0 && i <= |ts|
    ensures |SavesFrom(existing, ts, w, plan, cfg, i)| == BatchCount(|ts| - i, w)
    decreases |ts| - i
  {
    if i + w < |ts| {
      SavesCount(existing, ts, w, plan, cfg, i + w);
    }
  }

  /** Every write starts with the earlier results and the records before batch `i`. */
  lemma {:induction false} SavesExtend(existing: seq<CaptureResult>, ts: seq<Target>, w: nat, plan: nat -> TaskPlan, cfg: CaptureConfig, i: nat, k: nat)
    requires w > 0 && i <= |ts| && k < |SavesFrom(existing, ts, w, plan, cfg, i)|
    ensures existing + Outcomes(ts[..i], plan, cfg) <= SavesFrom(existing, ts, w, plan, cfg, i)[k]
    decreases |ts| - i
  {
    var hi := Min(i + w, |ts|);
    OutcomesPrefix(ts, i, hi, plan, cfg);
    if k > 0 {
      SavesExtend(existing, ts, w, plan, cfg, hi, k - 1);
    }
  }

  /** Each write extends the one before it. */
  lemma {:induction false} SavesChain(existing: seq<CaptureResult>, ts: seq<Target>, w: nat, plan: nat -> TaskPlan, cfg: CaptureConfig, i: nat, k: nat)
    requires w > 0 && i <= |ts| && 0 < k < |SavesFrom(existing, ts, w, plan, cfg, i)|
    ensures SavesFrom(existing, ts, w, plan, cfg, i)[k - 1] <= SavesFrom(existing, ts, w, plan, cfg, i)[k]
    decreases |ts| - i
  {
    var hi := i + w;
    if k > 1 {
      SavesChain(existing, ts, w, plan, cfg, hi, k - 1);
    } else {
      SavesExtend(existing, ts, w, plan, cfg, hi, 0);
    }
  }

  /** The write after the last batch holds exactly the final results. */
  lemma {:induction false} SavesLast(existing: seq<CaptureResult>, ts: seq<Target>, w: nat, plan: nat -> TaskPlan, cfg: CaptureConfig, i: nat)
    requires w > 0 && i < |ts|
    ensures var saves := SavesFrom(existing, ts, w, plan, cfg, i);
      saves != [] && saves[|saves| - 1] == existing + Outcomes(ts, plan, cfg)
    decreases |ts| - i
  {
    if i + w < |ts| {
      SavesLast(existing, ts, w, plan, cfg, i + w);
    } else {
      assert ts[..Min(i + w, |ts|)] == ts;
    }
  }

  lemma {:induction false} OutcomesPrefix(ts: seq<Target>, j: nat, k: nat, plan: nat -> TaskPlan, cfg: CaptureConfig)
    requires j <= k <= |ts|
    ensures Outcomes(ts[..j], plan, cfg) <= Outcomes(ts[..k], plan, cfg)
    decreases k - j
  {
    if j < k {
      OutcomesPrefix(ts, j, k - 1, plan, cfg);
      OutcomesStep(ts, k - 1, plan, cfg);
    }
  }
}
