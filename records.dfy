/** The records that flow through the pipeline: the target a parser emits and the capture result
    built from it (one Python dict each in the source; here one datatype each, with an optional
    field for every key that is not always present). */
module Records {
  import opened Text

  /** An HTTP header dict in insertion order; the binding made last for a key is the one a
      dict built by successive assignment holds. */
  type Headers = seq<(string, string)>

  /** `k in headers`. */
  predicate HasKey(h: Headers, k: string) {
    exists i | 0 <= i < |h| :: h[i].0 == k
  }

  /** `headers.get(k)`. */
  function Lookup(h: Headers, k: string): (r: Option<string>)
    ensures r.Some? <==> HasKey(h, k)
    ensures r.Some? ==> exists i | 0 <= i < |h| :: h[i] == (k, r.value) && forall j | i < j < |h| :: h[j].0 != k
  {
    if h == [] then None
    else if h[|h| - 1].0 == k then Some(h[|h| - 1].1)
    else
      var r := Lookup(h[..|h| - 1], k);
      assert forall i | 0 <= i < |h| - 1 :: h[..|h| - 1][i] == h[i];
      r
  }

  /** `{k.lower(): v for k, v in headers.items()}`: a later key that lowers to the same name
      overwrites an earlier one. */
  function LowerKeys(h: Headers): (m: map<string, string>)
    ensures forall k :: k in m ==> Lower(k) == k
    ensures forall k :: k in m <==> exists i | 0 <= i < |h| :: Lower(h[i].0) == k
    ensures LastValues(h, m)
  {
    if h == [] then map[]
    else
      var m := LowerKeys(h[..|h| - 1]);
      var key := Lower(h[|h| - 1].0);
      LowerIdempotent(h[|h| - 1].0);
      var front := h[..|h| - 1];
      assert forall i | 0 <= i < |h| - 1 :: front[i] == h[i];
      LastValuesStep(front, h, m);
      m[key := h[|h| - 1].1]
  }

  /** Every name in `m` holds the value of the last header of `h` whose name lowers to it. */
  predicate LastValues(h: Headers, m: map<string, string>) {
    forall k | k in m :: exists i | 0 <= i < |h| ::
      Lower(h[i].0) == k && m[k] == h[i].1 && forall j | i < j < |h| :: Lower(h[j].0) != k
  }

  lemma LastValuesStep(front: Headers, h: Headers, m: map<string, string>)
    requires |h| > 0 && front == h[..|h| - 1] && LastValues(front, m)
    ensures LastValues(h, m[Lower(h[|h| - 1].0) := h[|h| - 1].1])
  {
    var key := Lower(h[|h| - 1].0);
    var r := m[key := h[|h| - 1].1];
    forall k | k in r
      ensures exists i | 0 <= i < |h| ::
        Lower(h[i].0) == k && r[k] == h[i].1 && forall j | i < j < |h| :: Lower(h[j].0) != k
    {
      if k == key {
        assert Lower(h[|h| - 1].0) == k && r[k] == h[|h| - 1].1;
      } else {
        var i :| 0 <= i < |front| && Lower(front[i].0) == k && m[k] == front[i].1
          && forall j | i < j < |front| :: Lower(front[j].0) != k;
        assert front[i] == h[i];
        forall j | i < j < |h| ensures Lower(h[j].0) != k {
          if j < |front| { assert front[j] == h[j]; }
        }
      }
    }
  }

  lemma LowerIdempotent(s: string)
    ensures Lower(Lower(s)) == Lower(s)
  {
  }

  /** A target as a parser emits it: `url` is the deduplication key; `extras` holds the
      parser-specific string fields (`ip_address`, `port`, `service_name`, ...). */
  datatype Target = Target(
    url: string,
    source: string,
    sourceFile: string,
    domain: string,
    scheme: string,
    lineNumber: Option<nat>,
    extras: map<string, string>)

  datatype Status = Pending | Success | Failed

  datatype Viewport = Desktop | Tablet | Mobile

  function ViewportName(v: Viewport): string {
    match v
    case Desktop => "desktop"
    case Tablet => "tablet"
    case Mobile => "mobile"
  }

  /** One entry of `detected_technologies` as the fingerprinter builds it. */
  datatype Detection = Detection(name: string, confidence: nat, reasons: seq<string>, priority: string)

  /** An entry of `detected_technologies`: a fingerprinter dict, or any other value (as a result
      loaded from an earlier run may hold), known only by its `str`. */
  datatype TechItem = Detected(detection: Detection) | Plain(text: string)

  /** A capture result: the target's fields (absent in the synthetic record built for a task that
      raised) plus the keys the capture and the enrichment add. */
  datatype CaptureResult = CaptureResult(
    target: Option<Target>,
    status: Status,
    screenshots: Option<map<Viewport, string>>,
    timestamp: Option<string>,
    httpStatus: Option<int>,
    httpHeaders: Option<Headers>,
    pageTitle: Option<string>,
    error: Option<string>,
    detected: Option<seq<TechItem>>,
    technologies: Option<seq<string>>,
    sslInfo: Option<map<string, string>>,
    interestingHeaders: Option<map<string, string>>)

  /** `result.get('url')`. */
  function UrlOf(r: CaptureResult): Option<string> {
    if r.target.Some? then Some(r.target.value.url) else None
  }

  /** The record appended for a capture task that raised: `{'status': 'failed', 'error': str(e)}`. */
  function FailureRecord(message: string): CaptureResult {
    CaptureResult(None, Failed, None, None, None, None, None, Some(message), None, None, None, None)
  }

  /** The record `_capture_target` starts from: the target's fields, status pending, no
      screenshots yet, and the creation timestamp. */
  function PendingRecord(t: Target, createdAt: string): CaptureResult {
    CaptureResult(Some(t), Pending, Some(map[]), Some(createdAt), None, None, None, None, None, None, None, None)
  }
}
