/** `EnrichmentEngine`: after capture, each successful result gets the fingerprinter's findings,
    SSL certificate details, header-derived technology labels and a copy of selected headers.
    Certificate retrieval is an oracle from URL to the details it returns. */
module Enrichment {
  import opened Text
  import opened Records
  import opened TechFingerprinter

  /** The `enrichment` settings `_enrich_target` reads; `interestingHeaders` is `None` when the
      key is missing (the built-in default configuration has no such key). */
  datatype EnrichConfig = EnrichConfig(collectSsl: bool, detectTechnologies: bool, collectHeaders: bool, interestingHeaders: Option<seq<string>>)

  // ---------------------------------------------------------------------------------------------
  // `_detect_technologies`

  /** The header names whose presence reveals a WAF or CDN. */
  const WafHeaders: seq<string> := ["x-sucuri-id", "x-sucuri-cache", "cf-ray", "x-cdn", "x-edge-location"]

  predicate AnyWaf(h: Headers) {
    exists k | 0 <= k < |WafHeaders| :: HasKey(h, WafHeaders[k])
  }

  function LabelIf(c: bool, name: string): seq<string> { if c then [name] else [] }

  /** The labels read off the lower-cased `server` header. */
  function ServerLabels(server: string): seq<string> {
    LabelIf(IsSubstring("nginx", server), "Nginx") + LabelIf(IsSubstring("apache", server), "Apache") +
    LabelIf(IsSubstring("iis", server), "IIS") + LabelIf(IsSubstring("cloudflare", server), "Cloudflare")
  }

  /** The labels read off the lower-cased `x-powered-by` header. */
  function PoweredLabels(powered: string): seq<string> {
    LabelIf(IsSubstring("php", powered), "PHP") + LabelIf(IsSubstring("asp.net", powered), "ASP.NET") +
    LabelIf(IsSubstring("express", powered), "Express.js")
  }

  /** The labels from `x-aspnet-version` and `x-framework`. */
  function AspFramework(h: Headers): seq<string> {
    LabelIf(HasKey(h, "x-aspnet-version"), "ASP.NET") +
    (if HasKey(h, "x-framework") then [Lookup(h, "x-framework").value] else [])
  }

  /** The labels from `x-aspnet-version`, `x-framework` and the WAF headers. */
  function OtherLabels(h: Headers): seq<string> {
    AspFramework(h) + LabelIf(AnyWaf(h), "WAF/CDN")
  }

  function ServerOf(h: Headers): string { Lower(Lookup(h, "server").GetOr("")) }

  /** The labels read off `x-powered-by`, if present. */
  function PoweredPart(h: Headers): seq<string> {
    if HasKey(h, "x-powered-by") then PoweredLabels(Lower(Lookup(h, "x-powered-by").value)) else []
  }

  /** The labels appended before the WAF check. */
  function BeforeWaf(h: Headers): seq<string> {
    ServerLabels(ServerOf(h)) + PoweredPart(h) + AspFramework(h)
  }

  /** The labels `_detect_technologies` appends, in append order, before `list(set(..))`. */
  function RawLabels(h: Headers): seq<string> {
    BeforeWaf(h) + LabelIf(AnyWaf(h), "WAF/CDN")
  }

  /** `result.get('http_headers', {})`. */
  function HeaderList(r: CaptureResult): Headers {
    r.httpHeaders.GetOr([])
  }

  method ServerStep(server: string) returns (found: seq<string>)
    ensures found == ServerLabels(server)
  {
    ghost var nginx, apache, iis := IsSubstring("nginx", server), IsSubstring("apache", server), IsSubstring("iis", server);
    found := [];
    if IsSubstring("nginx", server) { found := found + ["Nginx"]; }
    assert found == LabelIf(nginx, "Nginx");
    if IsSubstring("apache", server) { found := found + ["Apache"]; }
    assert found == LabelIf(nginx, "Nginx") + LabelIf(apache, "Apache");
    if IsSubstring("iis", server) { found := found + ["IIS"]; }
    assert found == LabelIf(nginx, "Nginx") + LabelIf(apache, "Apache") + LabelIf(iis, "IIS");
    if IsSubstring("cloudflare", server) { found := found + ["Cloudflare"]; }
  }

  method PoweredStep(powered: string) returns (found: seq<string>)
    ensures found == PoweredLabels(powered)
  {
    found := [];
    if IsSubstring("php", powered) { found := found + ["PHP"]; }
    if IsSubstring("asp.net", powered) { found := found + ["ASP.NET"]; }
    if IsSubstring("express", powered) { found := found + ["Express.js"]; }
  }

  method OtherStep(h: Headers) returns (found: seq<string>)
    ensures found == OtherLabels(h)
  {
    found := [];
    if HasKey(h, "x-aspnet-version") { found := found + ["ASP.NET"]; }
    if HasKey(h, "x-framework") { found := found + [Lookup(h, "x-framework").value]; }
    ghost var beforeWaf := found;
    var w := 0;
    while w < |WafHeaders|
      invariant 0 <= w <= |WafHeaders|
      invariant found == beforeWaf
      invariant forall k | 0 <= k < w :: !HasKey(h, WafHeaders[k])
    {
      if HasKey(h, WafHeaders[w]) {
        found := found + ["WAF/CDN"];
        break;
      }
      w := w + 1;
    }
  }

  /** `_detect_technologies(result)`: the distinct labels, in an order the source leaves to
      the set implementation. */
  method DetectTechnologies(r: CaptureResult) returns (techs: seq<string>)
    ensures NoDuplicates(techs)
    ensures Elements(techs) == Elements(RawLabels(HeaderList(r)))
  {
    var h := HeaderList(r);
    var found := ServerStep(Lower(Lookup(h, "server").GetOr("")));
    if HasKey(h, "x-powered-by") {
      var more := PoweredStep(Lower(Lookup(h, "x-powered-by").value));
      found := found + more;
    }
    var rest := OtherStep(h);
    found := found + rest;
    techs := Distinct(found);
  }

  /** The distinct elements of `xs`, first occurrences kept. */
  method Distinct(xs: seq<string>) returns (ys: seq<string>)
    ensures NoDuplicates(ys)
    ensures Elements(ys) == Elements(xs)
  {
    ys := [];
    for i := 0 to |xs|
      invariant NoDuplicates(ys)
      invariant Elements(ys) == Elements(xs[..i])
    {
      assert xs[..i + 1] == xs[..i] + [xs[i]];
      ElementsAppend(xs[..i], xs[i]);
      if xs[i] !in ys {
        ElementsAppend(ys, xs[i]);
        ys := ys + [xs[i]];
      } else {
        assert xs[i] in Elements(ys);
      }
    }
    assert xs[..|xs|] == xs;
  }

  lemma RawMember(h: Headers, x: string)
    ensures x in RawLabels(h) <==> x in ServerLabels(ServerOf(h)) || x in PoweredPart(h) || x in OtherLabels(h)
  {
  }

  lemma ServerMember(server: string, x: string)
    ensures x in ServerLabels(server) <==>
      (x == "Nginx" && IsSubstring("nginx", server)) || (x == "Apache" && IsSubstring("apache", server)) ||
      (x == "IIS" && IsSubstring("iis", server)) || (x == "Cloudflare" && IsSubstring("cloudflare", server))
  {
  }

  lemma PoweredMember(h: Headers, x: string)
    ensures x in PoweredPart(h) ==> x == "PHP" || x == "ASP.NET" || x == "Express.js"
    ensures HasKey(h, "x-powered-by") ==>
      var powered := Lower(Lookup(h, "x-powered-by").value);
      (x in PoweredPart(h) <==>
        (x == "PHP" && IsSubstring("php", powered)) || (x == "ASP.NET" && IsSubstring("asp.net", powered)) ||
        (x == "Express.js" && IsSubstring("express", powered)))
  {
  }

  lemma OtherMember(h: Headers, x: string)
    ensures x in OtherLabels(h) <==>
      (x == "ASP.NET" && HasKey(h, "x-aspnet-version")) || (HasKey(h, "x-framework") && Lookup(h, "x-framework") == Some(x)) ||
      (x == "WAF/CDN" && AnyWaf(h))
  {
  }

  /** Each server label is reported exactly when the lower-cased `server` header contains its
      word, or `x-framework` names it verbatim. */
  lemma ServerLabelsFacts(h: Headers)
    ensures var server := ServerOf(h);
      var framework := Lookup(h, "x-framework");
      ("Nginx" in RawLabels(h) <==> IsSubstring("nginx", server) || framework == Some("Nginx")) &&
      ("Apache" in RawLabels(h) <==> IsSubstring("apache", server) || framework == Some("Apache")) &&
      ("IIS" in RawLabels(h) <==> IsSubstring("iis", server) || framework == Some("IIS")) &&
      ("Cloudflare" in RawLabels(h) <==> IsSubstring("cloudflare", server) || framework == Some("Cloudflare"))
  {
    ServerLabelFact(h, "Nginx");
    ServerLabelFact(h, "Apache");
    ServerLabelFact(h, "IIS");
    ServerLabelFact(h, "Cloudflare");
    ServerMember(ServerOf(h), "Nginx");
    ServerMember(ServerOf(h), "Apache");
    ServerMember(ServerOf(h), "IIS");
    ServerMember(ServerOf(h), "Cloudflare");
  }

  /** A label other than the powered-by ones, ASP.NET and WAF/CDN comes from `server` or from
      `x-framework`. */
  lemma ServerLabelFact(h: Headers, x: string)
    requires x != "PHP" && x != "ASP.NET" && x != "Express.js" && x != "WAF/CDN"
    ensures x in RawLabels(h) <==> x in ServerLabels(ServerOf(h)) || Lookup(h, "x-framework") == Some(x)
  {
    RawMember(h, x);
    NotPowered(h, x);
    FrameworkOnly(h, x);
  }

  lemma NotServer(server: string, x: string)
    requires x != "Nginx" && x != "Apache" && x != "IIS" && x != "Cloudflare"
    ensures x !in ServerLabels(server)
  {
  }

  lemma NotPowered(h: Headers, x: string)
    requires x != "PHP" && x != "ASP.NET" && x != "Express.js"
    ensures x !in PoweredPart(h)
  {
  }

  /** A name other than ASP.NET and WAF/CDN is among the other labels only through `x-framework`. */
  lemma FrameworkOnly(h: Headers, x: string)
    requires x != "ASP.NET" && x != "WAF/CDN"
    ensures x in OtherLabels(h) <==> Lookup(h, "x-framework") == Some(x)
  {
  }

  /** `x-powered-by` contributes PHP, ASP.NET and Express.js by substring of its lower-cased
      value; ASP.NET is also reported for `x-aspnet-version`. */
  lemma PoweredByFacts(h: Headers)
    ensures HasKey(h, "x-powered-by") ==>
      var powered := Lower(Lookup(h, "x-powered-by").value);
      (IsSubstring("php", powered) ==> "PHP" in RawLabels(h)) &&
      (IsSubstring("asp.net", powered) ==> "ASP.NET" in RawLabels(h)) &&
      (IsSubstring("express", powered) ==> "Express.js" in RawLabels(h))
    ensures HasKey(h, "x-aspnet-version") ==> "ASP.NET" in RawLabels(h)
    ensures !HasKey(h, "x-powered-by") && Lookup(h, "x-framework") != Some("PHP") ==> "PHP" !in RawLabels(h)
  {
    RawMember(h, "PHP");
    RawMember(h, "ASP.NET");
    RawMember(h, "Express.js");
    PoweredMember(h, "PHP");
    PoweredMember(h, "ASP.NET");
    PoweredMember(h, "Express.js");
    OtherMember(h, "ASP.NET");
    OtherMember(h, "PHP");
    ServerMember(ServerOf(h), "PHP");
  }

  /** `WAF/CDN` is appended at most once, as the last label, however many WAF headers are
      present; leaving `x-framework` aside, it is reported exactly when one is present. */
  lemma WafOnce(h: Headers)
    requires Lookup(h, "x-framework") != Some("WAF/CDN")
    ensures ("WAF/CDN" in RawLabels(h)) <==> AnyWaf(h)
    ensures forall i | 0 <= i < |RawLabels(h)| - 1 :: RawLabels(h)[i] != "WAF/CDN"
  {
    var w := "WAF/CDN";
    WafNotBefore(h);
    var front := BeforeWaf(h);
    var raw := RawLabels(h);
    forall i | 0 <= i < |raw| - 1 ensures raw[i] != w {
      assert raw[i] == front[i] && front[i] in front;
    }
  }

  lemma WafNotBefore(h: Headers)
    requires Lookup(h, "x-framework") != Some("WAF/CDN")
    ensures "WAF/CDN" !in BeforeWaf(h)
  {
    NotServer(ServerOf(h), "WAF/CDN");
    NotPowered(h, "WAF/CDN");
  }

  // ---------------------------------------------------------------------------------------------
  // `_extract_interesting_headers`

  /** The configured headers present in `h`, under their lower-cased names. */
  function Interesting(names: seq<string>, h: Headers): (m: map<string, string>)
    ensures forall k :: k in m <==> (exists i | 0 <= i < |names| :: Lower(names[i]) == k) && HasKey(h, k)
    ensures forall k | k in m :: m[k] == Lookup(h, k).value
  {
    if names == [] then map[]
    else
      var m := Interesting(names[..|names| - 1], h);
      var k := Lower(names[|names| - 1]);
      assert forall i | 0 <= i < |names| - 1 :: names[..|names| - 1][i] == names[i];
      if HasKey(h, k) then m[k := Lookup(h, k).value] else m
  }

  /** `_extract_interesting_headers(headers)` for the configured names. */
  method ExtractInterestingHeaders(h: Headers, names: seq<string>) returns (interesting: map<string, string>)
    ensures interesting == Interesting(names, h)
  {
    var lowered := seq(|names|, i requires 0 <= i < |names| => Lower(names[i]));
    interesting := map[];
    for i := 0 to |lowered|
      invariant interesting == Interesting(names[..i], h)
    {
      assert names[..i + 1][..i] == names[..i];
      var name := lowered[i];
      if HasKey(h, name) {
        interesting := interesting[name := Lookup(h, name).value];
      }
    }
    assert names[..|names|] == names;
  }

  // ---------------------------------------------------------------------------------------------
  // `_enrich_target` and `enrich_all`

  /** The technologies list after merging the fingerprinter's findings: each name not already
      in the list (compared as reported) is appended title-cased. */
  function AppendTitled(ts: seq<string>, ds: seq<Detection>): seq<string> {
    if ds == [] then ts
    else
      var base := AppendTitled(ts, ds[..|ds| - 1]);
      var name := ds[|ds| - 1].name;
      if name in base then base else base + [Title(name)]
  }

  /** Merging keeps the earlier list as a prefix, adds at most one entry per finding, and every
      added entry is the title-cased name of a finding. */
  lemma {:induction false} AppendTitledFacts(ts: seq<string>, ds: seq<Detection>)
    ensures ts <= AppendTitled(ts, ds)
    ensures |AppendTitled(ts, ds)| <= |ts| + |ds|
    ensures forall k | |ts| <= k < |AppendTitled(ts, ds)| :: exists d | d in ds :: AppendTitled(ts, ds)[k] == Title(d.name)
    decreases |ds|
  {
    if ds != [] {
      var front := ds[..|ds| - 1];
      AppendTitledFacts(ts, front);
      var base := AppendTitled(ts, front);
      var r := AppendTitled(ts, ds);
      forall k | |ts| <= k < |r| ensures exists d | d in ds :: r[k] == Title(d.name) {
        if k < |base| {
          var d :| d in front && base[k] == Title(d.name);
          assert r[k] == base[k] && d in ds;
        } else {
          assert r[k] == Title(ds[|ds| - 1].name);
        }
      }
    }
  }

  /** The loop's step: a finding whose raw name is already listed leaves the list unchanged;
      any other appends exactly its title-cased name. */
  lemma AppendTitledStep(ts: seq<string>, ds: seq<Detection>, i: nat)
    requires i < |ds|
    ensures ds[i].name in AppendTitled(ts, ds[..i]) ==> AppendTitled(ts, ds[..i + 1]) == AppendTitled(ts, ds[..i])
    ensures ds[i].name !in AppendTitled(ts, ds[..i]) ==>
      AppendTitled(ts, ds[..i + 1]) == AppendTitled(ts, ds[..i]) + [Title(ds[i].name)]
  {
    assert ds[..i + 1][..i] == ds[..i];
  }

  /** When no finding's name is already listed, nor equal to an earlier finding's title-cased
      name, every finding is appended, title-cased, in order. */
  lemma {:induction false} AppendTitledAll(ts: seq<string>, ds: seq<Detection>)
    requires forall i | 0 <= i < |ds| :: ds[i].name !in ts
    requires forall i, j | 0 <= j < i < |ds| :: ds[i].name != Title(ds[j].name)
    ensures AppendTitled(ts, ds) == ts + seq(|ds|, i requires 0 <= i < |ds| => Title(ds[i].name))
    decreases |ds|
  {
    if ds != [] {
      var n := |ds| - 1;
      var front := ds[..n];
      AppendTitledAll(ts, front);
      var added := seq(n, i requires 0 <= i < n => Title(front[i].name));
      assert added == seq(n, i requires 0 <= i < n => Title(ds[i].name));
      assert ds[n].name !in ts + added;
      assert seq(|ds|, i requires 0 <= i < |ds| => Title(ds[i].name)) == added + [Title(ds[n].name)];
    }
  }

  /** The membership test compares the raw name with title-cased entries, so a name that
      title-casing changes is appended again when the list already holds its title-cased form. */
  lemma TitledNameAppendedAgain()
    ensures AppendTitled(["Php"], [Detection("PHP", 50, [], "high")]) == ["Php", "Php"]
  {
    var d := Detection("PHP", 50, [], "high");
    assert [d][..0] == [];
    var t := Title("PHP");
    assert t[0] == 'P' && t[1] == 'h' && t[2] == 'p';
    assert t == "Php";
    assert "PHP" != "Php";
  }

  function AsItems(ds: seq<Detection>): (items: seq<TechItem>)
    ensures |items| == |ds| && forall i | 0 <= i < |ds| :: items[i] == Detected(ds[i])
  {
    seq(|ds|, i requires 0 <= i < |ds| => Detected(ds[i]))
  }

  /** The result after the fingerprinting step: findings recorded and merged when there are
      any. */
  function AfterFingerprint(r: CaptureResult): CaptureResult {
    var ds := Fingerprint(Signatures(), UrlOf(r).GetOr(""), ResultHeaders(r), None);
    if ds == [] then r
    else r.(detected := Some(AsItems(ds)), technologies := Some(AppendTitled(r.technologies.GetOr([]), ds)))
  }

  /** The result after the SSL step. */
  function AfterSsl(r: CaptureResult, url: string, cfg: EnrichConfig, ssl: string -> map<string, string>): CaptureResult {
    if cfg.collectSsl && StartsWith(url, "https") then r.(sslInfo := Some(ssl(url))) else r
  }

  /** `after` is `before` extended by the header-derived labels: unchanged when the step is off
      or finds nothing, otherwise the earlier list followed by the new labels, each once. */
  predicate LabelsMerged(before: CaptureResult, after: CaptureResult, cfg: EnrichConfig) {
    var labels := Elements(RawLabels(HeaderList(before)));
    if !cfg.detectTechnologies || labels == {} then after == before
    else
      var base := before.technologies.GetOr([]);
      after == before.(technologies := after.technologies) && after.technologies.Some? &&
      |base| <= |after.technologies.value| && after.technologies.value[..|base|] == base &&
      var extra := after.technologies.value[|base|..];
      NoDuplicates(extra) && Elements(extra) == labels - Elements(base)
  }

  /** Whether the interesting-headers step raises `KeyError` (configured names missing). */
  predicate HeadersStepRaises(r: CaptureResult, cfg: EnrichConfig) {
    cfg.collectHeaders && r.httpHeaders.Some? && cfg.interestingHeaders.None?
  }

  /** The result after the interesting-headers step. */
  function AfterHeaders(r: CaptureResult, cfg: EnrichConfig): CaptureResult {
    if cfg.collectHeaders && r.httpHeaders.Some? && cfg.interestingHeaders.Some?
    then r.(interestingHeaders := Some(Interesting(cfg.interestingHeaders.value, r.httpHeaders.value)))
    else r
  }

  /** What `_enrich_target` leaves in a result it is given: nothing when the result has no URL
      (the `KeyError` comes first), otherwise the four steps in order; a step that raises
      leaves the earlier steps' changes in place. */
  ghost predicate Enriched(before: CaptureResult, after: CaptureResult, cfg: EnrichConfig, ssl: string -> map<string, string>) {
    if before.target.None? then after == before
    else
      var r2 := AfterSsl(AfterFingerprint(before), before.target.value.url, cfg, ssl);
      exists r3 :: LabelsMerged(r2, r3, cfg) && after == AfterHeaders(r3, cfg)
  }

  /** `_enrich_target(result)`: the updated result and whether it raised. */
  method EnrichTarget(r: CaptureResult, cfg: EnrichConfig, ssl: string -> map<string, string>)
    returns (after: CaptureResult, raised: bool)
    ensures Enriched(r, after, cfg, ssl)
    ensures raised <==> r.target.None? || HeadersStepRaises(r, cfg)
  {
    if r.target.None? {
      return r, true;
    }
    var url := r.target.value.url;
    after := FingerprintStep(r);
    if cfg.collectSsl && StartsWith(url, "https") {
      after := after.(sslInfo := Some(ssl(url)));
    }
    ghost var r2 := after;
    after := LabelsStep(after, cfg);
    ghost var r3 := after;
    after, raised := HeadersStep(after, cfg);
    assert LabelsMerged(r2, r3, cfg) && after == AfterHeaders(r3, cfg);
  }

  /** The fingerprinting step of `_enrich_target`. */
  method FingerprintStep(r: CaptureResult) returns (after: CaptureResult)
    ensures after == AfterFingerprint(r)
  {
    var ds := FingerprintFromScreenshotResult(r);
    after := r;
    if ds != [] {
      var techs := AppendEach(r.technologies.GetOr([]), ds);
      after := after.(detected := Some(AsItems(ds)), technologies := Some(techs));
    }
  }

  /** The header-label step of `_enrich_target`. */
  method LabelsStep(r: CaptureResult, cfg: EnrichConfig) returns (after: CaptureResult)
    ensures LabelsMerged(r, after, cfg)
  {
    after := r;
    if cfg.detectTechnologies {
      var labels := DetectTechnologies(r);
      if labels != [] {
        assert labels[0] in Elements(labels);
        var base := r.technologies.GetOr([]);
        var extra := Missing(labels, base);
        after := r.(technologies := Some(base + extra));
        assert (base + extra)[..|base|] == base && (base + extra)[|base|..] == extra;
      } else {
        assert Elements(RawLabels(HeaderList(r))) == {};
      }
    }
  }

  /** The interesting-headers step of `_enrich_target`; `raised` when the configuration lacks
      the list of names. */
  method HeadersStep(r: CaptureResult, cfg: EnrichConfig) returns (after: CaptureResult, raised: bool)
    ensures after == AfterHeaders(r, cfg)
    ensures raised == HeadersStepRaises(r, cfg)
  {
    after := r;
    raised := false;
    if cfg.collectHeaders && r.httpHeaders.Some? {
      if cfg.interestingHeaders.None? {
        raised := true;
      } else {
        var interesting := ExtractInterestingHeaders(r.httpHeaders.value, cfg.interestingHeaders.value);
        after := r.(interestingHeaders := Some(interesting));
      }
    }
  }

  /** The loop appending each finding's title-cased name when its name is not in the list. */
  method AppendEach(ts: seq<string>, ds: seq<Detection>) returns (out: seq<string>)
    ensures out == AppendTitled(ts, ds)
  {
    out := ts;
    for i := 0 to |ds|
      invariant out == AppendTitled(ts, ds[..i])
    {
      assert ds[..i + 1][..i] == ds[..i];
      if ds[i].name !in out {
        out := out + [Title(ds[i].name)];
      }
    }
    assert ds[..|ds|] == ds;
  }

  /** `[t for t in labels if t not in base]`. */
  method Missing(labels: seq<string>, base: seq<string>) returns (extra: seq<string>)
    requires NoDuplicates(labels)
    ensures NoDuplicates(extra)
    ensures Elements(extra) == Elements(labels) - Elements(base)
  {
    extra := [];
    for i := 0 to |labels|
      invariant NoDuplicates(extra)
      invariant Elements(extra) == Elements(labels[..i]) - Elements(base)
      invariant forall x | x in extra :: x in labels[..i]
    {
      assert labels[..i + 1] == labels[..i] + [labels[i]];
      ElementsAppend(labels[..i], labels[i]);
      if labels[i] !in base {
        assert labels[i] !in labels[..i];
        ElementsAppend(extra, labels[i]);
        extra := extra + [labels[i]];
      }
    }
    assert labels[..|labels|] == labels;
  }

  /** `enrich_all(results)`: the same list, in which every successful result is enriched (an
      exception in one does not stop the others) and every other result is left alone. */
  method EnrichAll(results: seq<CaptureResult>, cfg: EnrichConfig, ssl: string -> map<string, string>)
    returns (out: seq<CaptureResult>)
    ensures |out| == |results|
    ensures forall i | 0 <= i < |results| :: results[i].status != Success ==> out[i] == results[i]
    ensures forall i | 0 <= i < |results| :: results[i].status == Success ==> Enriched(results[i], out[i], cfg, ssl)
  {
    out := [];
    for i := 0 to |results|
      invariant |out| == i
      invariant forall j | 0 <= j < i :: results[j].status != Success ==> out[j] == results[j]
      invariant forall j | 0 <= j < i :: results[j].status == Success ==> Enriched(results[j], out[j], cfg, ssl)
    {
      var r := results[i];
      if r.status == Success {
        var raised;
        r, raised := EnrichTarget(r, cfg, ssl);
      }
      out := out + [r];
    }
  }
}
