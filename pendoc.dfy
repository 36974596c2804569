/** The `PenDoc` application: merging the parsers' targets and removing duplicate URLs
    (`parse_inputs`), and the main flow of `run`: the stop on an empty target list, capture,
    enrichment, report data, command files and the summary counters. */
module PenDoc {
  import opened Text
  import opened Records
  import opened Counters
  import Screenshot
  import Enrichment
  import ReportBuilder
  import CommandGenerator

  // ---------------------------------------------------------------------------------------------
  // `parse_inputs`

  /** The URLs of `ts`. */
  function Urls(ts: seq<Target>): set<string> {
    set i | 0 <= i < |ts| :: ts[i].url
  }

  /** Order-preserving removal of duplicate URLs: a target is kept when no earlier target has
      its URL. */
  function Unique(ts: seq<Target>): seq<Target> {
    if ts == [] then []
    else
      var init := ts[..|ts| - 1];
      var t := ts[|ts| - 1];
      if t.url in Urls(init) then Unique(init) else Unique(init) + [t]
  }

  /** No two targets share a URL. */
  predicate DistinctUrls(ts: seq<Target>) {
    forall a, b | 0 <= a < b < |ts| :: ts[a].url != ts[b].url
  }

  /** `ts[i]` is the first target with its URL. */
  predicate FirstWithUrl(ts: seq<Target>, i: nat) {
    i < |ts| && forall j | 0 <= j < i :: ts[j].url != ts[i].url
  }

  /** The dedup loop of `parse_inputs`, with its `seen` set of URLs. */
  method Dedup(targets: seq<Target>) returns (unique: seq<Target>)
    ensures unique == Unique(targets)
  {
    unique := [];
    var seen: set<string> := {};
    for i := 0 to |targets|
      invariant unique == Unique(targets[..i])
      invariant seen == Urls(targets[..i])
    {
      assert targets[..i + 1][..i] == targets[..i];
      UrlsAppend(targets[..i], targets[i]);
      assert targets[..i + 1] == targets[..i] + [targets[i]];
      if targets[i].url !in seen {
        unique := unique + [targets[i]];
        seen := seen + {targets[i].url};
      }
    }
    assert targets[..|targets|] == targets;
  }

  lemma UrlsAppend(ts: seq<Target>, t: Target)
    ensures Urls(ts + [t]) == Urls(ts) + {t.url}
  {
    assert forall i | 0 <= i < |ts| :: (ts + [t])[i] == ts[i];
    assert (ts + [t])[|ts|] == t;
  }

  /** `parse_inputs`: the URL list's targets, then Burp's, then the subdomain list's, then
      Nmap's (an absent input contributes none), without duplicate URLs. */
  method ParseInputs(urlList: seq<Target>, burp: seq<Target>, subdomains: seq<Target>, nmap: seq<Target>)
    returns (targets: seq<Target>)
    ensures targets == Unique(urlList + burp + subdomains + nmap)
  {
    var all: seq<Target> := [];
    all := all + urlList;
    all := all + burp;
    all := all + subdomains;
    all := all + nmap;
    assert all == urlList + burp + subdomains + nmap;
    targets := Dedup(all);
  }

  /** The deduplicated list has distinct URLs and exactly the input's URLs; each of its targets
      is the first input target with that URL, and they appear in input order: `idx[k]` is the
      input position of the `k`-th kept target, and these positions increase. */
  lemma {:induction false} UniqueFacts(ts: seq<Target>) returns (idx: seq<nat>)
    ensures DistinctUrls(Unique(ts))
    ensures Urls(Unique(ts)) == Urls(ts)
    ensures |idx| == |Unique(ts)|
    ensures forall k | 0 <= k < |idx| :: FirstWithUrl(ts, idx[k]) && Unique(ts)[k] == ts[idx[k]]
    ensures forall a, b | 0 <= a < b < |idx| :: idx[a] < idx[b]
  {
    if ts == [] {
      return [];
    }
    var init := ts[..|ts| - 1];
    var t := ts[|ts| - 1];
    var u := Unique(init);
    idx := UniqueFacts(init);
    assert ts == init + [t];
    UrlsAppend(init, t);
    forall k | 0 <= k < |idx| ensures FirstWithUrl(ts, idx[k]) && Unique(ts)[k] == ts[idx[k]] {
      assert ts[idx[k]] == init[idx[k]];
      forall j | 0 <= j < idx[k] ensures ts[j].url != ts[idx[k]].url {
        assert ts[j] == init[j];
      }
    }
    if t.url !in Urls(init) {
      UrlsAppend(u, t);
      assert FirstWithUrl(ts, |init|) by {
        forall j | 0 <= j < |init| ensures ts[j].url != t.url {
          assert ts[j] == init[j];
        }
      }
      forall a, b | 0 <= a < b < |u| + 1 ensures (u + [t])[a].url != (u + [t])[b].url {
        if b == |u| {
          assert u[a].url in Urls(u);
        }
      }
      forall k | 0 <= k < |idx| ensures idx[k] < |init| {
      }
      idx := idx + [|init|];
    }
  }

  /** Deduplicating a list without duplicate URLs changes nothing; in particular dedup is
      idempotent. */
  lemma {:induction false} UniqueOfDistinct(ts: seq<Target>)
    requires DistinctUrls(ts)
    ensures Unique(ts) == ts
  {
    if ts != [] {
      var init := ts[..|ts| - 1];
      var t := ts[|ts| - 1];
      assert DistinctUrls(init);
      UniqueOfDistinct(init);
      assert t.url !in Urls(init) by {
        forall i | 0 <= i < |init| ensures init[i].url != t.url {
          assert init[i] == ts[i];
        }
      }
      assert ts == init + [t];
    }
  }

  lemma UniqueIdempotent(ts: seq<Target>)
    ensures Unique(Unique(ts)) == Unique(ts)
  {
    var _ := UniqueFacts(ts);
    UniqueOfDistinct(Unique(ts));
  }

  /** A target of an earlier source wins over every later one with the same URL: the first
      target of `earlier` with a URL is the one target with that URL that is kept. */
  lemma EarlierSourceWins(earlier: seq<Target>, later: seq<Target>, i: nat)
    requires FirstWithUrl(earlier, i)
    ensures earlier[i] in Unique(earlier + later)
    ensures forall t | t in Unique(earlier + later) && t.url == earlier[i].url :: t == earlier[i]
  {
    var ts := earlier + later;
    var u := Unique(ts);
    var idx := UniqueFacts(ts);
    assert ts[i] == earlier[i];
    assert FirstWithUrl(ts, i) by {
      forall j | 0 <= j < i ensures ts[j].url != ts[i].url { assert ts[j] == earlier[j]; }
    }
    assert earlier[i].url in Urls(ts);
    var k :| 0 <= k < |u| && u[k].url == earlier[i].url;
    assert idx[k] == i;
    forall t | t in u && t.url == earlier[i].url ensures t == earlier[i] {
      var m :| 0 <= m < |u| && u[m] == t;
    }
  }

  // ---------------------------------------------------------------------------------------------
  // `run`

  /** The configuration keys the modelled flow reads. */
  datatype Config = Config(
    capture: Screenshot.CaptureConfig,
    workers: int,
    enrich: Enrichment.EnrichConfig,
    groupByDomain: bool,
    defaultProtocol: string,
    httpPorts: seq<int>,
    httpsPorts: seq<int>)

  /** `_default_config()`, for the keys above; it has no `enrichment.interesting_headers`. */
  function DefaultConfig(shotDir: string): Config {
    Config(Screenshot.CaptureConfig(true, false, false, 2, shotDir), 5,
           Enrichment.EnrichConfig(true, true, true, None), true,
           "https", [80, 8000, 8080, 8888], [443, 8443, 9443])
  }

  /** The technology names the summary counts as CMSs (compared as given: a finding's name is
      not lower-cased). */
  const CmsNames: seq<string> := [
    "wordpress", "woocommerce", "joomla", "drupal", "sharepoint", "magento", "prestashop",
    "opencart", "typo3", "concrete5", "umbraco", "dotnetnuke", "ghost", "vbulletin", "phpbb",
    "mybb", "discourse", "confluence", "mediawiki"]

  /** The CMS names of `names`, in order. */
  function CmsOf(names: seq<string>): seq<string> {
    if names == [] then []
    else CmsOf(names[..|names| - 1]) + (if names[|names| - 1] in CmsNames then [names[|names| - 1]] else [])
  }

  /** Every CMS name mentioned by a successful result, in result order. */
  function CmsMentions(rs: seq<CaptureResult>): seq<string> {
    if rs == [] then []
    else
      var r := rs[|rs| - 1];
      CmsMentions(rs[..|rs| - 1]) + (if r.status == Success then CmsOf(CommandGenerator.TechNames(r)) else [])
  }

  /** The counters the summary prints. */
  datatype Summary = Summary(total: nat, successful: nat, failed: nat, cmsCounts: Counter<string>)

  /** What the report is built from: the groups and the statistics. */
  datatype Report = Report(groups: ReportBuilder.Groups, stats: ReportBuilder.Stats)

  /** How `run` ends: exit status 1 for an empty target list, an exception out of the capture
      (`concurrent_workers` of 0), or the full flow. */
  datatype RunOutcome =
    | NoTargets
    | CaptureRaised
    | Finished(results: seq<CaptureResult>, report: Report, files: map<CommandGenerator.Tool, string>,
               lists: CommandGenerator.TargetLists, steps: seq<(nat, string)>, summary: Summary)

  /** The records the capture returns for `targets` when it does not raise. */
  function Captured(targets: seq<Target>, cfg: Config, plan: nat -> Screenshot.TaskPlan): seq<CaptureResult> {
    if cfg.workers > 0 then Screenshot.Outcomes(targets, plan, cfg.capture) else []
  }

  /** `run(args)` from the parsed inputs on: stops before any capture when there is no target,
      captures without resuming, enriches when `collect_headers` is set, and derives the
      report data, the command files, the target lists and the summary from the final results.
      `scripts` are the run scripts already in the commands directory. */
  method Run(urlList: seq<Target>, burp: seq<Target>, subdomains: seq<Target>, nmap: seq<Target>,
             cfg: Config, plan: nat -> Screenshot.TaskPlan, ssl: string -> map<string, string>, commandsDir: string,
             scripts: set<string>)
    returns (outcome: RunOutcome)
    ensures var targets := Unique(urlList + burp + subdomains + nmap);
      (outcome == NoTargets <==> targets == []) &&
      (outcome == CaptureRaised <==> targets != [] && cfg.workers == 0) &&
      (outcome.Finished? <==> targets != [] && cfg.workers != 0)
    ensures outcome.Finished? ==>
      var targets := Unique(urlList + burp + subdomains + nmap);
      var captured := Captured(targets, cfg, plan);
      var results := outcome.results;
      |results| == |captured| &&
      (cfg.workers > 0 ==> |results| == |targets|) &&
      (forall i | 0 <= i < |results| ::
        if cfg.enrich.collectHeaders && captured[i].status == Success
        then Enrichment.Enriched(captured[i], results[i], cfg.enrich, ssl)
        else results[i] == captured[i])
    ensures outcome.Finished? ==>
      var results := outcome.results;
      outcome.summary == Summary(|Unique(urlList + burp + subdomains + nmap)|,
                                 ReportBuilder.CountStatus(results, Success),
                                 ReportBuilder.CountStatus(results, Failed),
                                 CountAll(CmsMentions(results))) &&
      outcome.summary.successful + outcome.summary.failed <= |results|
    ensures outcome.Finished? ==>
      var results := outcome.results;
      outcome.report.stats == ReportBuilder.Stats(
        |results|, ReportBuilder.CountStatus(results, Success), ReportBuilder.CountStatus(results, Failed),
        CountAll(ReportBuilder.StatusCodes(results)), CountAll(ReportBuilder.Sources(results)),
        CountAll(ReportBuilder.Technologies(results))) &&
      (cfg.groupByDomain ==> ReportBuilder.GroupKeys(outcome.report.groups) == SortedUnique(ReportBuilder.DomainKeys(results))) &&
      (!cfg.groupByDomain ==> outcome.report.groups == [("All Targets", results)]) &&
      (cfg.groupByDomain ==> forall i | 0 <= i < |outcome.report.groups| ::
        outcome.report.groups[i].1 == ReportBuilder.Group(results, outcome.report.groups[i].0))
    ensures outcome.Finished? ==> CommandGenerator.GeneratedFiles(outcome.files, outcome.results, commandsDir)
    ensures outcome.Finished? ==>
      var results := outcome.results;
      var ran := CommandGenerator.Present(CommandGenerator.ScriptOrder, scripts + CommandGenerator.Scripts(outcome.files.Keys));
      outcome.lists == CommandGenerator.TargetLists(CommandGenerator.SuccessUrls(results),
        SortedUnique(CommandGenerator.DomainsOf(results)), SortedUnique(CommandGenerator.IpsOf(results))) &&
      |outcome.steps| == |ran| && (forall k | 0 <= k < |outcome.steps| :: outcome.steps[k] == (k + 1, ran[k]))
  {
    var targets := ParseInputs(urlList, burp, subdomains, nmap);
    if targets == [] {
      return NoTargets;
    }
    var run := Screenshot.CaptureAll(targets, false, [], cfg.workers, plan, cfg.capture);
    if run.ZeroWorkers? {
      return CaptureRaised;
    }
    var results := run.results;
    ghost var captured := results;
    assert captured == Captured(targets, cfg, plan);
    if cfg.enrich.collectHeaders {
      results := Enrichment.EnrichAll(results, cfg.enrich, ssl);
    }
    var groups := ReportBuilder.Grouped(results, cfg.groupByDomain);
    var stats := ReportBuilder.GenerateStats(results);
    var files, lists, steps := CommandGenerator.GenerateAll(results, commandsDir, scripts);
    assert CommandGenerator.GeneratedFiles(files, results, commandsDir);
    var cms := CountCms(results);
    ReportBuilder.StatusCountsBound(results);
    var summary := Summary(|targets|, stats.successful, stats.failed, cms);
    outcome := Finished(results, Report(groups, stats), files, lists, steps, summary);
  }

  /** The `cms_counts` loop of `run`. */
  method CountCms(results: seq<CaptureResult>) returns (counts: Counter<string>)
    ensures counts == CountAll(CmsMentions(results))
  {
    counts := [];
    for i := 0 to |results|
      invariant counts == CountAll(CmsMentions(results[..i]))
    {
      assert results[..i + 1][..i] == results[..i];
      var r := results[i];
      if r.status == Success {
        var names := CommandGenerator.CollectNames(r);
        assert CmsMentions(results[..i + 1]) == CmsMentions(results[..i]) + CmsOf(names);
        counts := CountNames(counts, CmsMentions(results[..i]), names);
      } else {
        assert CmsMentions(results[..i + 1]) == CmsMentions(results[..i]) + [];
        assert CmsMentions(results[..i]) + [] == CmsMentions(results[..i]);
      }
    }
    assert results[..|results|] == results;
  }

  /** The inner loop: each name of one result that is a CMS name is counted. */
  method CountNames(c: Counter<string>, before: seq<string>, names: seq<string>) returns (out: Counter<string>)
    requires c == CountAll(before)
    ensures out == CountAll(before + CmsOf(names))
  {
    out := c;
    assert before + CmsOf(names[..0]) == before;
    for k := 0 to |names|
      invariant out == CountAll(before + CmsOf(names[..k]))
    {
      assert names[..k + 1][..k] == names[..k];
      if names[k] in CmsNames {
        assert before + CmsOf(names[..k + 1]) == (before + CmsOf(names[..k])) + [names[k]];
        out := Bump(out, names[k]);
      } else {
        assert CmsOf(names[..k + 1]) == CmsOf(names[..k]);
      }
    }
    assert names[..|names|] == names;
  }

  /** `cms_counts` counts only names of the CMS list, only those of successful results, and
      each mention once: its keys are CMS names, each mentioned by some successful result, and
      the counts add up to the number of mentions. */
  lemma {:induction false} CmsMentionsFacts(rs: seq<CaptureResult>)
    ensures forall x | x in CmsMentions(rs) ::
      (x in CmsNames && exists k | 0 <= k < |rs| :: rs[k].status == Success && x in CommandGenerator.TechNames(rs[k]))
    ensures Total(CountAll(CmsMentions(rs))) == |CmsMentions(rs)|
    ensures Keys(CountAll(CmsMentions(rs))) == Elements(CmsMentions(rs))
  {
    CountAllFacts(CmsMentions(rs));
    if rs != [] {
      var init := rs[..|rs| - 1];
      var r := rs[|rs| - 1];
      CmsMentionsFacts(init);
      forall x | x in CmsMentions(rs) ensures
        (x in CmsNames && exists k | 0 <= k < |rs| :: rs[k].status == Success && x in CommandGenerator.TechNames(rs[k]))
      {
        if x in CmsMentions(init) {
          var k :| 0 <= k < |init| && init[k].status == Success && x in CommandGenerator.TechNames(init[k]);
          assert rs[k] == init[k];
        } else {
          CmsOfFacts(CommandGenerator.TechNames(r));
          assert rs[|rs| - 1] == r;
        }
      }
    }
  }

  lemma {:induction false} CmsOfFacts(names: seq<string>)
    ensures forall x | x in CmsOf(names) :: x in CmsNames && x in names
  {
    if names != [] {
      CmsOfFacts(names[..|names| - 1]);
      assert forall x | x in names[..|names| - 1] :: x in names;
    }
  }

  /** Under the defaults, enrichment of a successful result that has headers raises on the
      missing `interesting_headers` list (after its earlier steps), and the run uses 5 workers
      and two retries. */
  lemma DefaultConfigFacts(shotDir: string, r: CaptureResult)
    requires r.httpHeaders.Some?
    ensures Enrichment.HeadersStepRaises(r, DefaultConfig(shotDir).enrich)
    ensures DefaultConfig(shotDir).workers == 5 && DefaultConfig(shotDir).capture.maxRetries == 2
    ensures Screenshot.EnabledSet(DefaultConfig(shotDir).capture) == {Desktop}
  {
  }
}
