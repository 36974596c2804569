/** `CommandGenerator`: sorting the successful results into CMS categories and into HTTPS and
    HTTP site lists, the `url -> domain` and safe-file-name transforms, the set of command files
    produced, and the URL, domain and IP lists written by `generate_target_lists`.  Writing the
    scripts themselves is not modelled; the master script is modelled by the numbered list of
    steps it announces. */
module CommandGenerator {
  import opened Text
  import opened Records

  // ---------------------------------------------------------------------------------------------
  // Categories

  datatype Category = WordPress | Joomla | Drupal | SharePoint | Ecommerce | OtherCms | Forum | Wiki

  /** The `cms_targets` key of each category. */
  function CategoryKey(c: Category): string {
    match c
    case WordPress => "wordpress"
    case Joomla => "joomla"
    case Drupal => "drupal"
    case SharePoint => "sharepoint"
    case Ecommerce => "ecommerce"
    case OtherCms => "other_cms"
    case Forum => "forum"
    case Wiki => "wiki"
  }

  /** The category a lower-cased technology name falls into, if any. */
  function CategoryOf(tech: string): Option<Category> {
    if tech in ["wordpress", "woocommerce"] then Some(WordPress)
    else if tech == "joomla" then Some(Joomla)
    else if tech == "drupal" then Some(Drupal)
    else if tech == "sharepoint" then Some(SharePoint)
    else if tech in ["magento", "prestashop", "opencart"] then Some(Ecommerce)
    else if tech in ["typo3", "concrete5", "umbraco", "dotnetnuke", "ghost"] then Some(OtherCms)
    else if tech in ["vbulletin", "phpbb", "mybb", "discourse"] then Some(Forum)
    else if tech in ["confluence", "mediawiki"] then Some(Wiki)
    else None
  }

  /** The name an entry of `detected_technologies` contributes: a finding's name as reported,
      any other value's text lower-cased. */
  function TechName(t: TechItem): string {
    match t
    case Detected(d) => d.name
    case Plain(text) => Lower(text)
  }

  function TechNames(r: CaptureResult): (names: seq<string>)
    ensures |names| == |r.detected.GetOr([])|
    ensures forall i | 0 <= i < |names| :: names[i] == TechName(r.detected.GetOr([])[i])
  {
    var ts := r.detected.GetOr([]);
    seq(|ts|, i requires 0 <= i < |ts| => TechName(ts[i]))
  }

  /** How many of `names` fall into category `c` once lower-cased. */
  function Hits(names: seq<string>, c: Category): nat {
    if names == [] then 0
    else Hits(names[..|names| - 1], c) + (if CategoryOf(Lower(names[|names| - 1])) == Some(c) then 1 else 0)
  }

  function Repeat(r: CaptureResult, n: nat): (rs: seq<CaptureResult>)
    ensures |rs| == n && forall i | 0 <= i < n :: rs[i] == r
  {
    seq(n, _ => r)
  }

  predicate Succeeded(r: CaptureResult) { r.status == Success }

  /** `result.get('url', '')`. */
  function UrlText(r: CaptureResult): string { UrlOf(r).GetOr("") }

  /** `cms_targets[c]`: each successful result, once per technology name of it that falls into
      `c`, in result order. */
  function CmsTargets(rs: seq<CaptureResult>, c: Category): seq<CaptureResult> {
    if rs == [] then []
    else
      var r := rs[|rs| - 1];
      CmsTargets(rs[..|rs| - 1], c) + (if Succeeded(r) then Repeat(r, Hits(TechNames(r), c)) else [])
  }

  /** `all_https_sites`: the successful results whose URL starts with `https://`. */
  function HttpsSites(rs: seq<CaptureResult>): seq<CaptureResult> {
    if rs == [] then []
    else
      var r := rs[|rs| - 1];
      HttpsSites(rs[..|rs| - 1]) + (if Succeeded(r) && StartsWith(UrlText(r), "https://") then [r] else [])
  }

  /** `all_http_sites`: the other successful results whose URL starts with `http://`. */
  function HttpSites(rs: seq<CaptureResult>): seq<CaptureResult> {
    if rs == [] then []
    else
      var r := rs[|rs| - 1];
      HttpSites(rs[..|rs| - 1]) +
        (if Succeeded(r) && !StartsWith(UrlText(r), "https://") && StartsWith(UrlText(r), "http://") then [r] else [])
  }

  /** The loop of `generate_all` that fills `cms_targets`, `all_https_sites` and
      `all_http_sites`; `cms` holds a list for every category (a `defaultdict`). */
  method Categorise(results: seq<CaptureResult>)
    returns (cms: map<Category, seq<CaptureResult>>, https: seq<CaptureResult>, http: seq<CaptureResult>)
    ensures forall c: Category :: c in cms && cms[c] == CmsTargets(results, c)
    ensures https == HttpsSites(results) && http == HttpSites(results)
  {
    cms := map[WordPress := [], Joomla := [], Drupal := [], SharePoint := [], Ecommerce := [],
               OtherCms := [], Forum := [], Wiki := []];
    https, http := [], [];
    assert forall c: Category :: c in cms && cms[c] == [] by {
      forall c: Category ensures c in cms && cms[c] == [] {
        match c
        case WordPress => case Joomla => case Drupal => case SharePoint =>
        case Ecommerce => case OtherCms => case Forum => case Wiki =>
      }
    }
    for i := 0 to |results|
      invariant forall c: Category :: c in cms && cms[c] == CmsTargets(results[..i], c)
      invariant https == HttpsSites(results[..i]) && http == HttpSites(results[..i])
    {
      assert results[..i + 1][..i] == results[..i];
      var r := results[i];
      if r.status != Success {
        continue;
      }
      var url := UrlText(r);
      var names := CollectNames(r);
      cms := AddHits(cms, r, names);
      if StartsWith(url, "https://") {
        https := https + [r];
      } else if StartsWith(url, "http://") {
        http := http + [r];
      }
    }
    assert results[..|results|] == results;
  }

  /** The inner loop of `generate_all`: `r` is appended to the list of the category of each of
      `names` that has one. */
  method AddHits(cms: map<Category, seq<CaptureResult>>, r: CaptureResult, names: seq<string>)
    returns (out: map<Category, seq<CaptureResult>>)
    requires forall c: Category :: c in cms
    ensures forall c: Category :: c in out && out[c] == cms[c] + Repeat(r, Hits(names, c))
  {
    out := cms;
    for k := 0 to |names|
      invariant forall c: Category :: c in out && out[c] == cms[c] + Repeat(r, Hits(names[..k], c))
    {
      assert names[..k + 1][..k] == names[..k];
      var cat := CategoryOf(Lower(names[k]));
      forall c: Category ensures Repeat(r, Hits(names[..k + 1], c)) ==
        Repeat(r, Hits(names[..k], c)) + (if cat == Some(c) then [r] else []) {
        HitsStep(names, k, c);
        RepeatAppend(r, Hits(names[..k], c));
      }
      if cat.Some? {
        out := out[cat.value := out[cat.value] + [r]];
      }
    }
    assert names[..|names|] == names;
  }

  lemma HitsStep(names: seq<string>, k: nat, c: Category)
    requires k < |names|
    ensures Hits(names[..k + 1], c) == Hits(names[..k], c) + (if CategoryOf(Lower(names[k])) == Some(c) then 1 else 0)
  {
    assert names[..k + 1][..k] == names[..k];
  }

  lemma RepeatAppend(r: CaptureResult, n: nat)
    ensures Repeat(r, n + 1) == Repeat(r, n) + [r]
  {
  }

  /** The loop building `tech_names`. */
  method CollectNames(r: CaptureResult) returns (names: seq<string>)
    ensures names == TechNames(r)
  {
    var ts := r.detected.GetOr([]);
    names := [];
    for i := 0 to |ts|
      invariant |names| == i && forall j | 0 <= j < i :: names[j] == TechName(ts[j])
    {
      names := names + [TechName(ts[i])];
    }
  }

  // ---------------------------------------------------------------------------------------------
  // The files `generate_all` reports

  /** The keys of the dictionary `generate_all` returns. */
  datatype Tool = Testssl | Nikto | Wpscan | Joomscan | Droopescan | SharePointEnum | Nuclei | Targets

  function ToolKey(t: Tool): string {
    match t
    case Testssl => "testssl"
    case Nikto => "nikto"
    case Wpscan => "wpscan"
    case Joomscan => "joomscan"
    case Droopescan => "droopescan"
    case SharePointEnum => "sharepoint"
    case Nuclei => "nuclei"
    case Targets => "targets"
  }

  /** The file each key names. */
  function FileName(t: Tool): string {
    match t
    case Testssl => "testssl_cmds.txt"
    case Nikto => "nikto_targets.txt"
    case Wpscan => "run_wpscan.sh"
    case Joomscan => "run_joomscan.sh"
    case Droopescan => "run_droopescan.sh"
    case SharePointEnum => "run_sharepoint_enum.sh"
    case Nuclei => "run_nuclei.sh"
    case Targets => "all_targets.txt"
  }

  /** `str(commands_dir / name)`. */
  function FilePath(commandsDir: string, name: string): string { commandsDir + "/" + name }

  /** The key `t` when `c` holds. */
  function When(c: bool, t: Tool): (ts: set<Tool>)
    ensures forall x :: x in ts <==> c && x == t
  {
    if c then {t} else {}
  }

  /** The keys produced, given whether there are HTTPS sites, any sites, and WordPress,
      Joomla, Drupal and SharePoint targets. */
  function ToolsFor(anyHttps: bool, anySite: bool, wp: bool, joomla: bool, drupal: bool, sharepoint: bool)
    : (ts: set<Tool>)
    ensures Testssl in ts <==> anyHttps
    ensures Nikto in ts <==> anySite
    ensures Nuclei in ts <==> anySite
    ensures Wpscan in ts <==> wp
    ensures Joomscan in ts <==> joomla
    ensures Droopescan in ts <==> drupal
    ensures SharePointEnum in ts <==> sharepoint
    ensures Targets in ts
  {
    {Targets} + When(anyHttps, Testssl) + When(anySite, Nikto) + When(wp, Wpscan) +
      When(joomla, Joomscan) + When(drupal, Droopescan) + When(sharepoint, SharePointEnum) +
      When(anySite, Nuclei)
  }

  /** The command files `generate_all(results)` produces: a file for a tool exactly when its
      category of targets is not empty, the target lists always, each at its path under
      `commandsDir`. */
  predicate GeneratedFiles(files: map<Tool, string>, results: seq<CaptureResult>, commandsDir: string) {
    (Testssl in files <==> HttpsSites(results) != []) &&
    (Nikto in files <==> HttpsSites(results) != [] || HttpSites(results) != []) &&
    (Nuclei in files <==> HttpsSites(results) != [] || HttpSites(results) != []) &&
    (Wpscan in files <==> CmsTargets(results, WordPress) != []) &&
    (Joomscan in files <==> CmsTargets(results, Joomla) != []) &&
    (Droopescan in files <==> CmsTargets(results, Drupal) != []) &&
    (SharePointEnum in files <==> CmsTargets(results, SharePoint) != []) &&
    Targets in files &&
    (forall t | t in files :: files[t] == FilePath(commandsDir, FileName(t)))
  }

  /** The script each key's generator writes into the commands directory; for `Targets` it is
      the master script, which is open for writing before the master script looks for the
      others. */
  function ScriptOf(t: Tool): string {
    match t
    case Testssl => "run_testssl.sh"
    case Nikto => "run_nikto.sh"
    case Wpscan => "run_wpscan.sh"
    case Joomscan => "run_joomscan.sh"
    case Droopescan => "run_droopescan.sh"
    case SharePointEnum => "run_sharepoint_enum.sh"
    case Nuclei => "run_nuclei.sh"
    case Targets => "run_all_scans.sh"
  }

  /** The scripts written for the keys `tools`. */
  function Scripts(tools: set<Tool>): set<string> {
    set t | t in tools :: ScriptOf(t)
  }

  /** `generate_all(results)`: the command files produced, keyed by tool (the key of `t` is
      `ToolKey(t)`), and what its final call `generate_target_lists(results)` writes. The master
      script tests which scripts exist in the commands directory: those written now and `before`,
      the ones an earlier run left there. */
  method GenerateAll(results: seq<CaptureResult>, commandsDir: string, before: set<string>)
    returns (files: map<Tool, string>, lists: TargetLists, steps: seq<(nat, string)>)
    ensures Testssl in files <==> HttpsSites(results) != []
    ensures Nikto in files <==> HttpsSites(results) != [] || HttpSites(results) != []
    ensures Nuclei in files <==> HttpsSites(results) != [] || HttpSites(results) != []
    ensures Wpscan in files <==> CmsTargets(results, WordPress) != []
    ensures Joomscan in files <==> CmsTargets(results, Joomla) != []
    ensures Droopescan in files <==> CmsTargets(results, Drupal) != []
    ensures SharePointEnum in files <==> CmsTargets(results, SharePoint) != []
    ensures Targets in files
    ensures forall t | t in files :: files[t] == FilePath(commandsDir, FileName(t))
    ensures lists == TargetLists(SuccessUrls(results), SortedUnique(DomainsOf(results)), SortedUnique(IpsOf(results)))
    ensures |steps| == |Present(ScriptOrder, before + Scripts(files.Keys))|
    ensures forall k | 0 <= k < |steps| :: steps[k] == (k + 1, Present(ScriptOrder, before + Scripts(files.Keys))[k])
  {
    var cms, https, http := Categorise(results);
    var tools := ToolsFor(https != [], https != [] || http != [], cms[WordPress] != [], cms[Joomla] != [],
                          cms[Drupal] != [], cms[SharePoint] != []);
    files := map t | t in tools :: FilePath(commandsDir, FileName(t));
    assert files.Keys == tools;
    lists, steps := GenerateTargetLists(results, before + Scripts(tools));
  }

  // ---------------------------------------------------------------------------------------------
  // Domains and file names

  /** `url.replace('https://', '').replace('http://', '').split('/')[0]`. */
  function Domain(url: string): (d: string)
    ensures '/' !in d
  {
    BeforeFirst(ReplaceAll(ReplaceAll(url, "https://", ""), "http://", ""), '/')
  }

  /** `domain.replace(':', '_').replace('/', '_')`: the stem of the `wpscan_<stem>.txt` report each
      line of the wpscan script writes. The script texts are not modelled, so nothing else here
      uses it. */
  function SafeFilename(domain: string): (s: string)
    ensures |s| == |domain|
    ensures ':' !in s && '/' !in s
    ensures forall i | 0 <= i < |domain| :: s[i] == (if domain[i] == ':' || domain[i] == '/' then '_' else domain[i])
  {
    ReplaceChar(ReplaceChar(domain, ':', '_'), '/', '_')
  }

  /** Removing a pattern leaves a prefix alone when no occurrence starts inside it. */
  lemma {:induction false} ReplaceAllSkip(a: string, b: string, p: string)
    requires |p| > 0
    requires forall i | 0 <= i < |a| :: !StartsWith((a + b)[i..], p)
    ensures ReplaceAll(a + b, p, "") == a + ReplaceAll(b, p, "")
    decreases |a|
  {
    if a != [] {
      assert (a + b)[1..] == a[1..] + b;
      assert !StartsWith((a + b)[0..], p);
      assert (a + b)[0..] == a + b;
      forall i | 0 <= i < |a[1..]| ensures !StartsWith((a[1..] + b)[i..], p) {
        assert (a[1..] + b)[i..] == (a + b)[i + 1..];
      }
      ReplaceAllSkip(a[1..], b, p);
      if |a + b| >= |p| {
        assert (a + b)[..|p|] != p;
      }
    }
  }

  /** Removing a pattern that does not start with `/` from a text that does keeps that `/`
      in front. */
  lemma SlashStays(t: string, p: string)
    requires |p| > 0 && p[0] != '/'
    requires t == [] || t[0] == '/'
    ensures ReplaceAll(t, p, "") == [] || ReplaceAll(t, p, "")[0] == '/'
  {
  }

  /** No `https://` or `http://` starts inside a host without `/` that does not end with `:`
      when what follows it is empty or starts with `/`. */
  lemma NoMatchInHost(host: string, tail: string, p: string)
    requires p == "https://" || p == "http://"
    requires '/' !in host && (host == [] || host[|host| - 1] != ':')
    requires tail == [] || tail[0] == '/'
    ensures forall i | 0 <= i < |host| :: !StartsWith((host + tail)[i..], p)
  {
    var k := |p| - 2;
    assert p[k] == '/' && p[k - 1] == ':' && forall m | 0 <= m < k :: p[m] != '/';
    var s := host + tail;
    forall i | 0 <= i < |host| ensures !StartsWith(s[i..], p) {
      if i + |p| <= |s| {
        var m := if i + k < |host| then k else if |host| - i < k then |host| - i else k - 1;
        assert s[i..][m] == s[i + m];
        if i + k < |host| {
          assert s[i + k] == host[i + k] && host[i + k] in host;
        } else if |host| - i < k {
          assert s[i + m] == tail[0];
        } else {
          assert s[i + m] == host[|host| - 1];
        }
        assert s[i..][m] != p[m];
      }
    }
  }

  /** The domain of `http://host...` or `https://host...` is the host, when the host has no `/`
      and does not end with `:` (a host ending with `:` could join the following `//` into one
      more `http://` to remove). */
  lemma DomainOfUrl(scheme: string, host: string, tail: string)
    requires scheme == "http" || scheme == "https"
    requires '/' !in host && (host == [] || host[|host| - 1] != ':')
    requires tail == [] || tail[0] == '/'
    ensures Domain(scheme + "://" + host + tail) == host
  {
    var p1, p2 := "https://", "http://";
    var t1 := ReplaceAll(tail, p1, "");
    var t2 := ReplaceAll(t1, p2, "");
    SlashStays(tail, p1);
    SlashStays(t1, p2);
    NoMatchInHost(host, tail, p1);
    ReplaceAllSkip(host, tail, p1);
    NoMatchInHost(host, t1, p2);
    ReplaceAllSkip(host, t1, p2);
    var url := scheme + "://" + host + tail;
    assert url == scheme + "://" + (host + tail);
    if scheme == "https" {
      PassesHttps(host + tail, host + t1, host + t2);
    } else {
      PassesHttp(host + tail, host + t1, host + t2);
    }
    assert ReplaceAll(ReplaceAll(url, p1, ""), p2, "") == host + t2;
    HostBeforeSlash(host, t2);
  }

  lemma PassesHttps(rest: string, r1: string, r2: string)
    requires ReplaceAll(rest, "https://", "") == r1 && ReplaceAll(r1, "http://", "") == r2
    ensures ReplaceAll(ReplaceAll("https" + "://" + rest, "https://", ""), "http://", "") == r2
  {
    assert "https" + "://" + rest == "https://" + rest;
    StripPrefix("https://", rest);
  }

  lemma PassesHttp(rest: string, r1: string, r2: string)
    requires ReplaceAll(rest, "https://", "") == r1 && ReplaceAll(r1, "http://", "") == r2
    ensures ReplaceAll(ReplaceAll("http" + "://" + rest, "https://", ""), "http://", "") == r2
  {
    assert "http" + "://" + rest == "http://" + rest;
    HttpUnderHttps(rest);
    StripPrefix("http://", r1);
  }

  lemma HostBeforeSlash(host: string, t: string)
    requires '/' !in host && (t == [] || t[0] == '/')
    ensures BeforeFirst(host + t, '/') == host
  {
    BeforeFirstAppend(host, t, '/');
    assert BeforeFirst(t, '/') == [];
  }

  lemma StripPrefix(p: string, rest: string)
    requires |p| > 0
    ensures ReplaceAll(p + rest, p, "") == ReplaceAll(rest, p, "")
  {
    assert (p + rest)[..|p|] == p;
    assert (p + rest)[|p|..] == rest;
  }

  /** Removing `https://` leaves a leading `http://` in place. */
  lemma HttpUnderHttps(rest: string)
    ensures ReplaceAll("http://" + rest, "https://", "") == "http://" + ReplaceAll(rest, "https://", "")
  {
    var a, p1 := "http://", "https://";
    var u := a + rest;
    forall i | 0 <= i < |a| ensures !StartsWith(u[i..], p1) {
      if i + |p1| <= |u| {
        if i == 0 {
          assert u[4] == a[4] == ':';
          assert u[i..][4] == u[4] != p1[4];
        } else {
          assert u[i..][0] == a[i] && a[i] != 'h';
        }
      }
    }
    ReplaceAllSkip(a, rest, p1);
  }

  // ---------------------------------------------------------------------------------------------
  // `generate_target_lists`

  /** The lines of `all_targets.txt`: the URL of every successful result, in order. */
  function SuccessUrls(rs: seq<CaptureResult>): seq<string> {
    if rs == [] then []
    else
      var r := rs[|rs| - 1];
      SuccessUrls(rs[..|rs| - 1]) + (if Succeeded(r) then [UrlText(r)] else [])
  }

  /** The domains of the successful results, in result order and with repetitions. */
  function DomainsOf(rs: seq<CaptureResult>): seq<string> {
    if rs == [] then []
    else
      var r := rs[|rs| - 1];
      DomainsOf(rs[..|rs| - 1]) + (if Succeeded(r) then [Domain(UrlText(r))] else [])
  }

  /** `result.get('domain', '')`. */
  function DomainField(r: CaptureResult): string {
    if r.target.Some? then r.target.value.domain else ""
  }

  /** `all(c in '0123456789.:' for c in domain)`; true of the empty domain. */
  predicate IpLike(domain: string) {
    forall i | 0 <= i < |domain| :: domain[i] in "0123456789.:"
  }

  /** The candidate IPs of the successful results: the part before the first `:` of every
      `domain` field made of digits, dots and colons only. */
  function IpsOf(rs: seq<CaptureResult>): seq<string> {
    if rs == [] then []
    else
      var r := rs[|rs| - 1];
      IpsOf(rs[..|rs| - 1]) + (if Succeeded(r) && IpLike(DomainField(r)) then [BeforeFirst(DomainField(r), ':')] else [])
  }

  /** The lists `generate_target_lists` writes: `ips` is empty when no `ips.txt` is written. */
  datatype TargetLists = TargetLists(allUrls: seq<string>, domains: seq<string>, ips: seq<string>)

  /** `generate_target_lists(results)`: the URL list in order; `domains.txt` and `ips.txt` as the
      sorted sets `sorted(set(...))` (so exactly `SortedUnique`); the steps of the master script
      for the scripts found in the commands directory. */
  method GenerateTargetLists(results: seq<CaptureResult>, present: set<string>)
    returns (lists: TargetLists, steps: seq<(nat, string)>)
    ensures lists == TargetLists(SuccessUrls(results), SortedUnique(DomainsOf(results)), SortedUnique(IpsOf(results)))
    ensures |steps| == |Present(ScriptOrder, present)|
    ensures forall k | 0 <= k < |steps| :: steps[k] == (k + 1, Present(ScriptOrder, present)[k])
  {
    var urls: seq<string> := [];
    var domains: set<string> := {};
    var ips: set<string> := {};
    for i := 0 to |results|
      invariant urls == SuccessUrls(results[..i])
      invariant domains == Elements(DomainsOf(results[..i]))
      invariant ips == Elements(IpsOf(results[..i]))
    {
      assert results[..i + 1][..i] == results[..i];
      var r := results[i];
      if r.status == Success {
        urls := urls + [UrlText(r)];
        ElementsAppend(DomainsOf(results[..i]), Domain(UrlText(r)));
        domains := domains + {Domain(UrlText(r))};
        var d := DomainField(r);
        if IpLike(d) {
          ElementsAppend(IpsOf(results[..i]), BeforeFirst(d, ':'));
          ips := ips + {BeforeFirst(d, ':')};
        }
      }
    }
    assert results[..|results|] == results;
    var sortedDomains := SortSet(domains);
    SortedUniqueDetermined(sortedDomains, SortedUnique(DomainsOf(results)));
    var sortedIps := SortSet(ips);
    SortedUniqueDetermined(sortedIps, SortedUnique(IpsOf(results)));
    lists := TargetLists(urls, sortedDomains, sortedIps);
    steps := MasterSteps(present);
  }

  /** The scripts the master script runs, in its order. */
  const ScriptOrder: seq<string> := ["run_testssl.sh", "run_nikto.sh", "run_nuclei.sh", "run_wpscan.sh",
                                     "run_joomscan.sh", "run_droopescan.sh", "run_sharepoint_enum.sh"]

  /** The entries of `names` found in `present`, in order. */
  function Present(names: seq<string>, present: set<string>): seq<string> {
    if names == [] then []
    else Present(names[..|names| - 1], present) + (if names[|names| - 1] in present then [names[|names| - 1]] else [])
  }

  /** A name is kept by `Present` exactly when it is listed and present. */
  lemma {:induction false} PresentMembers(names: seq<string>, present: set<string>, x: string)
    ensures x in Present(names, present) <==> x in names && x in present
  {
    if names != [] {
      var init := names[..|names| - 1];
      PresentMembers(init, present, x);
      assert names == init + [names[|names| - 1]];
    }
  }

  /** The master script runs the script of a generated tool, and a script of a tool not
      generated this time only when an earlier run left it in the directory. */
  lemma MasterRunsGenerated(tools: set<Tool>, before: set<string>, t: Tool)
    requires t != Targets
    ensures ScriptOf(t) in Present(ScriptOrder, before + Scripts(tools)) <==> t in tools || ScriptOf(t) in before
  {
    PresentMembers(ScriptOrder, before + Scripts(tools), ScriptOf(t));
    ScriptListed(t);
    if ScriptOf(t) in Scripts(tools) {
      var u :| u in tools && ScriptOf(u) == ScriptOf(t);
      ScriptOfInjective(u, t);
    }
  }

  lemma ScriptListed(t: Tool)
    requires t != Targets
    ensures ScriptOf(t) in ScriptOrder
  {
    match t
    case Testssl => assert ScriptOrder[0] == ScriptOf(t);
    case Nikto => assert ScriptOrder[1] == ScriptOf(t);
    case Nuclei => assert ScriptOrder[2] == ScriptOf(t);
    case Wpscan => assert ScriptOrder[3] == ScriptOf(t);
    case Joomscan => assert ScriptOrder[4] == ScriptOf(t);
    case Droopescan => assert ScriptOrder[5] == ScriptOf(t);
    case SharePointEnum => assert ScriptOrder[6] == ScriptOf(t);
  }

  /** Different keys write different scripts: the names differ in length or in their fifth
      character. */
  lemma ScriptOfInjective(u: Tool, t: Tool)
    ensures ScriptOf(u) == ScriptOf(t) ==> u == t
  {
    if ScriptOf(u) == ScriptOf(t) {
      assert |ScriptOf(u)| == |ScriptOf(t)|;
      assert ScriptOf(u)[4] == ScriptOf(t)[4];
    }
  }

  /** The `step` counter of the master script: each script that exists gets the next number,
      starting from 1. */
  method MasterSteps(present: set<string>) returns (steps: seq<(nat, string)>)
    ensures |steps| == |Present(ScriptOrder, present)|
    ensures forall k | 0 <= k < |steps| :: steps[k] == (k + 1, Present(ScriptOrder, present)[k])
  {
    var step := 1;
    steps := [];
    for i := 0 to |ScriptOrder|
      invariant step == |steps| + 1
      invariant |steps| == |Present(ScriptOrder[..i], present)|
      invariant forall k | 0 <= k < |steps| :: steps[k] == (k + 1, Present(ScriptOrder[..i], present)[k])
    {
      assert ScriptOrder[..i + 1][..i] == ScriptOrder[..i];
      if ScriptOrder[i] in present {
        steps := steps + [(step, ScriptOrder[i])];
        step := step + 1;
      }
    }
    assert ScriptOrder[..|ScriptOrder|] == ScriptOrder;
  }

  // ---------------------------------------------------------------------------------------------
  // Properties

  /** A result is an HTTPS site exactly when it succeeded and its URL starts with `https://`, and
      an HTTP site exactly when it succeeded and its URL starts with `http://` but not
      `https://`; no result is in both lists, and together they hold at most every result. */
  lemma {:induction false} SitesMembership(rs: seq<CaptureResult>, r: CaptureResult)
    ensures r in HttpsSites(rs) <==> r in rs && Succeeded(r) && StartsWith(UrlText(r), "https://")
    ensures r in HttpSites(rs) <==>
      r in rs && Succeeded(r) && !StartsWith(UrlText(r), "https://") && StartsWith(UrlText(r), "http://")
    ensures |HttpsSites(rs)| + |HttpSites(rs)| <= |rs|
  {
    if rs != [] {
      var init := rs[..|rs| - 1];
      SitesMembership(init, r);
      assert rs == init + [rs[|rs| - 1]];
    }
  }

  /** A result is in `cms_targets[c]` exactly when it succeeded and one of its technology names
      falls into `c`; it is there once per such name. */
  lemma {:induction false} CmsMembership(rs: seq<CaptureResult>, c: Category, r: CaptureResult)
    ensures r in CmsTargets(rs, c) <==> r in rs && Succeeded(r) && Hits(TechNames(r), c) > 0
  {
    if rs != [] {
      var init := rs[..|rs| - 1];
      var last := rs[|rs| - 1];
      CmsMembership(init, c, r);
      assert rs == init + [last];
      if Succeeded(last) && Hits(TechNames(last), c) > 0 {
        assert Repeat(last, Hits(TechNames(last), c))[0] == last;
      }
    }
  }

  /** `Hits` counts the names that fall into the category: it is positive exactly when one
      does. */
  lemma HitsPositive(names: seq<string>, c: Category)
    ensures Hits(names, c) > 0 <==> exists i | 0 <= i < |names| :: CategoryOf(Lower(names[i])) == Some(c)
    ensures Hits(names, c) <= |names|
  {
    var cats := Categories(names);
    HitsCount(names, c);
    CountPositive(cats, Some(c));
    if exists i | 0 <= i < |names| :: CategoryOf(Lower(names[i])) == Some(c) {
      var i :| 0 <= i < |names| && CategoryOf(Lower(names[i])) == Some(c);
      assert cats[i] == Some(c);
    }
  }

  /** The category of each name, once lower-cased. */
  function Categories(names: seq<string>): (cats: seq<Option<Category>>)
    ensures |cats| == |names| && forall i | 0 <= i < |names| :: cats[i] == CategoryOf(Lower(names[i]))
  {
    seq(|names|, i requires 0 <= i < |names| => CategoryOf(Lower(names[i])))
  }

  /** How many times `x` occurs in `xs`. */
  function CountOf<T(==)>(xs: seq<T>, x: T): nat {
    if xs == [] then 0 else CountOf(xs[..|xs| - 1], x) + (if xs[|xs| - 1] == x then 1 else 0)
  }

  lemma {:induction false} HitsCount(names: seq<string>, c: Category)
    ensures Hits(names, c) == CountOf(Categories(names), Some(c))
  {
    if names != [] {
      var n := |names| - 1;
      HitsCount(names[..n], c);
      assert Categories(names)[..n] == Categories(names[..n]);
    }
  }

  lemma {:induction false} CountPositive<T>(xs: seq<T>, x: T)
    ensures CountOf(xs, x) > 0 <==> exists i | 0 <= i < |xs| :: xs[i] == x
    ensures CountOf(xs, x) <= |xs|
  {
    if xs != [] {
      var init := xs[..|xs| - 1];
      CountPositive(init, x);
      if exists i | 0 <= i < |init| :: init[i] == x {
        var i :| 0 <= i < |init| && init[i] == x;
        assert xs[i] == x;
      }
      if exists i | 0 <= i < |xs| :: xs[i] == x {
        var i :| 0 <= i < |xs| && xs[i] == x;
        if i < |init| { assert init[i] == x; }
      }
    }
  }

  /** The comparison ignores case: a finding named `WordPress` and a plain entry `WooCommerce`
      both put the result among the WordPress sites. */
  lemma CategoryIgnoresCase()
    ensures CategoryOf(Lower(TechName(Detected(Detection("WordPress", 30, [], "high"))))) == Some(WordPress)
    ensures CategoryOf(Lower(TechName(Plain("WooCommerce")))) == Some(WordPress)
    ensures CategoryOf(Lower("Umbraco")) == Some(OtherCms)
  {
    assert Lower("WordPress") == "wordpress";
    assert Lower("WooCommerce") == "woocommerce";
    assert Lower(Lower("WooCommerce")) == "woocommerce";
    assert Lower("Umbraco") == "umbraco";
  }

  /** Every IP written has no `:` and consists of digits and dots; a successful result whose
      `domain` is empty contributes the empty string. */
  lemma IpsFacts(rs: seq<CaptureResult>)
    ensures forall x | x in IpsOf(rs) :: ':' !in x && forall i | 0 <= i < |x| :: x[i] in "0123456789."
    ensures (exists k | 0 <= k < |rs| :: Succeeded(rs[k]) && DomainField(rs[k]) == "") ==> "" in IpsOf(rs)
  {
    IpsChars(rs);
    if exists k | 0 <= k < |rs| :: Succeeded(rs[k]) && DomainField(rs[k]) == "" {
      var k :| 0 <= k < |rs| && Succeeded(rs[k]) && DomainField(rs[k]) == "";
      IpsEmptyDomain(rs, k);
    }
  }

  lemma {:induction false} IpsChars(rs: seq<CaptureResult>)
    ensures forall x | x in IpsOf(rs) :: ':' !in x && forall i | 0 <= i < |x| :: x[i] in "0123456789."
  {
    if rs != [] {
      var init := rs[..|rs| - 1];
      var r := rs[|rs| - 1];
      IpsChars(init);
      if Succeeded(r) && IpLike(DomainField(r)) {
        var x := BeforeFirst(DomainField(r), ':');
        forall i | 0 <= i < |x| ensures x[i] in "0123456789." {
          assert x[i] == DomainField(r)[i];
        }
      }
    }
  }

  lemma {:induction false} IpsEmptyDomain(rs: seq<CaptureResult>, k: nat)
    requires k < |rs| && Succeeded(rs[k]) && DomainField(rs[k]) == ""
    ensures "" in IpsOf(rs)
  {
    var init := rs[..|rs| - 1];
    if k < |init| {
      assert init[k] == rs[k];
      IpsEmptyDomain(init, k);
    } else {
      assert BeforeFirst("", ':') == "";
    }
  }

  /** `all_targets.txt` and `domains.txt` come from the same successful results: there are as
      many URL lines as successful results, and the domains listed are exactly those URLs'
      domains. */
  lemma {:induction false} DomainsMatchUrls(rs: seq<CaptureResult>)
    ensures |SuccessUrls(rs)| == |DomainsOf(rs)|
    ensures forall i | 0 <= i < |DomainsOf(rs)| :: DomainsOf(rs)[i] == Domain(SuccessUrls(rs)[i])
  {
    if rs != [] {
      DomainsMatchUrls(rs[..|rs| - 1]);
    }
  }
}
