/** `ReportBuilder`: the grouping of results by domain that the report shows, the switch that
    turns it off, and the integer statistics of the report header.  The HTML template, the JSON
    metadata dump and the success-rate text are not modelled. */
module ReportBuilder {
  import opened Text
  import opened Records
  import opened Counters

  /** `result.get('domain', 'Unknown')`. */
  function DomainKey(r: CaptureResult): string {
    if r.target.Some? then r.target.value.domain else "Unknown"
  }

  /** `result.get('source', 'Unknown')`. */
  function SourceKey(r: CaptureResult): string {
    if r.target.Some? then r.target.value.source else "Unknown"
  }

  /** The domain key of every result, in order. */
  function DomainKeys(rs: seq<CaptureResult>): (ks: seq<string>)
    ensures |ks| == |rs| && forall i | 0 <= i < |rs| :: ks[i] == DomainKey(rs[i])
  {
    seq(|rs|, i requires 0 <= i < |rs| => DomainKey(rs[i]))
  }

  /** The results whose domain key is `k`, in input order. */
  function Group(rs: seq<CaptureResult>, k: string): seq<CaptureResult> {
    if rs == [] then []
    else Group(rs[..|rs| - 1], k) + (if DomainKey(rs[|rs| - 1]) == k then [rs[|rs| - 1]] else [])
  }

  type Groups = seq<(string, seq<CaptureResult>)>

  function GroupKeys(g: Groups): (ks: seq<string>)
    ensures |ks| == |g| && forall i | 0 <= i < |g| :: ks[i] == g[i].0
  {
    seq(|g|, i requires 0 <= i < |g| => g[i].0)
  }

  /** The position of key `k` in `g`, or `|g|`. */
  function FindKey(g: Groups, k: string): (i: nat)
    ensures i <= |g|
    ensures i < |g| ==> g[i].0 == k
    ensures forall j | 0 <= j < i :: g[j].0 != k
  {
    if g == [] then 0 else if g[0].0 == k then 0 else 1 + FindKey(g[1..], k)
  }

  /** `_group_by_domain(results)`: one group per distinct domain key, in sorted key order, each
      holding the results with that key in input order. */
  method GroupByDomain(results: seq<CaptureResult>) returns (groups: Groups)
    ensures GroupKeys(groups) == SortedUnique(DomainKeys(results))
    ensures forall i | 0 <= i < |groups| :: groups[i].1 == Group(results, groups[i].0)
  {
    var grouped := CollectGroups(results);
    assert Elements(GroupKeys(grouped)) == Elements(DomainKeys(results));
    var keys := SortSet(Elements(GroupKeys(grouped)));
    SortedUniqueDetermined(keys, SortedUnique(DomainKeys(results)));
    groups := [];
    for n := 0 to |keys|
      invariant |groups| == n
      invariant forall i | 0 <= i < n :: groups[i] == (keys[i], Group(results, keys[i]))
    {
      assert keys[n] in Elements(GroupKeys(grouped));
      var at := FindKey(grouped, keys[n]);
      groups := groups + [grouped[at]];
    }
  }

  /** `grouped` holds one group per domain key of `seen`, each with the results of that key. */
  predicate GroupsOf(grouped: Groups, seen: seq<CaptureResult>) {
    NoDuplicates(GroupKeys(grouped)) &&
    Elements(GroupKeys(grouped)) == Elements(DomainKeys(seen)) &&
    forall j | 0 <= j < |grouped| :: grouped[j].1 == Group(seen, grouped[j].0)
  }

  /** The loop of `_group_by_domain`: the groups in order of first appearance. */
  method CollectGroups(results: seq<CaptureResult>) returns (grouped: Groups)
    ensures GroupsOf(grouped, results)
  {
    grouped := [];
    for i := 0 to |results|
      invariant GroupsOf(grouped, results[..i])
    {
      assert results[..i + 1] == results[..i] + [results[i]];
      grouped := AddResult(grouped, results[..i], results[i]);
    }
    assert results[..|results|] == results;
  }

  /** One iteration: `r` opens a new group or joins the group of its domain key. */
  method AddResult(grouped: Groups, seen: seq<CaptureResult>, r: CaptureResult) returns (out: Groups)
    requires GroupsOf(grouped, seen)
    ensures GroupsOf(out, seen + [r])
  {
    var domain := DomainKey(r);
    var at := FindKey(grouped, domain);
    if at == |grouped| {
      out := grouped + [(domain, [r])];
      NewGroup(grouped, seen, r);
    } else {
      out := grouped[at := (domain, grouped[at].1 + [r])];
      JoinGroup(grouped, seen, r, at);
    }
  }

  lemma NewGroup(grouped: Groups, seen: seq<CaptureResult>, r: CaptureResult)
    requires GroupsOf(grouped, seen)
    requires forall j | 0 <= j < |grouped| :: grouped[j].0 != DomainKey(r)
    ensures GroupsOf(grouped + [(DomainKey(r), [r])], seen + [r])
  {
    var domain := DomainKey(r);
    var out := grouped + [(domain, [r])];
    GroupAppend(seen, r);
    ElementsAppend(DomainKeys(seen), domain);
    assert domain !in Elements(DomainKeys(seen));
    GroupEmpty(seen, domain);
    assert GroupKeys(out) == GroupKeys(grouped) + [domain];
    ElementsAppend(GroupKeys(grouped), domain);
    forall j | 0 <= j < |out| ensures out[j].1 == Group(seen + [r], out[j].0) {
      if j < |grouped| {
        assert out[j] == grouped[j];
      }
    }
  }

  lemma JoinGroup(grouped: Groups, seen: seq<CaptureResult>, r: CaptureResult, at: nat)
    requires GroupsOf(grouped, seen)
    requires at < |grouped| && grouped[at].0 == DomainKey(r)
    ensures GroupsOf(grouped[at := (DomainKey(r), grouped[at].1 + [r])], seen + [r])
  {
    var domain := DomainKey(r);
    var out := grouped[at := (domain, grouped[at].1 + [r])];
    GroupAppend(seen, r);
    ElementsAppend(DomainKeys(seen), domain);
    assert domain in Elements(GroupKeys(grouped)) by { assert GroupKeys(grouped)[at] == domain; }
    assert GroupKeys(out) == GroupKeys(grouped);
    forall j | 0 <= j < |out| ensures out[j].1 == Group(seen + [r], out[j].0) {
      if j != at {
        assert out[j] == grouped[j];
        assert GroupKeys(grouped)[j] != GroupKeys(grouped)[at];
      }
    }
  }

  /** One more result extends its own group and no other. */
  lemma GroupAppend(rs: seq<CaptureResult>, r: CaptureResult)
    ensures DomainKeys(rs + [r]) == DomainKeys(rs) + [DomainKey(r)]
    ensures forall k :: Group(rs + [r], k) == Group(rs, k) + (if DomainKey(r) == k then [r] else [])
  {
    assert (rs + [r])[..|rs|] == rs;
  }

  lemma {:induction false} GroupEmpty(rs: seq<CaptureResult>, k: string)
    requires k !in Elements(DomainKeys(rs))
    ensures Group(rs, k) == []
  {
    if rs != [] {
      assert DomainKeys(rs[..|rs| - 1]) == DomainKeys(rs)[..|rs| - 1];
      GroupEmpty(rs[..|rs| - 1], k);
    }
  }

  /** The groups `generate` hands to the template: all results under `All Targets` unless
      grouping by domain is configured. */
  method Grouped(results: seq<CaptureResult>, groupByDomain: bool) returns (groups: Groups)
    ensures !groupByDomain ==> groups == [("All Targets", results)]
    ensures groupByDomain ==> GroupKeys(groups) == SortedUnique(DomainKeys(results))
    ensures groupByDomain ==> forall i | 0 <= i < |groups| :: groups[i].1 == Group(results, groups[i].0)
  {
    if groupByDomain {
      groups := GroupByDomain(results);
    } else {
      groups := [("All Targets", results)];
    }
  }

  // ---------------------------------------------------------------------------------------------
  // Statistics

  /** The number of results with status `s` (`len([r for r in results if r['status'] == s])`). */
  function CountStatus(rs: seq<CaptureResult>, s: Status): nat {
    if rs == [] then 0 else CountStatus(rs[..|rs| - 1], s) + (if rs[|rs| - 1].status == s then 1 else 0)
  }

  /** The `http_status` of every result that has one, in order. */
  function StatusCodes(rs: seq<CaptureResult>): seq<int> {
    if rs == [] then []
    else
      var r := rs[|rs| - 1];
      StatusCodes(rs[..|rs| - 1]) + (if r.httpStatus.Some? then [r.httpStatus.value] else [])
  }

  /** The source key of every result, in order. */
  function Sources(rs: seq<CaptureResult>): seq<string> {
    if rs == [] then [] else Sources(rs[..|rs| - 1]) + [SourceKey(rs[|rs| - 1])]
  }

  /** Every entry of every `technologies` list, in order. */
  function Technologies(rs: seq<CaptureResult>): seq<string> {
    if rs == [] then [] else Technologies(rs[..|rs| - 1]) + rs[|rs| - 1].technologies.GetOr([])
  }

  /** The integer part of the statistics dictionary. */
  datatype Stats = Stats(
    total: nat, successful: nat, failed: nat,
    statusCodes: Counter<int>, sources: Counter<string>, technologies: Counter<string>)

  /** `_generate_stats(results)` without the success-rate text. */
  method GenerateStats(results: seq<CaptureResult>) returns (stats: Stats)
    ensures stats == Stats(|results|, CountStatus(results, Success), CountStatus(results, Failed),
                           CountAll(StatusCodes(results)), CountAll(Sources(results)),
                           CountAll(Technologies(results)))
  {
    var codes := CountCodes(results);
    var sources := CountSources(results);
    var techs := CountTechnologies(results);
    stats := Stats(|results|, CountStatus(results, Success), CountStatus(results, Failed), codes, sources, techs);
  }

  /** The `status_codes` loop. */
  method CountCodes(results: seq<CaptureResult>) returns (codes: Counter<int>)
    ensures codes == CountAll(StatusCodes(results))
  {
    codes := [];
    for i := 0 to |results|
      invariant codes == CountAll(StatusCodes(results[..i]))
    {
      assert results[..i + 1][..i] == results[..i];
      if results[i].httpStatus.Some? {
        var code := results[i].httpStatus.value;
        assert StatusCodes(results[..i + 1]) == StatusCodes(results[..i]) + [code];
        codes := Bump(codes, code);
      } else {
        assert StatusCodes(results[..i + 1]) == StatusCodes(results[..i]);
      }
    }
    assert results[..|results|] == results;
  }

  /** The `sources` loop. */
  method CountSources(results: seq<CaptureResult>) returns (sources: Counter<string>)
    ensures sources == CountAll(Sources(results))
  {
    sources := [];
    for i := 0 to |results|
      invariant sources == CountAll(Sources(results[..i]))
    {
      assert results[..i + 1][..i] == results[..i];
      sources := Bump(sources, SourceKey(results[i]));
    }
    assert results[..|results|] == results;
  }

  /** The `technologies` loop. */
  method CountTechnologies(results: seq<CaptureResult>) returns (techs: Counter<string>)
    ensures techs == CountAll(Technologies(results))
  {
    techs := [];
    for i := 0 to |results|
      invariant techs == CountAll(Technologies(results[..i]))
    {
      assert results[..i + 1][..i] == results[..i];
      assert Technologies(results[..i + 1]) == Technologies(results[..i]) + results[i].technologies.GetOr([]);
      if results[i].technologies.Some? {
        techs := BumpEach(techs, Technologies(results[..i]), results[i].technologies.value);
      } else {
        assert Technologies(results[..i]) + [] == Technologies(results[..i]);
      }
    }
    assert results[..|results|] == results;
  }

  /** The inner loop over one result's `technologies`. */
  method BumpEach(c: Counter<string>, before: seq<string>, ts: seq<string>) returns (out: Counter<string>)
    requires c == CountAll(before)
    ensures out == CountAll(before + ts)
  {
    out := c;
    assert before + ts[..0] == before;
    for k := 0 to |ts|
      invariant out == CountAll(before + ts[..k])
    {
      assert (before + ts[..k + 1])[..|before| + k] == before + ts[..k];
      out := Bump(out, ts[k]);
    }
    assert ts[..|ts|] == ts;
  }

  // ---------------------------------------------------------------------------------------------
  // Properties

  /** A result is in the group of key `k` exactly when it is one of the results and its domain
      key is `k`; so every result is in exactly one group, that of its own domain key. */
  lemma {:induction false} GroupMembership(rs: seq<CaptureResult>, k: string, r: CaptureResult)
    ensures r in Group(rs, k) <==> r in rs && DomainKey(r) == k
  {
    if rs != [] {
      GroupMembership(rs[..|rs| - 1], k, r);
      assert rs == rs[..|rs| - 1] + [rs[|rs| - 1]];
    }
  }

  /** The sum of the sizes of the groups of the keys `ks`. */
  function SizeSum(rs: seq<CaptureResult>, ks: seq<string>): nat {
    if ks == [] then 0 else SizeSum(rs, ks[..|ks| - 1]) + |Group(rs, ks[|ks| - 1])|
  }

  /** When `ks` lists every domain key once, the group sizes add up to the number of results:
      the groups partition the results. */
  lemma {:induction false} GroupSizesSum(rs: seq<CaptureResult>, ks: seq<string>)
    requires NoDuplicates(ks) && Elements(DomainKeys(rs)) <= Elements(ks)
    ensures SizeSum(rs, ks) == |rs|
  {
    if rs != [] {
      var init := rs[..|rs| - 1];
      var x := DomainKey(rs[|rs| - 1]);
      assert DomainKeys(init) == DomainKeys(rs)[..|rs| - 1];
      assert Elements(DomainKeys(init)) <= Elements(DomainKeys(rs));
      GroupSizesSum(init, ks);
      assert x in Elements(DomainKeys(rs)) by { assert DomainKeys(rs)[|rs| - 1] == x; }
      assert x in ks;
      SizeSumStep(init, rs[|rs| - 1], ks);
      assert rs == init + [rs[|rs| - 1]];
    } else {
      SizeSumEmpty(ks);
    }
  }

  lemma {:induction false} SizeSumEmpty(ks: seq<string>)
    ensures SizeSum([], ks) == 0
  {
    if ks != [] { SizeSumEmpty(ks[..|ks| - 1]); }
  }

  /** Adding one result adds one to the group of its key and nothing to the others. */
  lemma {:induction false} SizeSumStep(rs: seq<CaptureResult>, r: CaptureResult, ks: seq<string>)
    requires NoDuplicates(ks)
    ensures SizeSum(rs + [r], ks) == SizeSum(rs, ks) + (if DomainKey(r) in ks then 1 else 0)
  {
    if ks != [] {
      var init := ks[..|ks| - 1];
      var k := ks[|ks| - 1];
      assert NoDuplicates(init);
      SizeSumStep(rs, r, init);
      assert (rs + [r])[..|rs + [r]| - 1] == rs;
      assert DomainKey(r) in ks <==> DomainKey(r) in init || DomainKey(r) == k by { assert ks == init + [k]; }
      assert k !in init;
    }
  }

  /** The keys of `_group_by_domain` partition the results: the group sizes add up to the number
      of results, also when grouping is off (one group holding everything). */
  lemma GroupedSizesSum(rs: seq<CaptureResult>, groups: Groups, groupByDomain: bool)
    requires !groupByDomain ==> groups == [("All Targets", rs)]
    requires groupByDomain ==> GroupKeys(groups) == SortedUnique(DomainKeys(rs))
    requires groupByDomain ==> forall i | 0 <= i < |groups| :: groups[i].1 == Group(rs, groups[i].0)
    ensures Sizes(groups) == |rs|
  {
    if groupByDomain {
      var ks := GroupKeys(groups);
      SortedNoDuplicates(ks);
      GroupSizesSum(rs, ks);
      SizesMatch(rs, groups);
    } else {
      assert groups[..0] == [];
    }
  }

  /** The total number of results over all groups. */
  function Sizes(groups: Groups): nat {
    if groups == [] then 0 else Sizes(groups[..|groups| - 1]) + |groups[|groups| - 1].1|
  }

  lemma {:induction false} SizesMatch(rs: seq<CaptureResult>, groups: Groups)
    requires forall i | 0 <= i < |groups| :: groups[i].1 == Group(rs, groups[i].0)
    ensures Sizes(groups) == SizeSum(rs, GroupKeys(groups))
  {
    if groups != [] {
      var init := groups[..|groups| - 1];
      assert GroupKeys(init) == GroupKeys(groups)[..|groups| - 1];
      SizesMatch(rs, init);
    }
  }

  lemma SortedNoDuplicates(ks: seq<string>)
    requires StrictlySorted(ks)
    ensures NoDuplicates(ks)
  {
    forall i, j | 0 <= i < j < |ks| ensures ks[i] != ks[j] {
      if ks[i] == ks[j] { LessIrreflexive(ks[i]); }
    }
  }

  /** Successful and failed results are counted apart: together they are the results that are
      not pending, so never more than `total`. */
  lemma {:induction false} StatusCountsBound(rs: seq<CaptureResult>)
    ensures CountStatus(rs, Success) + CountStatus(rs, Failed) + CountStatus(rs, Pending) == |rs|
    ensures CountStatus(rs, Success) + CountStatus(rs, Failed) <= |rs|
  {
    if rs != [] { StatusCountsBound(rs[..|rs| - 1]); }
  }

  /** `status_codes` counts add up to the number of results with an `http_status`; `sources`
      counts add up to `total`, and a result without a target is counted under `Unknown`. */
  lemma {:induction false} StatsTotals(rs: seq<CaptureResult>)
    ensures Total(CountAll(StatusCodes(rs))) == |StatusCodes(rs)| == WithStatus(rs)
    ensures Total(CountAll(Sources(rs))) == |rs|
    ensures forall k :: Get(CountAll(Sources(rs)), k) == Occurrences(Sources(rs), k)
    ensures Total(CountAll(Technologies(rs))) == |Technologies(rs)|
    ensures forall i | 0 <= i < |rs| :: rs[i].target.None? ==> "Unknown" in Sources(rs)
  {
    CountAllFacts(StatusCodes(rs));
    CountAllFacts(Sources(rs));
    CountAllFacts(Technologies(rs));
    StatusCodesLength(rs);
    SourcesAt(rs);
  }

  /** The number of results that carry an `http_status`. */
  function WithStatus(rs: seq<CaptureResult>): nat {
    if rs == [] then 0 else WithStatus(rs[..|rs| - 1]) + (if rs[|rs| - 1].httpStatus.Some? then 1 else 0)
  }

  lemma {:induction false} StatusCodesLength(rs: seq<CaptureResult>)
    ensures |StatusCodes(rs)| == WithStatus(rs)
  {
    if rs != [] { StatusCodesLength(rs[..|rs| - 1]); }
  }

  lemma {:induction false} SourcesAt(rs: seq<CaptureResult>)
    ensures |Sources(rs)| == |rs| && forall i | 0 <= i < |rs| :: Sources(rs)[i] == SourceKey(rs[i])
  {
    if rs != [] { SourcesAt(rs[..|rs| - 1]); }
  }
}
