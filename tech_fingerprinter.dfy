/** `TechnologyFingerprinter`: a fixed table of signatures, each scored against a response by
    additive hits on URL paths (30 each), headers (40 each) and body patterns (20 each); a
    technology is reported when its score reaches 30, with the score capped at 100. */
module TechFingerprinter {
  import opened Text
  import opened Records

  /** One signature of the table: a missing `paths`, `headers` or `body_patterns` entry is an
      empty sequence; `headers` keeps the dict's order. */
  datatype Signature = Signature(name: string, paths: seq<string>, headers: seq<(string, string)>, bodyPatterns: seq<string>, priority: string)

  /** The signature table in the dict's insertion order. */
  function Signatures(): (sigs: seq<Signature>)
    ensures |sigs| == 29
    ensures forall i | 0 <= i < 29 :: sigs[i] == SignatureAt(i)
  {
    seq(29, i requires 0 <= i < 29 => SignatureAt(i))
  }

  function SignatureAt(i: nat): Signature
    requires i < 29
  {
    match i
    case 0 => Signature("wordpress", ["/wp-content/", "/wp-includes/", "/wp-admin/", "/wp-login.php"], [("X-Powered-By", "WordPress")], ["wp-content", "wp-includes", "wordpress"], "high")
    case 1 => Signature("woocommerce", ["/wp-content/plugins/woocommerce/"], [], ["woocommerce", "WooCommerce"], "high")
    case 2 => Signature("joomla", ["/administrator/", "/components/", "/modules/", "/templates/"], [("X-Content-Encoded-By", "Joomla")], ["Joomla!", "/components/com_", "joomla"], "high")
    case 3 => Signature("drupal", ["/sites/default/", "/misc/drupal.js", "/core/", "/modules/"], [("X-Generator", "Drupal")], ["Drupal.settings", "sites/default/files", "drupal"], "high")
    case 4 => Signature("sharepoint", ["/_layouts/", "/_vti_bin/", "/_api/", "/_catalogs/"], [("MicrosoftSharePointTeamServices", "*"), ("SPRequestGuid", "*")], ["_spBodyOnLoadFunctionNames", "SharePoint"], "high")
    case 5 => Signature("magento", ["/skin/frontend/", "/js/mage/", "/media/catalog/", "/magento_version"], [], ["Mage.Cookies", "var BLANK_URL", "Magento"], "high")
    case 6 => Signature("prestashop", ["/modules/", "/themes/", "/img/"], [], ["prestashop", "PrestaShop"], "high")
    case 7 => Signature("shopify", [], [("X-ShopId", "*")], ["cdn.shopify.com", "Shopify.theme", "myshopify.com"], "high")
    case 8 => Signature("opencart", ["/catalog/", "/image/"], [], ["catalog/view/theme/", "OpenCart"], "medium")
    case 9 => Signature("wix", [], [("X-Wix-Request-Id", "*"), ("X-Wix-Renderer-Server", "*")], ["wix.com", "wixsite.com", "X-Wix-"], "high")
    case 10 => Signature("squarespace", [], [("X-Served-By", "squarespace")], ["squarespace.com", "squarespace-cdn"], "high")
    case 11 => Signature("typo3", ["/typo3/", "/typo3conf/", "/fileadmin/"], [("X-TYPO3-Parsetime", "*")], ["typo3", "TYPO3"], "high")
    case 12 => Signature("concrete5", ["/concrete/", "/packages/", "/application/"], [], ["concrete5", "Concrete CMS"], "medium")
    case 13 => Signature("umbraco", ["/umbraco/", "/umbraco_client/"], [], ["Umbraco", "umbraco"], "medium")
    case 14 => Signature("dotnetnuke", ["/Portals/", "/DesktopModules/", "/DNN_Platform/"], [("X-Powered-By", "DNN")], ["DotNetNuke", "DNN Platform"], "medium")
    case 15 => Signature("sitefinity", ["/Sitefinity/", "/SFRes/"], [], ["Sitefinity", "sitefinity"], "medium")
    case 16 => Signature("kentico", ["/CMSPages/", "/CMSModules/"], [], ["Kentico", "CMSPages"], "medium")
    case 17 => Signature("craft", ["/cpresources/", "/actions/"], [("X-Powered-By", "Craft CMS")], ["Craft CMS", "craftcms"], "medium")
    case 18 => Signature("ghost", ["/ghost/", "/content/"], [("X-Powered-By", "Ghost")], ["ghost.org", "content/images/"], "medium")
    case 19 => Signature("vbulletin", ["/vbulletin/", "/clientscript/"], [], ["vBulletin", "vbulletin"], "medium")
    case 20 => Signature("phpbb", ["/phpbb/", "/styles/"], [], ["phpBB", "Powered by phpBB"], "medium")
    case 21 => Signature("mybb", ["/inc/", "/cache/"], [], ["MyBB", "mybb"], "medium")
    case 22 => Signature("discourse", [], [("X-Discourse-Route", "*")], ["discourse", "Discourse"], "medium")
    case 23 => Signature("confluence", ["/confluence/", "/wiki/"], [("X-Confluence-Request-Time", "*")], ["Confluence", "confluence"], "high")
    case 24 => Signature("mediawiki", ["/mediawiki/", "/wiki/"], [("X-Powered-By", "MediaWiki")], ["MediaWiki", "mw-data"], "medium")
    case 25 => Signature("asp.net", [], [("X-AspNet-Version", "*"), ("X-Powered-By", "ASP.NET")], ["__VIEWSTATE", "__EVENTVALIDATION"], "low")
    case 26 => Signature("laravel", [], [("X-Powered-By", "Laravel")], ["laravel", "csrf-token"], "low")
    case 27 => Signature("django", [], [("X-Frame-Options", "DENY")], ["csrfmiddlewaretoken", "django"], "low")
    case _ => Signature("express", [], [("X-Powered-By", "Express")], [], "low")
  }

  predicate NamesUnique(sigs: seq<Signature>) {
    forall i, j | 0 <= i < j < |sigs| :: sigs[i].name != sigs[j].name
  }

  /** A number that tells the table's names apart: length, first and second character.  Names
      whose keys differ are different strings, so distinct keys for the 29 rows prove the names
      distinct with 29 small facts instead of comparing all 406 pairs of strings character by
      character, which is far costlier for the verifier. */
  function NameKey(s: string): int {
    if |s| < 2 then -1 else |s| * 100000000 + s[0] as int * 10000 + s[1] as int
  }

  const TableKeys: seq<int> := [901190111, 1101190111, 601060111, 601000114, 1001150104, 701090097, 1001120114, 701150104, 801110112, 301190105, 1101150113, 501160121, 900990111, 701170109, 1001000111, 1001150105, 701070101, 500990114, 501030104, 901180098, 501120104, 401090121, 901000105, 1000990111, 901090101, 700970115, 701080097, 601000106, 701010120]

  lemma TableKeysDistinct()
    ensures forall i, j | 0 <= i < j < |TableKeys| :: TableKeys[i] != TableKeys[j]
  {
  }

  lemma TableKeysMatch0()
    ensures forall i | 0 <= i < 4 :: NameKey(SignatureAt(i).name) == TableKeys[i]
  {
    assert NameKey(SignatureAt(0).name) == 901190111;
    assert NameKey(SignatureAt(1).name) == 1101190111;
    assert NameKey(SignatureAt(2).name) == 601060111;
    assert NameKey(SignatureAt(3).name) == 601000114;
  }

  lemma TableKeysMatch1()
    ensures forall i | 4 <= i < 8 :: NameKey(SignatureAt(i).name) == TableKeys[i]
  {
    assert NameKey(SignatureAt(4).name) == 1001150104;
    assert NameKey(SignatureAt(5).name) == 701090097;
    assert NameKey(SignatureAt(6).name) == 1001120114;
    assert NameKey(SignatureAt(7).name) == 701150104;
  }

  lemma TableKeysMatch2()
    ensures forall i | 8 <= i < 12 :: NameKey(SignatureAt(i).name) == TableKeys[i]
  {
    assert NameKey(SignatureAt(8).name) == 801110112;
    assert NameKey(SignatureAt(9).name) == 301190105;
    assert NameKey(SignatureAt(10).name) == 1101150113;
    assert NameKey(SignatureAt(11).name) == 501160121;
  }

  lemma TableKeysMatch3()
    ensures forall i | 12 <= i < 16 :: NameKey(SignatureAt(i).name) == TableKeys[i]
  {
    assert NameKey(SignatureAt(12).name) == 900990111;
    assert NameKey(SignatureAt(13).name) == 701170109;
    assert NameKey(SignatureAt(14).name) == 1001000111;
    assert NameKey(SignatureAt(15).name) == 1001150105;
  }

  lemma TableKeysMatch4()
    ensures forall i | 16 <= i < 20 :: NameKey(SignatureAt(i).name) == TableKeys[i]
  {
    assert NameKey(SignatureAt(16).name) == 701070101;
    assert NameKey(SignatureAt(17).name) == 500990114;
    assert NameKey(SignatureAt(18).name) == 501030104;
    assert NameKey(SignatureAt(19).name) == 901180098;
  }

  lemma TableKeysMatch5()
    ensures forall i | 20 <= i < 24 :: NameKey(SignatureAt(i).name) == TableKeys[i]
  {
    assert NameKey(SignatureAt(20).name) == 501120104;
    assert NameKey(SignatureAt(21).name) == 401090121;
    assert NameKey(SignatureAt(22).name) == 901000105;
    assert NameKey(SignatureAt(23).name) == 1000990111;
  }

  lemma TableKeysMatch6()
    ensures forall i | 24 <= i < 28 :: NameKey(SignatureAt(i).name) == TableKeys[i]
  {
    assert NameKey(SignatureAt(24).name) == 901090101;
    assert NameKey(SignatureAt(25).name) == 700970115;
    assert NameKey(SignatureAt(26).name) == 701080097;
    assert NameKey(SignatureAt(27).name) == 601000106;
  }

  lemma TableKeysMatch7()
    ensures forall i | 28 <= i < 29 :: NameKey(SignatureAt(i).name) == TableKeys[i]
  {
    assert NameKey(SignatureAt(28).name) == 701010120;
  }

  lemma TableKeysMatch()
    ensures |TableKeys| == |Signatures()|
    ensures forall i | 0 <= i < |Signatures()| :: NameKey(Signatures()[i].name) == TableKeys[i]
  {
    TableKeysMatch0();
    TableKeysMatch1();
    TableKeysMatch2();
    TableKeysMatch3();
    TableKeysMatch4();
    TableKeysMatch5();
    TableKeysMatch6();
    TableKeysMatch7();
  }

  /** No two signatures share a name. */
  lemma SignatureNamesUnique()
    ensures NamesUnique(Signatures())
  {
    TableKeysMatch();
    TableKeysDistinct();
  }

  // ---------------------------------------------------------------------------------------------
  // Scoring (`fingerprint_from_response`)

  /** The reasons contributed by the URL paths: `path:<p>` for each path whose lower-cased form
      occurs in the lower-cased URL, in table order. */
  function PathReasons(paths: seq<string>, url: string): seq<string> {
    if paths == [] then []
    else
      var p := paths[|paths| - 1];
      PathReasons(paths[..|paths| - 1], url) + (if IsSubstring(Lower(p), Lower(url)) then ["path:" + p] else [])
  }

  /** A signature header matches when its lower-cased name is a key of the (lower-cased)
      response headers and its value is `*` or occurs, ignoring case, in the response value. */
  predicate HeaderMatches(name: string, value: string, headers: map<string, string>) {
    Lower(name) in headers && (value == "*" || IsSubstring(Lower(value), Lower(headers[Lower(name)])))
  }

  /** The reasons contributed by the signature headers: `header:<name>` for each match. An empty
      header dict matches nothing, which is all the `and headers` guard amounts to. */
  function HeaderReasons(sigHeaders: seq<(string, string)>, headers: map<string, string>): seq<string> {
    if sigHeaders == [] then []
    else
      var (name, value) := sigHeaders[|sigHeaders| - 1];
      HeaderReasons(sigHeaders[..|sigHeaders| - 1], headers) + (if HeaderMatches(name, value, headers) then ["header:" + name] else [])
  }

  /** The reasons contributed by the body patterns; none without a (non-empty) body. */
  function BodyReasons(patterns: seq<string>, body: Option<string>): seq<string> {
    if body.None? || body.value == "" || patterns == [] then []
    else
      var p := patterns[|patterns| - 1];
      BodyReasons(patterns[..|patterns| - 1], body) + (if IsSubstring(Lower(p), Lower(body.value)) then ["body:" + p] else [])
  }

  function Confidence(sig: Signature, url: string, headers: map<string, string>, body: Option<string>): nat {
    30 * |PathReasons(sig.paths, url)| + 40 * |HeaderReasons(sig.headers, headers)| + 20 * |BodyReasons(sig.bodyPatterns, body)|
  }

  /** The entry reported for one signature, if its confidence reaches 30. */
  function Detect(sig: Signature, url: string, headers: map<string, string>, body: Option<string>): Option<Detection> {
    var c := Confidence(sig, url, headers, body);
    if c >= 30 then
      Some(Detection(sig.name, if c < 100 then c else 100,
        PathReasons(sig.paths, url) + HeaderReasons(sig.headers, headers) + BodyReasons(sig.bodyPatterns, body), sig.priority))
    else None
  }

  /** The entries reported for a table of signatures, in table order. */
  function Fingerprint(sigs: seq<Signature>, url: string, headers: map<string, string>, body: Option<string>): seq<Detection> {
    if sigs == [] then []
    else
      var d := Detect(sigs[|sigs| - 1], url, headers, body);
      Fingerprint(sigs[..|sigs| - 1], url, headers, body) + (if d.Some? then [d.value] else [])
  }

  /** The score of one signature, accumulated path by path, header by header and pattern by
      pattern. */
  method Score(sig: Signature, url: string, headers: map<string, string>, body: Option<string>)
    returns (confidence: nat, reasons: seq<string>)
    ensures confidence == Confidence(sig, url, headers, body)
    ensures reasons == PathReasons(sig.paths, url) + HeaderReasons(sig.headers, headers) + BodyReasons(sig.bodyPatterns, body)
  {
    var fromPaths, pathHits := ScorePaths(sig.paths, url);
    var fromHeaders, headerHits := ScoreHeaders(sig.headers, headers);
    var fromBody, bodyHits := ScoreBody(sig.bodyPatterns, body);
    confidence := fromPaths + fromHeaders + fromBody;
    reasons := pathHits + headerHits + bodyHits;
  }

  /** The path loop of the scoring: 30 points per path found in the URL. */
  method ScorePaths(paths: seq<string>, url: string) returns (points: nat, reasons: seq<string>)
    ensures reasons == PathReasons(paths, url) && points == 30 * |reasons|
  {
    points, reasons := 0, [];
    var lowerUrl := Lower(url);
    for k := 0 to |paths|
      invariant reasons == PathReasons(paths[..k], url)
      invariant points == 30 * |reasons|
    {
      assert paths[..k + 1][..k] == paths[..k];
      if IsSubstring(Lower(paths[k]), lowerUrl) {
        points := points + 30;
        reasons := reasons + ["path:" + paths[k]];
      }
    }
    assert paths[..|paths|] == paths;
  }

  /** The header loop of the scoring: 40 points per matching header. */
  method ScoreHeaders(sigHeaders: seq<(string, string)>, headers: map<string, string>) returns (points: nat, reasons: seq<string>)
    ensures reasons == HeaderReasons(sigHeaders, headers) && points == 40 * |reasons|
  {
    points, reasons := 0, [];
    for k := 0 to |sigHeaders|
      invariant reasons == HeaderReasons(sigHeaders[..k], headers)
      invariant points == 40 * |reasons|
    {
      assert sigHeaders[..k + 1][..k] == sigHeaders[..k];
      var (name, value) := sigHeaders[k];
      var key := Lower(name);
      if key in headers {
        if value == "*" || IsSubstring(Lower(value), Lower(headers[key])) {
          points := points + 40;
          reasons := reasons + ["header:" + name];
        }
      }
    }
    assert sigHeaders[..|sigHeaders|] == sigHeaders;
  }

  /** The body loop of the scoring: 20 points per pattern found in a non-empty body. */
  method ScoreBody(patterns: seq<string>, body: Option<string>) returns (points: nat, reasons: seq<string>)
    ensures reasons == BodyReasons(patterns, body) && points == 20 * |reasons|
  {
    points, reasons := 0, [];
    if body.Some? && body.value != "" {
      var lowerBody := Lower(body.value);
      for k := 0 to |patterns|
        invariant reasons == BodyReasons(patterns[..k], body)
        invariant points == 20 * |reasons|
      {
        assert patterns[..k + 1][..k] == patterns[..k];
        if IsSubstring(Lower(patterns[k]), lowerBody) {
          points := points + 20;
          reasons := reasons + ["body:" + patterns[k]];
        }
      }
      assert patterns[..|patterns|] == patterns;
    }
  }

  /** `fingerprint_from_response(url, status_code, headers, body)`; the status code is not
      consulted. */
  method FingerprintFromResponse(url: string, headers: map<string, string>, body: Option<string>)
    returns (detected: seq<Detection>)
    ensures detected == Fingerprint(Signatures(), url, headers, body)
  {
    detected := FingerprintWith(Signatures(), url, headers, body);
  }

  /** The loop over the signature table, for any table. */
  method FingerprintWith(sigs: seq<Signature>, url: string, headers: map<string, string>, body: Option<string>)
    returns (detected: seq<Detection>)
    ensures detected == Fingerprint(sigs, url, headers, body)
  {
    detected := [];
    for k := 0 to |sigs|
      invariant detected == Fingerprint(sigs[..k], url, headers, body)
    {
      FingerprintStep(sigs, k, url, headers, body);
      var confidence, reasons := Score(sigs[k], url, headers, body);
      if confidence >= 30 {
        detected := detected + [Detection(sigs[k].name, if confidence < 100 then confidence else 100, reasons, sigs[k].priority)];
      }
    }
    assert sigs[..|sigs|] == sigs;
  }

  lemma FingerprintStep(sigs: seq<Signature>, k: nat, url: string, headers: map<string, string>, body: Option<string>)
    requires k < |sigs|
    ensures var d := Detect(sigs[k], url, headers, body);
      Fingerprint(sigs[..k + 1], url, headers, body) == Fingerprint(sigs[..k], url, headers, body) + (if d.Some? then [d.value] else [])
  {
    assert sigs[..k + 1][..k] == sigs[..k];
  }

  /** The header dict the screenshot-result entry point passes: the captured headers with
      lower-cased keys, or nothing. */
  function ResultHeaders(r: CaptureResult): map<string, string> {
    if r.httpHeaders.Some? then LowerKeys(r.httpHeaders.value) else map[]
  }

  /** `fingerprint_from_screenshot_result(result)`: the URL (or `''`), the lower-cased headers
      and no body. */
  method FingerprintFromScreenshotResult(r: CaptureResult) returns (detected: seq<Detection>)
    ensures detected == Fingerprint(Signatures(), UrlOf(r).GetOr(""), ResultHeaders(r), None)
  {
    detected := FingerprintFromResponse(UrlOf(r).GetOr(""), ResultHeaders(r), None);
  }

  // ---------------------------------------------------------------------------------------------
  // Properties of the scoring

  /** A signature is reported exactly when its score reaches 30; the reported confidence is the
      score capped at 100, so it lies between 30 and 100. */
  lemma DetectFacts(sig: Signature, url: string, headers: map<string, string>, body: Option<string>)
    ensures Detect(sig, url, headers, body).Some? <==> Confidence(sig, url, headers, body) >= 30
    ensures Detect(sig, url, headers, body).Some? ==>
      var d := Detect(sig, url, headers, body).value;
      d.name == sig.name && d.priority == sig.priority && 30 <= d.confidence <= 100 &&
      (d.confidence == 100 <==> Confidence(sig, url, headers, body) >= 100) &&
      (d.confidence < 100 ==> d.confidence == Confidence(sig, url, headers, body))
  {
  }

  /** One body-pattern hit (20) and nothing else never reports a technology. */
  lemma BodyHitAloneNotReported(sig: Signature, url: string, headers: map<string, string>, body: Option<string>)
    requires PathReasons(sig.paths, url) == [] && HeaderReasons(sig.headers, headers) == []
    requires |BodyReasons(sig.bodyPatterns, body)| <= 1
    ensures Detect(sig, url, headers, body).None?
  {
  }

  /** A `*` header value matches on the presence of the key alone. */
  lemma StarMatchesPresence(name: string, headers: map<string, string>)
    ensures HeaderMatches(name, "*", headers) <==> Lower(name) in headers
  {
  }

  /** Path and header reasons carry their kind as prefix. */
  lemma {:induction false} PathReasonsTagged(paths: seq<string>, url: string)
    ensures forall x | x in PathReasons(paths, url) :: StartsWith(x, "path:")
  {
    if paths != [] {
      PathReasonsTagged(paths[..|paths| - 1], url);
    }
  }

  lemma {:induction false} HeaderReasonsTagged(sigHeaders: seq<(string, string)>, headers: map<string, string>)
    ensures forall x | x in HeaderReasons(sigHeaders, headers) :: StartsWith(x, "header:")
  {
    if sigHeaders != [] {
      HeaderReasonsTagged(sigHeaders[..|sigHeaders| - 1], headers);
    }
  }

  /** The reported entries are the reports of the signatures, each at most once and in table
      order: `idx` lists, strictly increasing, the signatures that reached 30, and the `a`-th
      entry is the report of signature `idx[a]`. */
  lemma FingerprintIndices(sigs: seq<Signature>, url: string, headers: map<string, string>, body: Option<string>)
    returns (idx: seq<nat>)
    ensures var ds := Fingerprint(sigs, url, headers, body);
      |idx| == |ds| &&
      (forall a | 0 <= a < |idx| :: idx[a] < |sigs| && Detect(sigs[idx[a]], url, headers, body) == Some(ds[a])) &&
      (forall a, b | 0 <= a < b < |idx| :: idx[a] < idx[b]) &&
      (forall i | 0 <= i < |sigs| :: Detect(sigs[i], url, headers, body).Some? ==> i in idx)
  {
    var os := Detections(sigs, url, headers, body);
    FingerprintSomes(sigs, url, headers, body);
    idx := SomesIndices(os);
  }

  /** The report of each signature of a table, reached or not. */
  function Detections(sigs: seq<Signature>, url: string, headers: map<string, string>, body: Option<string>): (os: seq<Option<Detection>>)
    ensures |os| == |sigs| && forall i | 0 <= i < |sigs| :: os[i] == Detect(sigs[i], url, headers, body)
  {
    seq(|sigs|, i requires 0 <= i < |sigs| => Detect(sigs[i], url, headers, body))
  }

  /** The present values of a sequence of options, in order. */
  function Somes<T>(os: seq<Option<T>>): seq<T> {
    if os == [] then []
    else Somes(os[..|os| - 1]) + (if os[|os| - 1].Some? then [os[|os| - 1].value] else [])
  }

  lemma {:induction false} FingerprintSomes(sigs: seq<Signature>, url: string, headers: map<string, string>, body: Option<string>)
    ensures Fingerprint(sigs, url, headers, body) == Somes(Detections(sigs, url, headers, body))
  {
    if sigs != [] {
      var n := |sigs| - 1;
      FingerprintSomes(sigs[..n], url, headers, body);
      var os := Detections(sigs, url, headers, body);
      assert os[..n] == Detections(sigs[..n], url, headers, body);
    }
  }

  /** `idx` lists, strictly increasing, the positions of the present values, and the `a`-th
      present value sits at `idx[a]`. */
  lemma {:induction false} SomesIndices<T>(os: seq<Option<T>>) returns (idx: seq<nat>)
    ensures |idx| == |Somes(os)|
    ensures forall a | 0 <= a < |idx| :: idx[a] < |os| && os[idx[a]] == Some(Somes(os)[a])
    ensures forall a, b | 0 <= a < b < |idx| :: idx[a] < idx[b]
    ensures forall i | 0 <= i < |os| :: os[i].Some? ==> i in idx
  {
    if os == [] {
      idx := [];
    } else {
      var n := |os| - 1;
      var init := os[..n];
      var rest := SomesIndices(init);
      var before := Somes(init);
      if os[n].Some? {
        idx := rest + [n];
        var vs := before + [os[n].value];
        assert Somes(os) == vs;
        forall a | 0 <= a < |idx|
          ensures idx[a] < |os| && os[idx[a]] == Some(vs[a])
        {
          if a < |rest| { assert idx[a] == rest[a] && vs[a] == before[a] && os[rest[a]] == init[rest[a]]; }
        }
        forall i | 0 <= i < |os| && os[i].Some?
          ensures i in idx
        {
          if i < n { assert init[i] == os[i]; assert i in rest; }
        }
      } else {
        idx := rest;
        assert Somes(os) == before;
        forall a | 0 <= a < |idx|
          ensures idx[a] < |os| && os[idx[a]] == Some(before[a])
        {
          assert os[rest[a]] == init[rest[a]];
        }
        forall i | 0 <= i < |os| && os[i].Some?
          ensures i in idx
        {
          if i < n { assert init[i] == os[i]; assert i in rest; }
        }
      }
    }
  }

  /** Every reported entry has a confidence between 30 and 100, and the name and priority of a
      signature of the table. */
  lemma FingerprintBounds(sigs: seq<Signature>, url: string, headers: map<string, string>, body: Option<string>)
    ensures forall d | d in Fingerprint(sigs, url, headers, body) ::
      30 <= d.confidence <= 100 && exists i | 0 <= i < |sigs| :: sigs[i].name == d.name && sigs[i].priority == d.priority
  {
    var ds := Fingerprint(sigs, url, headers, body);
    var idx := FingerprintIndices(sigs, url, headers, body);
    forall d | d in ds
      ensures 30 <= d.confidence <= 100 && exists i | 0 <= i < |sigs| :: sigs[i].name == d.name && sigs[i].priority == d.priority
    {
      var a :| 0 <= a < |ds| && ds[a] == d;
      DetectFacts(sigs[idx[a]], url, headers, body);
    }
  }

  /** With distinct signature names (as in the table), no name is reported twice, and a name
      is reported exactly when its signature scores at least 30. */
  lemma FingerprintNames(sigs: seq<Signature>, url: string, headers: map<string, string>, body: Option<string>)
    requires NamesUnique(sigs)
    ensures var ds := Fingerprint(sigs, url, headers, body);
      (forall a, b | 0 <= a < b < |ds| :: ds[a].name != ds[b].name) &&
      (forall i | 0 <= i < |sigs| ::
        (exists a | 0 <= a < |ds| :: ds[a].name == sigs[i].name) <==> Confidence(sigs[i], url, headers, body) >= 30)
  {
    var ds := Fingerprint(sigs, url, headers, body);
    var idx := FingerprintIndices(sigs, url, headers, body);
    forall i | 0 <= i < |sigs|
      ensures (exists a | 0 <= a < |ds| :: ds[a].name == sigs[i].name) <==> Confidence(sigs[i], url, headers, body) >= 30
    {
      DetectFacts(sigs[i], url, headers, body);
      if Confidence(sigs[i], url, headers, body) >= 30 {
        var a :| 0 <= a < |idx| && idx[a] == i;
        assert ds[a].name == sigs[i].name;
      }
      if exists a | 0 <= a < |ds| :: ds[a].name == sigs[i].name {
        var a :| 0 <= a < |ds| && ds[a].name == sigs[i].name;
        DetectFacts(sigs[idx[a]], url, headers, body);
        assert idx[a] == i;
      }
    }
    forall a, b | 0 <= a < b < |ds| ensures ds[a].name != ds[b].name {
      DetectFacts(sigs[idx[a]], url, headers, body);
      DetectFacts(sigs[idx[b]], url, headers, body);
    }
  }

  /** The screenshot-result entry point looks the headers up under lower-cased keys only and,
      passing no body, gets no body-pattern hits: every reason is a path or a header hit. */
  lemma ScreenshotResultFacts(r: CaptureResult)
    ensures forall k | k in ResultHeaders(r) :: Lower(k) == k
    ensures forall d | d in Fingerprint(Signatures(), UrlOf(r).GetOr(""), ResultHeaders(r), None) ::
      forall x | x in d.reasons :: StartsWith(x, "path:") || StartsWith(x, "header:")
  {
    var sigs := Signatures();
    var url, h := UrlOf(r).GetOr(""), ResultHeaders(r);
    var ds := Fingerprint(sigs, url, h, None);
    var idx := FingerprintIndices(sigs, url, h, None);
    forall d | d in ds ensures forall x | x in d.reasons :: StartsWith(x, "path:") || StartsWith(x, "header:") {
      var a :| 0 <= a < |ds| && ds[a] == d;
      var sig := sigs[idx[a]];
      PathReasonsTagged(sig.paths, url);
      HeaderReasonsTagged(sig.headers, h);
      assert d.reasons == PathReasons(sig.paths, url) + HeaderReasons(sig.headers, h);
    }
  }

  /** The table's names are distinct, so each technology is reported at most once. */
  lemma TableReportsOnce(url: string, headers: map<string, string>, body: Option<string>)
    ensures var ds := Fingerprint(Signatures(), url, headers, body);
      forall a, b | 0 <= a < b < |ds| :: ds[a].name != ds[b].name
  {
    SignatureNamesUnique();
    FingerprintNames(Signatures(), url, headers, body);
  }
}
