/** The part of Python's `urllib.parse.urlparse` the core depends on: the scheme rule, the
    network location after `//`, the bracket check that raises `ValueError`, and the split of the
    remainder into path, parameters, query and fragment. */
module Urls {
  import opened Text

  datatype ParsedUrl = ParsedUrl(
    scheme: string, netloc: string, path: string, params: string, query: string, fragment: string)

  predicate IsSchemeChar(c: char) {
    IsAsciiAlnum(c) || c == '+' || c == '-' || c == '.'
  }

  /** Schemes for which `urlparse` splits `;parameters` off the last path segment. */
  predicate UsesParams(scheme: string) {
    scheme in ["", "ftp", "hdl", "prospero", "http", "imap", "https", "shttp", "rtsp", "rtsps",
               "rtspu", "sip", "sips", "mms", "sftp", "tel"]
  }

  /** The index of the first character of `s` at or after `from` that satisfies `p`, or `|s|`. */
  function FindFrom(s: string, from: nat, p: char -> bool): (i: nat)
    requires from <= |s|
    ensures from <= i <= |s|
    ensures i < |s| ==> p(s[i])
    ensures forall j :: from <= j < i ==> !p(s[j])
    decreases |s| - from
  {
    if from == |s| then from else if p(s[from]) then from else FindFrom(s, from + 1, p)
  }

  /** The index of the last `c` in `s`, if any. */
  function LastIndexOf(s: string, c: char): (r: Option<nat>)
    ensures r.Some? ==> r.value < |s| && s[r.value] == c && forall j :: r.value < j < |s| ==> s[j] != c
    ensures r.None? ==> c !in s
  {
    if s == [] then None
    else if s[|s| - 1] == c then Some(|s| - 1)
    else
      var r := LastIndexOf(s[..|s| - 1], c);
      assert forall j :: 0 <= j < |s| - 1 ==> s[..|s| - 1][j] == s[j];
      r
  }

  /** The scheme `urlsplit` recognises and the text after its colon, or `("", url)`. */
  function SplitScheme(url: string): (string, string) {
    var i := IndexOf(url, ':');
    if 0 < i < |url| && IsAsciiAlpha(url[0]) && forall k | 0 <= k < i :: IsSchemeChar(url[k])
    then (Lower(url[..i]), url[i + 1..])
    else ("", url)
  }

  predicate NetlocDelimiter(c: char) { c == '/' || c == '?' || c == '#' }

  /** `urlparse(url)`; `None` where it raises `ValueError` (an unmatched `[` or `]` in the
      network location). */
  function UrlParse(url: string): Option<ParsedUrl> {
    var (scheme, rest) := SplitScheme(url);
    var (netloc, rest) :=
      if StartsWith(rest, "//") then
        var d := FindFrom(rest, 2, NetlocDelimiter);
        (rest[2..d], rest[d..])
      else ("", rest);
    if ('[' in netloc) != (']' in netloc) then None
    else
      var (rest, fragment) := if '#' in rest then (BeforeFirst(rest, '#'), AfterFirst(rest, '#')) else (rest, "");
      var (path, query) := if '?' in rest then (BeforeFirst(rest, '?'), AfterFirst(rest, '?')) else (rest, "");
      var (path, params) :=
        if UsesParams(scheme) && ';' in path then
          var from := match LastIndexOf(path, '/') case Some(j) => j case None => 0;
          var i := FindFrom(path, from, c => c == ';');
          if i < |path| then (path[..i], path[i + 1..]) else (path, "")
        else (path, "");
      Some(ParsedUrl(scheme, netloc, path, params, query, fragment))
  }

  /** A URL written `scheme://host` followed by nothing or by a `/`, `?` or `#` part parses with
      that scheme (lower-cased) and that host as its network location. */
  lemma {:induction false} ParseSchemeHost(scheme: string, host: string, tail: string)
    requires |scheme| > 0 && IsAsciiAlpha(scheme[0]) && forall k | 0 <= k < |scheme| :: IsSchemeChar(scheme[k])
    requires forall k | 0 <= k < |host| :: !NetlocDelimiter(host[k]) && host[k] != '[' && host[k] != ']'
    requires tail == [] || NetlocDelimiter(tail[0])
    ensures UrlParse(scheme + "://" + host + tail).Some?
    ensures UrlParse(scheme + "://" + host + tail).value.scheme == Lower(scheme)
    ensures UrlParse(scheme + "://" + host + tail).value.netloc == host
  {
    var url := scheme + "://" + host + tail;
    var rest := "//" + host + tail;
    assert url == scheme + ":" + rest;
    SplitSchemeAt(scheme, rest);
    NetlocAfterSlashes(host, tail);
    ParseWithNetloc(url, Lower(scheme), rest, host);
  }

  /** A valid scheme followed by a colon is split off, lower-cased. */
  lemma SplitSchemeAt(scheme: string, rest: string)
    requires |scheme| > 0 && IsAsciiAlpha(scheme[0]) && forall k | 0 <= k < |scheme| :: IsSchemeChar(scheme[k])
    ensures SplitScheme(scheme + ":" + rest) == (Lower(scheme), rest)
  {
    var url := scheme + ":" + rest;
    assert forall k | 0 <= k < |scheme| :: url[k] == scheme[k];
    assert url[|scheme|] == ':';
    assert IndexOf(url, ':') == |scheme| by {
      forall k | 0 <= k < |scheme| ensures url[k] != ':' { assert IsSchemeChar(scheme[k]); }
      IndexOfFirst(url, ':', |scheme|);
    }
    assert url[..|scheme|] == scheme;
    assert url[|scheme| + 1..] == rest;
  }

  /** After `//`, the network location runs up to the first `/`, `?` or `#`. */
  lemma NetlocAfterSlashes(host: string, tail: string)
    requires forall k | 0 <= k < |host| :: !NetlocDelimiter(host[k])
    requires tail == [] || NetlocDelimiter(tail[0])
    ensures var rest := "//" + host + tail;
      StartsWith(rest, "//") && rest[2..FindFrom(rest, 2, NetlocDelimiter)] == host
  {
    var rest := "//" + host + tail;
    assert forall k | 2 <= k < 2 + |host| :: rest[k] == host[k - 2];
    FindFromIs(rest, 2, NetlocDelimiter, 2 + |host|);
    assert rest[2..2 + |host|] == host;
  }

  /** A URL whose scheme split and network location are known parses with them, when the
      network location has no bracket. */
  lemma ParseWithNetloc(url: string, scheme: string, rest: string, host: string)
    requires SplitScheme(url) == (scheme, rest)
    requires StartsWith(rest, "//") && rest[2..FindFrom(rest, 2, NetlocDelimiter)] == host
    requires '[' !in host && ']' !in host
    ensures UrlParse(url).Some? && UrlParse(url).value.scheme == scheme && UrlParse(url).value.netloc == host
  {
  }

  lemma {:induction false} FindFromIs(s: string, from: nat, p: char -> bool, i: nat)
    requires from <= i <= |s|
    requires forall j | from <= j < i :: !p(s[j])
    requires i < |s| ==> p(s[i])
    ensures FindFrom(s, from, p) == i
    decreases i - from
  {
    if from < i { FindFromIs(s, from + 1, p, i); }
  }

  lemma {:induction false} IndexOfFirst(s: string, c: char, i: nat)
    requires i < |s| && s[i] == c && forall k | 0 <= k < i :: s[k] != c
    ensures IndexOf(s, c) == i
  {
    if i > 0 { IndexOfFirst(s[1..], c, i - 1); }
  }
}
