/** String and collection helpers that model the Python `str`, `int()` and `sorted` behaviour the
    core relies on.  Strings are `seq<char>`; case mapping is ASCII only. */
module Text {

  datatype Option<+T> = None | Some(value: T) {
    function GetOr(default: T): T {
      match this
      case Some(v) => v
      case None => default
    }
  }

  // ---------------------------------------------------------------------------------------------
  // Characters

  predicate IsDigit(c: char) { '0' <= c <= '9' }

  predicate IsAsciiAlpha(c: char) { ('a' <= c <= 'z') || ('A' <= c <= 'Z') }

  predicate IsAsciiAlnum(c: char) { IsAsciiAlpha(c) || IsDigit(c) }

  /** The characters Python's `str.isspace` accepts (and `str.strip()` removes). */
  predicate IsSpace(c: char) {
    c == ' ' || ('\t' <= c <= '\r') || ('\U{001c}' <= c <= '\U{001f}') || c == '\U{0085}'
    || c == '\U{00a0}' || c == '\U{1680}' || ('\U{2000}' <= c <= '\U{200a}') || c == '\U{2028}'
    || c == '\U{2029}' || c == '\U{202f}' || c == '\U{205f}' || c == '\U{3000}'
  }

  /** The line boundaries of Python's `str.splitlines` ("\r\n" counts as one boundary). */
  predicate IsLineBreak(c: char) {
    c == '\n' || c == '\r' || c == '\U{000b}' || c == '\U{000c}' || c == '\U{001c}' || c == '\U{001d}'
    || c == '\U{001e}' || c == '\U{0085}' || c == '\U{2028}' || c == '\U{2029}'
  }

  function LowerChar(c: char): char {
    if 'A' <= c <= 'Z' then (c as int - 'A' as int + 'a' as int) as char else c
  }

  function UpperChar(c: char): char {
    if 'a' <= c <= 'z' then (c as int - 'a' as int + 'A' as int) as char else c
  }

  // ---------------------------------------------------------------------------------------------
  // Prefixes, search and case

  predicate StartsWith(s: string, prefix: string) {
    |prefix| <= |s| && s[..|prefix|] == prefix
  }

  /** Python's `pattern in s` for strings. */
  predicate IsSubstring(pattern: string, s: string) {
    exists i | 0 <= i <= |s| - |pattern| :: StartsWith(s[i..], pattern)
  }

  /** `s.lower()`, ASCII letters only. */
  function Lower(s: string): (r: string)
    ensures |r| == |s|
    ensures forall i :: 0 <= i < |s| ==> r[i] == LowerChar(s[i])
  {
    seq(|s|, i requires 0 <= i < |s| => LowerChar(s[i]))
  }

  /** `s.title()`, ASCII letters only: a letter is upper-cased when it follows a non-letter and
      lower-cased when it follows a letter. */
  function Title(s: string): (r: string)
    ensures |r| == |s|
    ensures forall i :: 0 <= i < |s| ==>
      r[i] == (if i > 0 && IsAsciiAlpha(s[i - 1]) then LowerChar(s[i]) else UpperChar(s[i]))
  {
    TitleFrom(s, false)
  }

  /** `Title` of a suffix whose preceding character was a letter exactly when `afterLetter`. */
  function TitleFrom(s: string, afterLetter: bool): (r: string)
    ensures |r| == |s|
    ensures forall i :: 0 <= i < |s| ==>
      r[i] == (if (if i == 0 then afterLetter else IsAsciiAlpha(s[i - 1])) then LowerChar(s[i]) else UpperChar(s[i]))
    decreases |s|
  {
    if s == [] then []
    else
      var rest := TitleFrom(s[1..], IsAsciiAlpha(s[0]));
      var r := [if afterLetter then LowerChar(s[0]) else UpperChar(s[0])] + rest;
      assert forall i :: 0 < i < |s| ==> r[i] == rest[i - 1] && s[1..][i - 1] == s[i];
      r
  }

  /** The index of the first occurrence of `c` in `s`, or `|s|` when there is none. */
  function IndexOf(s: string, c: char): (i: nat)
    ensures i <= |s|
    ensures i < |s| ==> s[i] == c
    ensures forall j :: 0 <= j < i ==> s[j] != c
  {
    if s == [] then 0 else if s[0] == c then 0 else 1 + IndexOf(s[1..], c)
  }

  /** `s.split(c)[0]`: the text before the first `c`. */
  function BeforeFirst(s: string, c: char): (r: string)
    ensures c !in r
    ensures StartsWith(s, r)
    ensures |r| < |s| ==> s[|r|] == c
  {
    s[..IndexOf(s, c)]
  }

  /** Cutting at the first `c` skips over a prefix without `c`. */
  lemma {:induction false} BeforeFirstAppend(a: string, b: string, c: char)
    requires c !in a
    ensures BeforeFirst(a + b, c) == a + BeforeFirst(b, c)
  {
    IndexOfAppend(a, b, c);
    assert (a + b)[..|a| + IndexOf(b, c)] == a + b[..IndexOf(b, c)];
  }

  lemma {:induction false} IndexOfAppend(a: string, b: string, c: char)
    requires c !in a
    ensures IndexOf(a + b, c) == |a| + IndexOf(b, c)
  {
    if a != [] {
      assert (a + b)[0] == a[0] && a[0] != c;
      assert (a + b)[1..] == a[1..] + b;
      assert c !in a[1..];
      IndexOfAppend(a[1..], b, c);
    } else {
      assert a + b == b;
    }
  }

  /** The text after the first `c` (everything of `s.split(c, 1)[1]`); empty when there is no `c`. */
  function AfterFirst(s: string, c: char): string {
    var i := IndexOf(s, c);
    if i < |s| then s[i + 1..] else ""
  }

  function CountChar(s: string, c: char): nat {
    if s == [] then 0 else (if s[0] == c then 1 else 0) + CountChar(s[1..], c)
  }

  /** `c.join(parts)`. */
  function Join(parts: seq<string>, c: char): string
    decreases |parts|
  {
    if parts == [] then ""
    else if |parts| == 1 then parts[0]
    else parts[0] + [c] + Join(parts[1..], c)
  }

  /** `s.split(c)` for a one-character separator: always at least one piece, no piece holds `c`,
      and joining the pieces with `c` gives `s` back. */
  function Split(s: string, c: char): (r: seq<string>)
    ensures |r| == CountChar(s, c) + 1
    ensures forall k :: 0 <= k < |r| ==> c !in r[k]
    ensures Join(r, c) == s
    decreases |s|
  {
    var i := IndexOf(s, c);
    CountAtFirst(s, c);
    if i == |s| then [s]
    else
      var rest := Split(s[i + 1..], c);
      var r := [s[..i]] + rest;
      assert r[1..] == rest;
      assert s == s[..i] + [c] + s[i + 1..];
      r
  }

  lemma {:induction false} CountAtFirst(s: string, c: char)
    ensures IndexOf(s, c) == |s| ==> CountChar(s, c) == 0
    ensures IndexOf(s, c) < |s| ==> CountChar(s, c) == 1 + CountChar(s[IndexOf(s, c) + 1..], c)
  {
    if s != [] && s[0] != c {
      CountAtFirst(s[1..], c);
      if IndexOf(s[1..], c) < |s[1..]| {
        assert s[1..][IndexOf(s[1..], c) + 1..] == s[IndexOf(s, c) + 1..];
      }
    }
  }

  /** `s.replace(c, d)` for single characters. */
  function ReplaceChar(s: string, c: char, d: char): (r: string)
    ensures |r| == |s|
    ensures forall i :: 0 <= i < |s| ==> r[i] == (if s[i] == c then d else s[i])
  {
    seq(|s|, i requires 0 <= i < |s| => if s[i] == c then d else s[i])
  }

  /** `s.replace(pattern, replacement)`: leftmost, non-overlapping occurrences. */
  function ReplaceAll(s: string, pattern: string, replacement: string): string
    requires |pattern| > 0
    decreases |s|
  {
    if |s| < |pattern| then s
    else if s[..|pattern|] == pattern then replacement + ReplaceAll(s[|pattern|..], pattern, replacement)
    else [s[0]] + ReplaceAll(s[1..], pattern, replacement)
  }

  // ---------------------------------------------------------------------------------------------
  // Stripping

  function LeadingCount(s: string, strip: char -> bool): (n: nat)
    ensures n <= |s|
    ensures forall k :: 0 <= k < n ==> strip(s[k])
    ensures n < |s| ==> !strip(s[n])
  {
    if s == [] || !strip(s[0]) then 0 else 1 + LeadingCount(s[1..], strip)
  }

  function TrailingCount(s: string, strip: char -> bool): (n: nat)
    ensures n <= |s|
    ensures forall k :: |s| - n <= k < |s| ==> strip(s[k])
    ensures n < |s| ==> !strip(s[|s| - 1 - n])
  {
    if s == [] || !strip(s[|s| - 1]) then 0 else 1 + TrailingCount(s[..|s| - 1], strip)
  }

  /** `r` is `s` with the characters satisfying `strip` removed from both ends: the slice of `s`
      after its leading run of stripped characters, with only stripped characters after it, and
      neither starting nor ending with one. */
  predicate StrippedOf(r: string, s: string, strip: char -> bool) {
    var a := LeadingCount(s, strip);
    a + |r| <= |s| && r == s[a..a + |r|]
    && (forall k :: a + |r| <= k < |s| ==> strip(s[k]))
    && (r == [] || (!strip(r[0]) && !strip(r[|r| - 1])))
  }

  function StripBy(s: string, strip: char -> bool): (r: string)
    ensures StrippedOf(r, s, strip)
  {
    var a := LeadingCount(s, strip);
    var t := s[a..];
    var n := TrailingCount(t, strip);
    assert forall k :: a + |t| - n <= k < |s| ==> s[k] == t[k - a];
    t[..|t| - n]
  }

  /** `s.strip()`. */
  function Strip(s: string): (r: string)
    ensures StrippedOf(r, s, IsSpace)
    ensures r == [] || (!IsSpace(r[0]) && !IsSpace(r[|r| - 1]))
  {
    StripBy(s, IsSpace)
  }

  /** The test for the one character `c`. */
  function Is(c: char): char -> bool {
    x => x == c
  }

  /** `s.strip(c)` for a single character. */
  function StripChar(s: string, c: char): (r: string)
    ensures StrippedOf(r, s, Is(c))
    ensures r == [] || (r[0] != c && r[|r| - 1] != c)
  {
    StripBy(s, Is(c))
  }

  // ---------------------------------------------------------------------------------------------
  // Lines

  function FirstBreak(s: string): (i: nat)
    ensures i <= |s|
    ensures i < |s| ==> IsLineBreak(s[i])
    ensures forall j :: 0 <= j < i ==> !IsLineBreak(s[j])
  {
    if s == [] then 0 else if IsLineBreak(s[0]) then 0 else 1 + FirstBreak(s[1..])
  }

  /** `s.splitlines()`: no boundary character survives in a line, and a final boundary does not
      start an extra empty line. */
  function SplitLines(s: string): (lines: seq<string>)
    ensures forall k, j :: 0 <= k < |lines| && 0 <= j < |lines[k]| ==> !IsLineBreak(lines[k][j])
    decreases |s|
  {
    if s == [] then []
    else
      var i := FirstBreak(s);
      if i == |s| then [s]
      else
        var skip := if s[i] == '\r' && i + 1 < |s| && s[i + 1] == '\n' then 2 else 1;
        [s[..i]] + SplitLines(s[i + skip..])
  }

  /** A line boundary `splitlines` consumes: one break character, or `\r\n`. */
  predicate IsBoundary(b: string) {
    b == "\r\n" || (|b| == 1 && IsLineBreak(b[0]))
  }

  /** The text rebuilt from its lines and the boundary that ended each. */
  function Rejoin(lines: seq<string>, ends: seq<string>): string
    requires |lines| == |ends|
  {
    if lines == [] then "" else lines[0] + ends[0] + Rejoin(lines[1..], ends[1..])
  }

  /** `ends` are the boundaries `splitlines` consumed after `lines`: each a boundary, except that
      the last line may run to the end of the text (and is then not empty), and a lone `\r` is
      never followed by `\n` (the two would form one `\r\n` boundary). */
  predicate Delimits(lines: seq<string>, ends: seq<string>)
    requires |lines| == |ends|
  {
    forall k :: 0 <= k < |ends| ==>
      (IsBoundary(ends[k]) || (k == |ends| - 1 && ends[k] == [] && lines[k] != []))
      && (k + 1 < |ends| && ends[k] == "\r" ==> !(lines[k + 1] == [] && ends[k + 1] == "\n"))
  }

  /** The lines of `s.splitlines()` are the pieces of `s` between its boundaries, in order: with
      the boundaries put back, they give `s`. */
  lemma SplitLinesRejoin(s: string)
    ensures exists ends | |ends| == |SplitLines(s)| :: Rejoin(SplitLines(s), ends) == s && Delimits(SplitLines(s), ends)
  {
    var ends := LineEnds(s);
    assert Rejoin(SplitLines(s), ends) == s && Delimits(SplitLines(s), ends);
  }

  /** The boundaries `s.splitlines()` consumes, one per line. */
  lemma {:induction false} LineEnds(s: string) returns (ends: seq<string>)
    ensures |ends| == |SplitLines(s)| && Rejoin(SplitLines(s), ends) == s && Delimits(SplitLines(s), ends)
    decreases |s|
  {
    var lines := SplitLines(s);
    if s == [] {
      ends := [];
    } else {
      var i := FirstBreak(s);
      if i == |s| {
        assert lines == [s];
        ends := [""];
        assert Rejoin(lines, ends) == s + "" + Rejoin([], []);
      } else {
        var skip := if s[i] == '\r' && i + 1 < |s| && s[i + 1] == '\n' then 2 else 1;
        var rest := s[i + skip..];
        var restEnds := LineEnds(rest);
        var e := s[i..i + skip];
        BoundaryAt(s, i, skip);
        assert s == s[..i] + e + rest by {
          assert s[..i] + e == s[..i + skip];
        }
        assert lines == [s[..i]] + SplitLines(rest);
        RejoinDelimitsCons(s[..i], e, SplitLines(rest), restEnds);
        ends := [e] + restEnds;
      }
    }
  }

  /** The boundary at a line break `s[i]`, as `splitlines` consumes it: `\r\n` as one, any
      other break alone, so that a lone `\r` is never followed by `\n`. */
  lemma BoundaryAt(s: string, i: nat, skip: nat)
    requires i < |s| && IsLineBreak(s[i])
    requires skip == if s[i] == '\r' && i + 1 < |s| && s[i + 1] == '\n' then 2 else 1
    ensures IsBoundary(s[i..i + skip])
    ensures s[i..i + skip] == "\r" ==> s[i + skip..] == [] || s[i + skip..][0] != '\n'
  {
    if skip == 2 {
      assert s[i..i + skip] == [s[i], s[i + 1]];
    } else {
      BoundaryAlone(s, i);
    }
  }

  lemma BoundaryAlone(s: string, i: nat)
    requires i < |s| && IsLineBreak(s[i])
    requires !(s[i] == '\r' && i + 1 < |s| && s[i + 1] == '\n')
    ensures IsBoundary(s[i..i + 1])
    ensures s[i..i + 1] == "\r" ==> s[i + 1..] == [] || s[i + 1..][0] != '\n'
  {
    assert s[i..i + 1] == [s[i]];
    if i + 1 < |s| {
      assert s[i + 1..][0] == s[i + 1];
    }
  }

  /** One more line and its boundary in front of a delimited text. */
  lemma RejoinDelimitsCons(line: string, e: string, lines: seq<string>, ends: seq<string>)
    requires |lines| == |ends| && Delimits(lines, ends) && IsBoundary(e)
    requires e == "\r" ==> var rest := Rejoin(lines, ends); rest == [] || rest[0] != '\n'
    ensures Rejoin([line] + lines, [e] + ends) == line + e + Rejoin(lines, ends)
    ensures Delimits([line] + lines, [e] + ends)
  {
    var ls, es := [line] + lines, [e] + ends;
    assert ls[1..] == lines && es[1..] == ends;
    forall k | 1 <= k < |es|
      ensures (IsBoundary(es[k]) || (k == |es| - 1 && es[k] == [] && ls[k] != []))
        && (k + 1 < |es| && es[k] == "\r" ==> !(ls[k + 1] == [] && es[k + 1] == "\n"))
    {
      assert es[k] == ends[k - 1] && ls[k] == lines[k - 1];
      if k + 1 < |es| {
        assert es[k + 1] == ends[k] && ls[k + 1] == lines[k];
      }
    }
  }

  // ---------------------------------------------------------------------------------------------
  // Numbers

  function DigitChar(d: nat): char
    requires d < 10
  {
    ('0' as int + d) as char
  }

  /** Decimal rendering of a natural number, as Python's `str` / f-string does. */
  function NatToString(n: nat): (r: string)
    ensures |r| > 0
    ensures forall i :: 0 <= i < |r| ==> IsDigit(r[i])
    ensures DigitsValue(r) == n
  {
    if n < 10 then
      assert [DigitChar(n)][..0] == [];
      [DigitChar(n)]
    else
      var prefix := NatToString(n / 10);
      var r := prefix + [DigitChar(n % 10)];
      assert r[..|r| - 1] == prefix;
      r
  }

  /** `int(str(n)) == n`: the rendering parses back to the number. */
  lemma NatToStringParses(n: nat)
    ensures ParseInt(NatToString(n)) == Some(n as int)
  {
    var r := NatToString(n);
    AllDigitsGroups(r);
    assert LeadingCount(r, IsSpace) == 0;
    assert TrailingCount(r, IsSpace) == 0;
    assert Strip(r) == r;
  }

  lemma {:induction false} AllDigitsGroups(s: string)
    requires |s| > 0 && forall i :: 0 <= i < |s| ==> IsDigit(s[i])
    ensures DigitGroups(s)
    decreases |s|
  {
    if |s| > 1 { AllDigitsGroups(s[1..]); }
  }

  /** Digits with single underscores between them, as `int()` accepts: `digit ('_'? digit)*`. */
  predicate DigitGroups(s: string) decreases |s| {
    |s| > 0 && IsDigit(s[0]) &&
    (|s| == 1 ||
     (IsDigit(s[1]) && DigitGroups(s[1..])) ||
     (s[1] == '_' && DigitGroups(s[2..])))
  }

  function DigitsValue(s: string): nat
    decreases |s|
  {
    if s == [] then 0
    else
      var last := s[|s| - 1];
      if IsDigit(last) then DigitsValue(s[..|s| - 1]) * 10 + (last as int - '0' as int)
      else DigitsValue(s[..|s| - 1])
  }

  /** The text `int` accepts once stripped: digit groups with an optional leading sign. */
  predicate SignedDigitGroups(t: string) {
    DigitGroups(t) || (|t| > 0 && (t[0] == '+' || t[0] == '-') && DigitGroups(t[1..]))
  }

  /** A leading non-digit (a sign) adds nothing to the value. */
  lemma {:induction false} DigitsValueSkips(c: char, u: string)
    requires !IsDigit(c)
    ensures DigitsValue([c] + u) == DigitsValue(u)
    decreases |u|
  {
    if u != [] {
      assert ([c] + u)[..|u|] == [c] + u[..|u| - 1];
      DigitsValueSkips(c, u[..|u| - 1]);
    } else {
      assert ([c] + u)[..0] == [];
    }
  }

  /** Python's `int(s)` for base 10 over ASCII digits: surrounding whitespace, an optional sign,
      digit groups; `None` where `int` raises `ValueError`. */
  function ParseInt(s: string): (r: Option<int>)
    ensures r.Some? <==> SignedDigitGroups(Strip(s))
    ensures r.Some? ==> r.value == (if Strip(s)[0] == '-' then -1 else 1) * DigitsValue(Strip(s))
    ensures r.Some? ==> exists k :: 0 <= k < |s| && IsDigit(s[k])
  {
    var t := Strip(s);
    if |t| > 0 && (t[0] == '+' || t[0] == '-') then
      if DigitGroups(t[1..]) then
        assert IsDigit(t[1..][0]);
        DigitWitness(s, t, 1);
        assert t == [t[0]] + t[1..];
        DigitsValueSkips(t[0], t[1..]);
        Some(if t[0] == '-' then -(DigitsValue(t[1..]) as int) else DigitsValue(t[1..]) as int)
      else None
    else if DigitGroups(t) then
      DigitWitness(s, t, 0);
      Some(DigitsValue(t))
    else None
  }

  lemma DigitWitness(s: string, t: string, k: nat)
    requires t == Strip(s) && k < |t| && IsDigit(t[k])
    ensures exists j :: 0 <= j < |s| && IsDigit(s[j])
  {
    var a := LeadingCount(s, IsSpace);
    assert t[k] == s[a..][k] == s[a + k];
  }

  // ---------------------------------------------------------------------------------------------
  // Sequences

  predicate NoDuplicates<T(==)>(s: seq<T>) {
    forall i, j :: 0 <= i < j < |s| ==> s[i] != s[j]
  }

  function Elements<T>(s: seq<T>): set<T> {
    set x | x in s
  }

  lemma EmptyElements<T>(s: seq<T>)
    ensures Elements(s) == {} <==> s == []
  {
    if s != [] { assert s[0] in Elements(s); }
  }

  lemma ElementsAppend<T>(s: seq<T>, x: T)
    ensures Elements(s + [x]) == Elements(s) + {x}
  {
    assert forall y :: y in s + [x] <==> y in s || y == x;
  }

  // ---------------------------------------------------------------------------------------------
  // Ordering of strings (Python compares code points lexicographically)

  predicate Less(a: string, b: string) decreases |a| {
    if a == [] then b != []
    else if b == [] then false
    else if a[0] != b[0] then a[0] < b[0]
    else Less(a[1..], b[1..])
  }

  lemma {:induction false} LessIrreflexive(a: string)
    ensures !Less(a, a)
    decreases |a|
  {
    if a != [] { LessIrreflexive(a[1..]); }
  }

  lemma {:induction false} LessTransitive(a: string, b: string, c: string)
    requires Less(a, b) && Less(b, c)
    ensures Less(a, c)
    decreases |a|
  {
    if a != [] && b != [] && c != [] && a[0] == b[0] && b[0] == c[0] {
      LessTransitive(a[1..], b[1..], c[1..]);
    }
  }

  lemma {:induction false} LessTotal(a: string, b: string)
    requires a != b
    ensures Less(a, b) || Less(b, a)
    decreases |a|
  {
    if a != [] && b != [] && a[0] == b[0] {
      assert a == [a[0]] + a[1..] && b == [b[0]] + b[1..];
      LessTotal(a[1..], b[1..]);
    }
  }

  predicate StrictlySorted(s: seq<string>) {
    forall i, j :: 0 <= i < j < |s| ==> Less(s[i], s[j])
  }

  /** Inserts `x` into a strictly sorted sequence, dropping it if already present. */
  function InsertUnique(s: seq<string>, x: string): (r: seq<string>)
    requires StrictlySorted(s)
    ensures StrictlySorted(r)
    ensures Elements(r) == Elements(s) + {x}
  {
    if s == [] then [x]
    else if s[0] == x then s
    else if Less(x, s[0]) then
      assert forall j :: 0 <= j < |s| ==> Less(x, s[j]) by {
        forall j | 0 < j < |s| ensures Less(x, s[j]) { LessTransitive(x, s[0], s[j]); }
      }
      [x] + s
    else
      LessTotal(x, s[0]);
      var rest := InsertUnique(s[1..], x);
      assert Elements(s) == {s[0]} + Elements(s[1..]) by {
        assert s == [s[0]] + s[1..];
      }
      forall j | 0 <= j < |rest| ensures Less(s[0], rest[j]) {
        assert rest[j] in Elements(rest);
        if rest[j] != x {
          assert rest[j] in Elements(s[1..]);
          var k :| 0 <= k < |s[1..]| && s[1..][k] == rest[j];
          assert s[k + 1] == rest[j];
        }
      }
      var r := [s[0]] + rest;
      assert Elements(r) == {s[0]} + Elements(rest) by { assert forall y :: y in r <==> y == s[0] || y in rest; }
      r
  }

  /** `sorted(set(xs))`: the distinct elements of `xs` in increasing order. */
  function SortedUnique(xs: seq<string>): (r: seq<string>)
    ensures StrictlySorted(r)
    ensures Elements(r) == Elements(xs)
  {
    if xs == [] then []
    else
      var r := InsertUnique(SortedUnique(xs[..|xs| - 1]), xs[|xs| - 1]);
      assert xs == xs[..|xs| - 1] + [xs[|xs| - 1]];
      r
  }

  /** A strictly sorted sequence is determined by its elements, so `SortedUnique` is THE sorted
      listing of a set, whatever order the elements were collected in. */
  lemma {:induction false} SortedUniqueDetermined(a: seq<string>, b: seq<string>)
    requires StrictlySorted(a) && StrictlySorted(b) && Elements(a) == Elements(b)
    ensures a == b
    decreases |a|
  {
    if a != [] {
      assert a[0] in Elements(b);
      var i0 :| 0 <= i0 < |b| && b[i0] == a[0];
      assert b[0] in Elements(a);
      if a[0] != b[0] {
        var i :| 0 <= i < |b| && b[i] == a[0];
        var j :| 0 <= j < |a| && a[j] == b[0];
        assert Less(b[0], a[0]) by { if i == 0 { assert false; } }
        assert Less(a[0], b[0]) by { if j == 0 { assert false; } }
        LessTransitive(a[0], b[0], a[0]);
        LessIrreflexive(a[0]);
      }
      forall y | y in Elements(a[1..]) ensures y in Elements(b[1..]) {
        var k :| 0 <= k < |a[1..]| && a[1..][k] == y;
        LessIrreflexive(a[0]);
        assert y != a[0];
        assert y == a[k + 1] && y in Elements(a);
        assert y in Elements(b);
        var m :| 0 <= m < |b| && b[m] == y;
        assert m != 0;
        assert b[1..][m - 1] == y;
      }
      forall y | y in Elements(b[1..]) ensures y in Elements(a[1..]) {
        var k :| 0 <= k < |b[1..]| && b[1..][k] == y;
        LessIrreflexive(b[0]);
        assert y != b[0];
        assert y == b[k + 1] && y in Elements(b);
        assert y in Elements(a);
        var m :| 0 <= m < |a| && a[m] == y;
        assert m != 0;
        assert a[1..][m - 1] == y;
      }
      SortedUniqueDetermined(a[1..], b[1..]);
      assert a == [a[0]] + a[1..] && b == [b[0]] + b[1..];
    } else {
      EmptyElements(b);
    }
  }

  /** `sorted(s)` for a set of strings. */
  method SortSet(s: set<string>) returns (r: seq<string>)
    ensures StrictlySorted(r) && Elements(r) == s
  {
    r := [];
    var rest := s;
    while rest != {}
      invariant StrictlySorted(r)
      invariant Elements(r) + rest == s
      decreases rest
    {
      var x :| x in rest;
      r := InsertUnique(r, x);
      rest := rest - {x};
    }
  }
}
