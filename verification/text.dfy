/** The few functions of Go's `strings` package the core relies on. */
module Text {
  import opened Wrappers

  predicate HasPrefix(s: string, prefix: string) {
    |prefix| <= |s| && s[..|prefix|] == prefix
  }

  /** strings.CutPrefix: the rest after `prefix`, or `s` itself when it does not start with it. */
  function CutPrefix(s: string, prefix: string): (r: (string, bool))
    ensures r.1 <==> HasPrefix(s, prefix)
    ensures r.1 ==> s == prefix + r.0
    ensures !r.1 ==> r.0 == s
  {
    if HasPrefix(s, prefix) then
      assert s == s[..|prefix|] + s[|prefix|..];
      (s[|prefix|..], true)
    else (s, false)
  }

  /** Index of the first occurrence of `c` in `s`. */
  function IndexOf(s: string, c: char): (r: Option<nat>)
    ensures r.Some? ==> r.value < |s| && s[r.value] == c && c !in s[..r.value]
    ensures r.None? <==> c !in s
  {
    if |s| == 0 then None
    else if s[0] == c then Some(0)
    else
      match IndexOf(s[1..], c)
      case None => None
      case Some(i) =>
        assert s[1..][..i] == s[1..i + 1];
        assert s[..i + 1] == [s[0]] + s[1..][..i];
        Some(i + 1)
  }

  /** strings.Cut with a one-character separator: the text before and after its
      first occurrence, and whether it occurs at all. */
  function Cut(s: string, sep: char): (r: (string, string, bool))
    ensures r.2 <==> sep in s
    ensures r.2 ==> s == r.0 + [sep] + r.1 && sep !in r.0
    ensures !r.2 ==> r.0 == s && r.1 == ""
  {
    match IndexOf(s, sep)
    case None => (s, "", false)
    case Some(i) =>
      assert s == s[..i] + [sep] + s[i + 1..];
      (s[..i], s[i + 1..], true)
  }

  /** unicode.IsSpace: the Latin-1 spaces and the Unicode White_Space characters above them. */
  predicate IsSpace(c: char) {
    c in SpaceChars || '\U{2000}' <= c <= '\U{200A}'
  }

  const SpaceChars: set<char> :=
    {'\t', '\n', '\U{000B}', '\U{000C}', '\r', ' ', '\U{0085}', '\U{00A0}', '\U{1680}',
     '\U{2028}', '\U{2029}', '\U{202F}', '\U{205F}', '\U{3000}'}

  predicate AllSpace(s: string) {
    forall i :: 0 <= i < |s| ==> IsSpace(s[i])
  }

  /** The number of white-space characters `s` starts with. */
  function LeadingSpaces(s: string): (n: nat)
    ensures n <= |s|
    ensures forall i :: 0 <= i < n ==> IsSpace(s[i])
    ensures n < |s| ==> !IsSpace(s[n])
  {
    if |s| > 0 && IsSpace(s[0]) then
      var m := LeadingSpaces(s[1..]);
      assert forall i :: 1 <= i < m + 1 ==> s[i] == s[1..][i - 1];
      1 + m
    else 0
  }

  /** The number of white-space characters `s` ends with. */
  function TrailingSpaces(s: string): (n: nat)
    ensures n <= |s|
    ensures forall i :: |s| - n <= i < |s| ==> IsSpace(s[i])
    ensures n < |s| ==> !IsSpace(s[|s| - 1 - n])
  {
    if |s| > 0 && IsSpace(s[|s| - 1]) then
      var m := TrailingSpaces(s[..|s| - 1]);
      assert forall i :: |s| - 1 - m <= i < |s| - 1 ==> s[i] == s[..|s| - 1][i];
      1 + m
    else 0
  }

  /** strings.TrimLeftFunc(s, unicode.IsSpace). */
  function TrimLeft(s: string): (r: string)
    ensures |r| <= |s| && r == s[|s| - |r|..]
    ensures AllSpace(s[..|s| - |r|])
    ensures |r| > 0 ==> !IsSpace(r[0])
  {
    var n := LeadingSpaces(s);
    assert forall i :: 0 <= i < n ==> s[..n][i] == s[i];
    s[n..]
  }

  /** strings.TrimRightFunc(s, unicode.IsSpace). */
  function TrimRight(s: string): (r: string)
    ensures |r| <= |s| && r == s[..|r|]
    ensures AllSpace(s[|r|..])
    ensures |r| > 0 ==> !IsSpace(r[|r| - 1])
  {
    var n := TrailingSpaces(s);
    var tail := s[|s| - n..];
    assert forall i :: 0 <= i < n ==> tail[i] == s[|s| - n + i];
    s[..|s| - n]
  }

  /** strings.TrimSpace: the slice of `s` left after removing leading and trailing white space. */
  function TrimSpace(s: string): (r: string)
    ensures exists i, j :: 0 <= i <= j <= |s| && r == s[i..j] && AllSpace(s[..i]) && AllSpace(s[j..])
    ensures |r| > 0 ==> !IsSpace(r[0]) && !IsSpace(r[|r| - 1])
  {
    var l := TrimLeft(s);
    var r := TrimRight(l);
    var i := |s| - |l|;
    assert r == s[i..i + |r|];
    assert s[i + |r|..] == l[|r|..];
    r
  }

  /** White space before a text that does not start with white space is
      exactly what TrimLeft removes. */
  lemma TrimLeftOf(lead: string, core: string)
    requires AllSpace(lead) && |core| > 0 && !IsSpace(core[0])
    ensures TrimLeft(lead + core) == core
  {
    var s := lead + core;
    var n := LeadingSpaces(s);
    assert s[|lead|] == core[0];
    assert forall i :: 0 <= i < |lead| ==> s[i] == lead[i];
    assert n == |lead|;
    assert s[n..] == core;
  }

  /** White space after a text that does not end with white space is exactly
      what TrimRight removes. */
  lemma TrimRightOf(core: string, trail: string)
    requires AllSpace(trail) && |core| > 0 && !IsSpace(core[|core| - 1])
    ensures TrimRight(core + trail) == core
  {
    var s := core + trail;
    var n := TrailingSpaces(s);
    assert s[|core| - 1] == core[|core| - 1];
    assert forall i :: |core| <= i < |s| ==> s[i] == trail[i - |core|];
    assert n == |trail|;
    assert s[..|s| - n] == core;
  }

  /** TrimSpace removes exactly the white space around a text that neither
      starts nor ends with white space. */
  lemma TrimSpaceOf(lead: string, core: string, trail: string)
    requires AllSpace(lead) && AllSpace(trail)
    requires |core| > 0 && !IsSpace(core[0]) && !IsSpace(core[|core| - 1])
    ensures TrimSpace(lead + core + trail) == core
  {
    assert lead + core + trail == lead + (core + trail);
    TrimLeftOf(lead, core + trail);
    TrimRightOf(core, trail);
  }

  /** strings.Split with a one-character separator. */
  function Split(s: string, sep: char): (r: seq<string>)
    ensures |r| >= 1
    ensures forall k :: 0 <= k < |r| ==> sep !in r[k]
    decreases |s|
  {
    var (before, after, found) := Cut(s, sep);
    if found then [before] + Split(after, sep) else [s]
  }

  /** Inverse of Split: the parts glued back together with the separator. */
  function Join(parts: seq<string>, sep: char): string
    requires |parts| >= 1
  {
    if |parts| == 1 then parts[0] else parts[0] + [sep] + Join(parts[1..], sep)
  }

  lemma {:induction false} SplitJoin(s: string, sep: char)
    ensures Join(Split(s, sep), sep) == s
    decreases |s|
  {
    var (before, after, found) := Cut(s, sep);
    if found {
      SplitJoin(after, sep);
      assert Split(s, sep)[1..] == Split(after, sep);
    }
  }

  /** Cut is determined by its result: a text glued at a separator that does
      not occur before it is cut back at that same place. */
  lemma {:induction false} CutUnique(before: string, after: string, sep: char)
    requires sep !in before
    ensures Cut(before + [sep] + after, sep) == (before, after, true)
  {
    var s := before + [sep] + after;
    assert s[|before|] == sep;
    var (b, a, found) := Cut(s, sep);
    assert found;
    assert b == s[..|b|] == before;
    assert a == s[|b| + 1..] == after;
  }
}
