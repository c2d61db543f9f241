/** Go's os.Expand, the interpolation primitive under both the variable
    containers and StepContext.ExpandString.

    The input is read left to right into segments. A `$` followed by a shell
    name becomes a reference whose replacement the caller's mapping supplies;
    `${}` and an unterminated `${` are swallowed; a `$` followed by nothing
    nameable stays literal. Every segment remembers the input text it was read
    from, so the parse is lossless. */
module OsExpand {
  import opened Wrappers
  import opened Text

  datatype Segment =
    | Lit(text: string)                 // copied to the output as is
    | Ref(name: string, src: string)    // replaced by mapping(name)
    | Dropped(src: string)              // bad syntax, eaten

  function Source(seg: Segment): string {
    match seg
    case Lit(t) => t
    case Ref(_, src) => src
    case Dropped(src) => src
  }

  function Sources(segs: seq<Segment>): string {
    if |segs| == 0 then "" else Source(segs[0]) + Sources(segs[1..])
  }

  lemma SourcesCons(seg: Segment, rest: seq<Segment>)
    ensures Sources([seg] + rest) == Source(seg) + Sources(rest)
  {
    assert ([seg] + rest)[1..] == rest;
  }

  /** The one-character shell parameters `$*`, `$#`, `$$`, `$@`, `$!`, `$?`, `$-`, `$0`..`$9`. */
  predicate IsShellSpecial(c: char) {
    c == '*' || c == '#' || c == '$' || c == '@' || c == '!' || c == '?' || c == '-' || ('0' <= c <= '9')
  }

  predicate IsAlphaNum(c: char) {
    c == '_' || ('0' <= c <= '9') || ('a' <= c <= 'z') || ('A' <= c <= 'Z')
  }

  /** Length of the longest alphanumeric prefix of `t`. */
  function AlnumRun(t: string): (n: nat)
    ensures n <= |t|
    ensures forall i :: 0 <= i < n ==> IsAlphaNum(t[i])
    ensures n < |t| ==> !IsAlphaNum(t[n])
  {
    if |t| > 0 && IsAlphaNum(t[0]) then 1 + AlnumRun(t[1..]) else 0
  }

  /** getShellName: the name that follows a `$` (the `$` already consumed) and how
      many characters it spans. An empty name with a positive width is bad syntax. */
  function ShellName(t: string): (r: (string, nat))
    requires |t| > 0
    ensures r.1 <= |t|
    ensures r.0 != "" ==>
      r.0 == t[..r.1] || (r.1 >= 2 && t[..r.1] == "{" + r.0 + "}")
  {
    if t[0] == '{' then
      if |t| > 2 && IsShellSpecial(t[1]) && t[2] == '}' then
        assert t[..3] == "{" + t[1..2] + "}";
        (t[1..2], 3)
      else
        match IndexOf(t[1..], '}')
        case None => ("", 1)
        case Some(i) =>
          if i == 0 then ("", 2)
          else
            assert t[..i + 2] == "{" + t[1..i + 1] + "}";
            (t[1..i + 1], i + 2)
    else if IsShellSpecial(t[0]) then (t[..1], 1)
    else
      var n := AlnumRun(t);
      (t[..n], n)
  }

  /** What ShellName reads. Unbraced, the name is the text it spans and is
      either one shell special character or a run of letters, digits and
      `_` that stops only at the end or before a character of another kind,
      so a dot ends it; braced, it is everything up to the first `}`. */
  lemma ShellNameShape(t: string)
    requires |t| > 0
    ensures t[0] != '{' ==> ShellName(t).0 == t[..ShellName(t).1]
    ensures ShellName(t).0 != "" && t[0] != '{' ==>
      forall k :: 0 <= k < |ShellName(t).0| ==> IsAlphaNum(ShellName(t).0[k]) || (|ShellName(t).0| == 1 && IsShellSpecial(ShellName(t).0[0]))
    ensures t[0] != '{' && !IsShellSpecial(t[0]) ==> ShellName(t).1 == |t| || !IsAlphaNum(t[ShellName(t).1])
    ensures t[0] == '{' && ShellName(t).0 != "" ==> ShellName(t).1 == |ShellName(t).0| + 2 && '}' !in ShellName(t).0
    ensures t[0] == '{' && ShellName(t).0 != "" ==>
      ShellName(t).1 <= |t| && ShellName(t).0 == t[1..ShellName(t).1 - 1] && t[ShellName(t).1 - 1] == '}'
  {
  }

  /** The segments of `s`, in order. */
  function Parse(s: string): (segs: seq<Segment>)
    ensures Sources(segs) == s
    ensures forall seg :: seg in segs && seg.Ref? ==> seg.name != "" && |seg.name| < |s|
    decreases |s|
  {
    if |s| == 0 then []
    else if s[0] == '$' && |s| > 1 then
      var (name, w) := ShellName(s[1..]);
      var seg :=
        if name == "" && w > 0 then Dropped(s[..1 + w])
        else if name == "" then Lit("$")
        else Ref(name, s[..1 + w]);
      var rest := Parse(s[1 + w..]);
      assert s == Source(seg) + s[1 + w..];
      SourcesCons(seg, rest);
      [seg] + rest
    else
      var rest := Parse(s[1..]);
      assert s == [s[0]] + s[1..];
      SourcesCons(Lit([s[0]]), rest);
      [Lit([s[0]])] + rest
  }

  /** Literal text is copied, each reference replaced by the mapping's answer,
      bad syntax dropped. A mapping that answers every reference with the text
      it was read from, over segments with nothing dropped, gives that text
      back. */
  function Render(segs: seq<Segment>, mapping: string -> string): string {
    if |segs| == 0 then ""
    else
      var head :=
        match segs[0]
        case Lit(t) => t
        case Ref(name, _) => mapping(name)
        case Dropped(_) => "";
      head + Render(segs[1..], mapping)
  }

  /** os.Expand(s, mapping). When the text has no bad syntax and the mapping
      puts every reference back as it was written, the text is unchanged. */
  function Expand(s: string, mapping: string -> string): string {
    Render(Parse(s), mapping)
  }

  function Names(segs: seq<Segment>): (r: seq<string>)
    ensures forall n :: n in r ==> exists seg :: seg in segs && seg.Ref? && seg.name == n
  {
    if |segs| == 0 then []
    else
      var rest := Names(segs[1..]);
      assert forall n :: n in rest ==> exists seg :: seg in segs && seg.Ref? && seg.name == n by {
        forall n | n in rest
          ensures exists seg :: seg in segs && seg.Ref? && seg.name == n
        {
          var seg :| seg in segs[1..] && seg.Ref? && seg.name == n;
          assert seg in segs;
        }
      }
      if segs[0].Ref? then [segs[0].name] + rest else rest
  }

  /** The names os.Expand hands to its mapping for `s`, in order. */
  function RefNames(s: string): (r: seq<string>)
    ensures forall n :: n in r ==> n != "" && |n| < |s|
  {
    Names(Parse(s))
  }

  /** Only the mapping's answers on the referenced names matter. */
  lemma {:induction false} RenderCongruence(segs: seq<Segment>, m1: string -> string, m2: string -> string)
    requires forall n :: n in Names(segs) ==> m1(n) == m2(n)
    ensures Render(segs, m1) == Render(segs, m2)
  {
    if |segs| > 0 {
      assert forall n :: n in Names(segs[1..]) ==> n in Names(segs);
      RenderCongruence(segs[1..], m1, m2);
      if segs[0].Ref? {
        assert segs[0].name in Names(segs);
      }
    }
  }

  lemma ExpandCongruence(s: string, m1: string -> string, m2: string -> string)
    requires forall n :: n in RefNames(s) ==> m1(n) == m2(n)
    ensures Expand(s, m1) == Expand(s, m2)
  {
    RenderCongruence(Parse(s), m1, m2);
  }

  /** A string without `$` expands to itself, whatever the mapping, and references nothing. */
  lemma {:induction false} NoDollarUnchanged(s: string, mapping: string -> string)
    requires '$' !in s
    ensures Expand(s, mapping) == s
    ensures RefNames(s) == []
    decreases |s|
  {
    if |s| > 0 {
      assert '$' !in s[1..];
      NoDollarUnchanged(s[1..], mapping);
      var segs := Parse(s);
      assert segs == [Lit([s[0]])] + Parse(s[1..]);
      assert segs[1..] == Parse(s[1..]);
      assert s == [s[0]] + s[1..];
    }
  }

  /** Rendering is the inverse of parsing: over segments with nothing
      dropped, a mapping that answers every reference with the text it was
      read from gives the parsed text back. */
  lemma {:induction false} RenderRestoresSources(segs: seq<Segment>, mapping: string -> string)
    requires forall i :: 0 <= i < |segs| ==> !segs[i].Dropped?
    requires forall i :: 0 <= i < |segs| && segs[i].Ref? ==> mapping(segs[i].name) == segs[i].src
    ensures Render(segs, mapping) == Sources(segs)
  {
    if |segs| > 0 {
      assert forall i :: 1 <= i < |segs| ==> segs[1..][i - 1] == segs[i];
      RenderRestoresSources(segs[1..], mapping);
    }
  }

  /** os.Expand with a mapping that writes every reference back as it was
      written leaves text free of bad syntax unchanged. */
  lemma ExpandRestores(s: string, mapping: string -> string)
    requires forall seg :: seg in Parse(s) ==> !seg.Dropped?
    requires forall seg :: seg in Parse(s) && seg.Ref? ==> mapping(seg.name) == seg.src
    ensures Expand(s, mapping) == s
  {
    var segs := Parse(s);
    assert forall i :: 0 <= i < |segs| ==> segs[i] in segs;
    RenderRestoresSources(segs, mapping);
  }

  lemma {:induction false} RenderAppend(a: seq<Segment>, b: seq<Segment>, mapping: string -> string)
    ensures Render(a + b, mapping) == Render(a, mapping) + Render(b, mapping)
  {
    if |a| == 0 {
      assert a + b == b;
    } else {
      assert (a + b)[0] == a[0];
      assert (a + b)[1..] == a[1..] + b;
      RenderAppend(a[1..], b, mapping);
    }
  }

  lemma {:induction false} NamesAppend(a: seq<Segment>, b: seq<Segment>)
    ensures Names(a + b) == Names(a) + Names(b)
  {
    if |a| == 0 {
      assert a + b == b;
    } else {
      assert (a + b)[0] == a[0];
      assert (a + b)[1..] == a[1..] + b;
      NamesAppend(a[1..], b);
    }
  }

  /** `${name}` with a non-empty name free of `}` is a single reference to `name`. */
  lemma {:induction false} BracedRef(name: string, rest: string)
    requires name != "" && '}' !in name
    ensures Parse("${" + name + "}" + rest) == [Ref(name, "${" + name + "}")] + Parse(rest)
  {
    var s := "${" + name + "}" + rest;
    var t := s[1..];
    assert t == "{" + name + "}" + rest;
    var w := |name| + 2;
    BracedName(name, rest);
    assert s[..1 + w] == "${" + name + "}";
    assert s[1 + w..] == rest;
  }

  /** After the `$`, `{name}` spans the name and both braces. */
  lemma BracedName(name: string, rest: string)
    requires name != "" && '}' !in name
    ensures ShellName("{" + name + "}" + rest) == (name, |name| + 2)
  {
    var t := "{" + name + "}" + rest;
    if |t| > 2 && IsShellSpecial(t[1]) && t[2] == '}' {
      assert forall k :: 0 <= k < |name| ==> t[k + 1] == name[k];
      assert |name| == 1;
      assert t[1..2] == name;
      assert ShellName(t) == (t[1..2], 3);
    } else {
      var u := t[1..];
      assert u == name + "}" + rest;
      assert u[|name|] == '}';
      var i := IndexOf(u, '}');
      assert i.Some?;
      assert forall k :: 0 <= k < |name| ==> u[k] == name[k];
      assert i.value == |name|;
      assert t[1..i.value + 1] == name;
      assert ShellName(t) == (t[1..i.value + 1], i.value + 2);
    }
  }

  /** `$name` with an alphanumeric name not starting with a digit, followed by a
      non-alphanumeric character or the end, is a single reference to `name`. */
  lemma {:induction false} PlainRef(name: string, rest: string)
    requires name != "" && (forall i :: 0 <= i < |name| ==> IsAlphaNum(name[i]))
    requires !IsShellSpecial(name[0])
    requires rest == "" || !IsAlphaNum(rest[0])
    ensures Parse("$" + name + rest) == [Ref(name, "$" + name)] + Parse(rest)
  {
    var s := "$" + name + rest;
    var t := s[1..];
    assert t == name + rest;
    assert t[0] == name[0];
    var n := AlnumRun(t);
    assert forall k :: 0 <= k < |name| ==> t[k] == name[k];
    assert |t| > |name| ==> t[|name|] == rest[0];
    assert n == |name|;
    assert t[..n] == name;
    assert ShellName(t) == (name, n);
    assert s[..1 + n] == "$" + name;
    assert s[1 + n..] == rest;
  }

  /** The cycle guard of variables.go compares a referenced name with the whole
      string being expanded; a referenced name is always strictly shorter. */
  lemma NameNeverWholeString(s: string, name: string)
    requires name in RefNames(s)
    ensures name != s
  {
  }
}
