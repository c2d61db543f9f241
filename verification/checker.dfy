/** checker.go: requirement expressions attached to an action, compiled once
    per distinct expression and evaluated in order against the machine's
    metadata, plus the dotted-path metadata lookup behind `matchVersion`.

    The expression language and the semver library are foreign code: the
    compiler, the evaluator, the constraint and version parsers and the
    constraint check are parameters. */
module Checker {
  import opened Wrappers
  import opened Text
  import opened Errors
  import opened Schema

  /** A metadata value: a string, a nested map, or anything else. */
  datatype Meta = MStr(s: string) | MMap(m: map<string, Meta>) | MOther(tag: nat)

  /** Looks `keys` up from the map `m` down: each segment but the last must
      lead to a nested map. */
  function Walk(m: map<string, Meta>, keys: seq<string>): (r: Option<Meta>)
    requires |keys| >= 1
    ensures r.Some? ==> keys[0] in m
    decreases |keys|
  {
    if keys[0] !in m then None
    else if |keys| == 1 then Some(m[keys[0]])
    else if m[keys[0]].MMap? then Walk(m[keys[0]].m, keys[1..])
    else None
  }

  /** accessMeta: None stands for Go's nil result; a nil metadata map finds nothing. */
  function AccessMeta(meta: Option<map<string, Meta>>, key: string): (r: Option<Meta>)
    ensures meta.None? ==> r.None?
    ensures r.Some? ==> Split(key, '.')[0] in meta.value
  {
    if meta.None? then None else Walk(meta.value, Split(key, '.'))
  }

  /** A key without a dot is a plain map lookup. */
  lemma AccessPlainKey(m: map<string, Meta>, key: string)
    requires '.' !in key
    ensures AccessMeta(Some(m), key) == if key in m then Some(m[key]) else None
  {
    assert Split(key, '.') == [key];
  }

  /** `first.rest` descends into the map under `first`, and finds nothing when
      there is no such entry or it is not a map. */
  lemma AccessDottedKey(m: map<string, Meta>, first: string, rest: string)
    requires '.' !in first
    ensures AccessMeta(Some(m), first + "." + rest) ==
      if first in m && m[first].MMap? then AccessMeta(Some(m[first].m), rest) else None
  {
    CutUnique(first, rest, '.');
    assert first + "." + rest == first + ['.'] + rest;
    var keys := Split(first + "." + rest, '.');
    assert keys == [first] + Split(rest, '.');
    assert keys[1..] == Split(rest, '.');
  }

  /** checker_test.go: {"go": "1.21"} answers "go", not "node" nor "go.version". */
  lemma AccessMetaExamples()
    ensures AccessMeta(Some(map["go" := MStr("1.21")]), "go") == Some(MStr("1.21"))
    ensures AccessMeta(Some(map["go" := MStr("1.21")]), "node") == None
    ensures AccessMeta(Some(map["go" := MStr("1.21")]), "go.version") == None
  {
    var m := map["go" := MStr("1.21")];
    AccessPlainKey(m, "go");
    AccessPlainKey(m, "node");
    assert "go.version" == "go" + "." + "version";
    AccessDottedKey(m, "go", "version");
  }

  /** matchSemver: false unless the dependency is present, is a string, and
      both the constraint and the version parse; then the constraint decides. */
  function MatchSemver<C, V>(meta: Option<map<string, Meta>>, dependency: string, constraint: string,
                             parseConstraint: string -> Option<C>, parseVersion: string -> Option<V>,
                             check: (C, V) -> bool): (r: bool)
    ensures r <==>
      && AccessMeta(meta, dependency).Some? && AccessMeta(meta, dependency).value.MStr?
      && parseConstraint(constraint).Some?
      && parseVersion(AccessMeta(meta, dependency).value.s).Some?
      && check(parseConstraint(constraint).value, parseVersion(AccessMeta(meta, dependency).value.s).value)
  {
    match AccessMeta(meta, dependency)
    case None => false
    case Some(raw) =>
      if !raw.MStr? then false
      else
        match parseConstraint(constraint)
        case None => false
        case Some(c) =>
          match parseVersion(raw.s)
          case None => false
          case Some(v) => check(c, v)
  }

  // ---- CompileActionRequirement ----

  /** The compiled programs by expression, and the expressions handed to the
      compiler in the order it saw them. */
  datatype Compiled<P> = Compiled(programs: map<string, P>, calls: seq<string>)

  function Exprs(reqs: seq<Requirement>): set<string> {
    set r | r in reqs :: r.expr
  }

  predicate Distinct(s: seq<string>) {
    forall i, j :: 0 <= i < j < |s| ==> s[i] != s[j]
  }

  /** The first requirement at or after i whose expression does not compile,
      or |reqs| when all of them do. */
  function FirstCompileError<P>(reqs: seq<Requirement>, i: nat, compile: string -> Result<P, Error>): (k: nat)
    requires i <= |reqs|
    ensures i <= k <= |reqs|
    ensures forall j :: i <= j < k ==> compile(reqs[j].expr).Ok?
    ensures k < |reqs| ==> compile(reqs[k].expr).Err?
    decreases |reqs| - i
  {
    if i == |reqs| || compile(reqs[i].expr).Err? then i else FirstCompileError(reqs, i + 1, compile)
  }

  /** The loop from requirement i on, with what is compiled so far. */
  function CompileFrom<P>(reqs: seq<Requirement>, i: nat, acc: Compiled<P>,
                          compile: string -> Result<P, Error>): (r: Result<Compiled<P>, Error>)
    requires i <= |reqs|
    requires acc.programs.Keys == Exprs(reqs[..i]) && (set e | e in acc.calls) == acc.programs.Keys
    requires Distinct(acc.calls)
    requires forall e :: e in acc.programs ==> compile(e) == Ok(acc.programs[e])
    ensures r.Ok? ==> r.value.programs.Keys == Exprs(reqs) && Distinct(r.value.calls)
    ensures r.Ok? ==> (set e | e in r.value.calls) == Exprs(reqs)
    ensures r.Ok? ==> forall e :: e in r.value.programs ==> compile(e) == Ok(r.value.programs[e])
    ensures r.Err? <==> FirstCompileError(reqs, i, compile) < |reqs|
    ensures r.Err? ==>
      var k := FirstCompileError(reqs, i, compile);
      r.error == CompileRequirement(RequirementString(reqs[k]), compile(reqs[k].expr).error)
    decreases |reqs| - i
  {
    if i == |reqs| then
      assert reqs[..i] == reqs;
      Ok(acc)
    else
      var req := reqs[i];
      assert reqs[..i + 1] == reqs[..i] + [req];
      if req.expr in acc.programs then
        assert compile(reqs[i].expr).Ok?;
        CompileFrom(reqs, i + 1, acc, compile)
      else
        match compile(req.expr)
        case Err(e) =>
          assert compile(reqs[i].expr).Err?;
          Err(CompileRequirement(RequirementString(req), e))
        case Ok(p) =>
          assert compile(reqs[i].expr).Ok?;
          var next := Compiled(acc.programs[req.expr := p], acc.calls + [req.expr]);
          CompileFrom(reqs, i + 1, next, compile)
  }

  /** CompileActionRequirement: every distinct expression compiled exactly
      once, in order of first appearance; the first failure aborts. */
  function CompileActionRequirement<P>(action: Action, compile: string -> Result<P, Error>): (r: Result<Compiled<P>, Error>)
    ensures r.Ok? <==> forall k :: 0 <= k < |action.requirements| ==> compile(action.requirements[k].expr).Ok?
    ensures r.Ok? ==> r.value.programs.Keys == Exprs(action.requirements)
    ensures r.Ok? ==> Distinct(r.value.calls) && (set e | e in r.value.calls) == Exprs(action.requirements)
    ensures r.Err? ==>
      exists k :: 0 <= k < |action.requirements| && compile(action.requirements[k].expr).Err?
        && (forall j :: 0 <= j < k ==> compile(action.requirements[j].expr).Ok?)
        && r.error == CompileRequirement(RequirementString(action.requirements[k]),
                                         compile(action.requirements[k].expr).error)
  {
    assert action.requirements[..0] == [];
    CompileFrom(action.requirements, 0, Compiled(map[], []), compile)
  }

  // ---- CheckRequirement ----

  /** What evaluating a requirement gives: an error, a boolean, or a value of
      some other type. */
  datatype Eval = EvalError(err: Error) | Bool(b: bool) | NonBool

  /** The loop body stops at requirement k: evaluation failed or said false. */
  predicate Stops(e: Eval) {
    e.EvalError? || e == Bool(false)
  }

  /** CheckRequirement, from requirement i on. */
  function CheckFrom<P>(reqs: seq<Requirement>, i: nat, programs: map<string, P>, run: P -> Eval): (r: Option<Error>)
    requires i <= |reqs|
    requires forall k :: 0 <= k < |reqs| ==> reqs[k].expr in programs
    ensures r.None? <==> forall k :: i <= k < |reqs| ==> !Stops(run(programs[reqs[k].expr]))
    ensures r.Some? ==> r.value == RequirementNotMet
                        || exists k :: i <= k < |reqs| && run(programs[reqs[k].expr]) == EvalError(r.value)
    decreases |reqs| - i
  {
    if i == |reqs| then None
    else
      match run(programs[reqs[i].expr])
      case EvalError(e) => Some(e)
      case Bool(b) => if !b then Some(RequirementNotMet) else CheckFrom(reqs, i + 1, programs, run)
      case NonBool => CheckFrom(reqs, i + 1, programs, run)
  }

  /** The first requirement at or after i that stops the loop, or |reqs|. */
  function FirstStop<P>(reqs: seq<Requirement>, i: nat, programs: map<string, P>, run: P -> Eval): (k: nat)
    requires i <= |reqs|
    requires forall k :: 0 <= k < |reqs| ==> reqs[k].expr in programs
    ensures i <= k <= |reqs|
    ensures forall j :: i <= j < k ==> !Stops(run(programs[reqs[j].expr]))
    ensures k < |reqs| ==> Stops(run(programs[reqs[k].expr]))
    decreases |reqs| - i
  {
    if i == |reqs| || Stops(run(programs[reqs[i].expr])) then i else FirstStop(reqs, i + 1, programs, run)
  }

  /** CheckRequirement: no error when every requirement passes (non-boolean
      results pass); otherwise the first stopping requirement decides, an
      evaluation error coming back as is. */
  function CheckRequirement<P>(action: Action, programs: map<string, P>, run: P -> Eval): (r: Option<Error>)
    requires forall k :: 0 <= k < |action.requirements| ==> action.requirements[k].expr in programs
    ensures var reqs := action.requirements;
      var k := FirstStop(reqs, 0, programs, run);
      && (k == |reqs| ==> r.None?)
      && (k < |reqs| && run(programs[reqs[k].expr]).EvalError? ==> r == Some(run(programs[reqs[k].expr]).err))
      && (k < |reqs| && run(programs[reqs[k].expr]) == Bool(false) ==> r == Some(RequirementNotMet))
  {
    CheckFromIsFirstStop(action.requirements, 0, programs, run);
    CheckFrom(action.requirements, 0, programs, run)
  }

  lemma {:induction false} CheckFromIsFirstStop<P>(reqs: seq<Requirement>, i: nat, programs: map<string, P>, run: P -> Eval)
    requires i <= |reqs|
    requires forall k :: 0 <= k < |reqs| ==> reqs[k].expr in programs
    ensures var k := FirstStop(reqs, i, programs, run);
      CheckFrom(reqs, i, programs, run) ==
        if k == |reqs| then None
        else if run(programs[reqs[k].expr]).EvalError? then Some(run(programs[reqs[k].expr]).err)
        else Some(RequirementNotMet)
    decreases |reqs| - i
  {
    if i < |reqs| && !Stops(run(programs[reqs[i].expr])) {
      CheckFromIsFirstStop(reqs, i + 1, programs, run);
    }
  }

  /** The Required flag plays no part in checking. */
  lemma {:induction false} RequiredIgnored<P>(reqs: seq<Requirement>, flags: seq<bool>, i: nat,
                                               programs: map<string, P>, run: P -> Eval)
    requires |flags| == |reqs| && i <= |reqs|
    requires forall k :: 0 <= k < |reqs| ==> reqs[k].expr in programs
    ensures var other := seq(|reqs|, k requires 0 <= k < |reqs| => reqs[k].(required := flags[k]));
      CheckFrom(other, i, programs, run) == CheckFrom(reqs, i, programs, run)
    decreases |reqs| - i
  {
    if i < |reqs| {
      RequiredIgnored(reqs, flags, i + 1, programs, run);
    }
  }
}
