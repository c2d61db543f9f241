/** executor.go: the sequential part of running an action. That covers the step
    output table, the variable chain a step sees, ExpandString with its
    `out.<step>.<key>` fallback, JobContext.Run over a job's steps, and the
    error wrapping RunAction applies per job and per action.

    Running a step is abstract: given the StepContext the loop builds for it,
    a step yields the job's new output table, a cleanup callback and possibly
    an error. The context's
    cancellation is a parameter giving ctx.Err() at the check before each
    step, and the structural hash behind Step.String is one too. */
module Executor {
  import opened Wrappers
  import opened Text
  import opened Errors
  import opened OsExpand
  import opened Variables
  import opened Cleanup
  import Schema
  import opened Procedure

  // ---- step outputs ----

  /** StepsOutputMap: step id to that step's outputs. A nil table and a nil
      per-step map read the same as empty ones, so both are plain maps. Every
      producer stores a string, and `%v` of a string is the string itself. */
  type Outputs = map<string, map<string, string>>

  /** SetThisOutput: records `value` under `key` for step `id`. */
  function SetThisOutput(out: Outputs, id: string, key: string, value: string): (r: Outputs)
    ensures r.Keys == out.Keys + {id}
    ensures forall i :: i in out && i != id ==> r[i] == out[i]
    ensures id in out ==> r[id].Keys == out[id].Keys + {key}
    ensures forall k :: id in out && k in out[id] && k != key ==> r[id][k] == out[id][k]
  {
    var prior := if id in out then out[id] else map[];
    out[id := prior[key := value]]
  }

  /** GetOutput: the value stored for (id, key), if any. */
  function GetOutput(out: Outputs, id: string, key: string): (r: Option<string>)
    ensures r.Some? <==> id in out && key in out[id]
    ensures r.Some? ==> r.value == out[id][key]
  {
    if id in out && key in out[id] then Some(out[id][key]) else None
  }

  /** GetOutput sees the most recent SetThisOutput of the same step and key,
      and a write under one (step, key) leaves every other pair as it was. */
  lemma SetThenGet(out: Outputs, id: string, key: string, value: string, id2: string, key2: string)
    ensures GetOutput(SetThisOutput(out, id, key, value), id, key) == Some(value)
    ensures (id2, key2) != (id, key) ==>
      GetOutput(SetThisOutput(out, id, key, value), id2, key2) == GetOutput(out, id2, key2)
  {
  }

  /** An empty table answers nothing. */
  lemma EmptyOutputs(id: string, key: string)
    ensures GetOutput(map[], id, key) == None
  {
  }

  // ---- the variable chain ----

  /** The name under which a job exposes its working directory. */
  const ContextRootKey := "context.root"

  /** RunAction: the action's variables, with the runtime variables as an extra
      layer only when there is at least one of them. */
  function ActionContainer(actionVars: Vars, runtime: Option<Vars>): (c: Container)
    ensures Layers(c) == [actionVars] + (if runtime.Some? && |runtime.value| > 0 then [runtime.value] else [])
  {
    if runtime.Some? && |runtime.value| > 0 then WithExtra(runtime, Flat(actionVars))
    else Flat(actionVars)
  }

  /** JobContext.VariableContainer: job over action, with `context.root` as a
      fallback layer; a failed GetRoot gives the empty root. */
  function JobContainer(jobVars: Vars, action: Container, root: Result<string, Error>): (c: Container)
    ensures Layers(c) == [jobVars] + Layers(action) + [map[ContextRootKey := RootOrEmpty(root)]]
  {
    assert Layers(Chained(Flat(jobVars), action)) == [jobVars] + Layers(action);
    WithExtra(Some(map[ContextRootKey := RootOrEmpty(root)]), Chained(Flat(jobVars), action))
  }

  function RootOrEmpty(root: Result<string, Error>): string {
    if root.Ok? then root.value else ""
  }

  /** StepContext.VariableContainer: the step's own variables over the job's chain. */
  function StepContainer(stepVars: Vars, job: Container): (c: Container)
    ensures Layers(c) == [stepVars] + Layers(job)
  {
    Chained(Flat(stepVars), job)
  }

  /** The chain a step sees, highest priority first: step, job, action,
      runtime variables (when any), `context.root`. */
  lemma ChainOrder(stepVars: Vars, jobVars: Vars, actionVars: Vars, runtime: Option<Vars>,
                   root: Result<string, Error>, key: string)
    ensures var c := StepContainer(stepVars, JobContainer(jobVars, ActionContainer(actionVars, runtime), root));
      GetRaw(c, key) == FirstIn([stepVars, jobVars, actionVars]
                                + (if runtime.Some? && |runtime.value| > 0 then [runtime.value] else [])
                                + [map[ContextRootKey := RootOrEmpty(root)]], key)
  {
    var c := StepContainer(stepVars, JobContainer(jobVars, ActionContainer(actionVars, runtime), root));
    RawIsFirstLayer(c, key);
    var extra := if runtime.Some? && |runtime.value| > 0 then [runtime.value] else [];
    assert Layers(c) == [stepVars] + ([jobVars] + ([actionVars] + extra) + [map[ContextRootKey := RootOrEmpty(root)]]);
    assert [stepVars] + ([jobVars] + ([actionVars] + extra) + [map[ContextRootKey := RootOrEmpty(root)]])
        == [stepVars, jobVars, actionVars] + extra + [map[ContextRootKey := RootOrEmpty(root)]];
  }

  /** `context.root` answers only when no step, job or action variable (nor a
      runtime variable) has that name. */
  lemma ContextRootIsFallback(stepVars: Vars, jobVars: Vars, actionVars: Vars, root: Result<string, Error>)
    ensures var c := StepContainer(stepVars, JobContainer(jobVars, ActionContainer(actionVars, None), root));
      && (ContextRootKey in jobVars && ContextRootKey !in stepVars ==> GetRaw(c, ContextRootKey) == Some(jobVars[ContextRootKey]))
      && (ContextRootKey !in stepVars && ContextRootKey !in jobVars && ContextRootKey !in actionVars ==>
            GetRaw(c, ContextRootKey) == Some(RootOrEmpty(root)))
  {
    var c := StepContainer(stepVars, JobContainer(jobVars, ActionContainer(actionVars, None), root));
    ChainOrder(stepVars, jobVars, actionVars, None, root, ContextRootKey);
    var ls := [stepVars, jobVars, actionVars] + [] + [map[ContextRootKey := RootOrEmpty(root)]];
    assert ls == [stepVars, jobVars, actionVars, map[ContextRootKey := RootOrEmpty(root)]];
    assert ls[1..] == [jobVars, actionVars, map[ContextRootKey := RootOrEmpty(root)]];
    assert ls[1..][1..] == [actionVars, map[ContextRootKey := RootOrEmpty(root)]];
    assert ls[1..][1..][1..] == [map[ContextRootKey := RootOrEmpty(root)]];
    if ContextRootKey !in stepVars && ContextRootKey !in jobVars && ContextRootKey !in actionVars {
      assert FirstIn(ls[1..][1..][1..], ContextRootKey) == Some(RootOrEmpty(root));
      assert FirstIn(ls[1..][1..], ContextRootKey) == Some(RootOrEmpty(root));
      assert FirstIn(ls[1..], ContextRootKey) == Some(RootOrEmpty(root));
    }
  }

  // ---- ExpandString ----

  /** The `${out.<step_id>.<key>}` fallback: the step id runs up to the first
      '.' after the prefix, the key is the rest. Anything else gives "". */
  function OutputFallback(out: Outputs, name: string): (r: string)
    ensures r != "" ==> exists id, key :: '.' !in id && name == "out." + id + "." + key
                                          && GetOutput(out, id, key) == Some(r)
  {
    var (after, isOut) := CutPrefix(name, "out.");
    if !isOut then ""
    else
      var (id, key, ok) := Cut(after, '.');
      if !ok then ""
      else
        assert name == "out." + id + "." + key;
        GetOutput(out, id, key).GetOr("")
  }

  /** Every dot-free step id and any key address that step's stored output. */
  lemma OutputReference(out: Outputs, id: string, key: string)
    requires '.' !in id
    ensures OutputFallback(out, "out." + id + "." + key) == GetOutput(out, id, key).GetOr("")
  {
    var name := "out." + id + "." + key;
    assert name == "out." + (id + "." + key);
    CutUnique(id, key, '.');
  }

  /** What a step sees: its variable chain and the job's output table. */
  datatype StepContext = StepContext(id: string, root: string, chain: Container, outputs: Outputs)

  /** The mapping ExpandString hands to os.Expand: a variable of the chain
      first, then a stored output, then "". None where the variable lookup
      would recurse forever (out of fuel). */
  function ResolveName(sc: StepContext, name: string, fuel: nat): (r: Option<string>)
    ensures GetVariable(sc.chain, name, fuel).Found? ==> r == Some(GetVariable(sc.chain, name, fuel).value)
    ensures GetRaw(sc.chain, name).None? ==> r == Some(OutputFallback(sc.outputs, name))
    ensures r.None? <==> GetVariable(sc.chain, name, fuel).OutOfFuel?
  {
    match GetVariable(sc.chain, name, fuel)
    case Found(v) => Some(v)
    case Missing => Some(OutputFallback(sc.outputs, name))
    case OutOfFuel => None
  }

  /** StepContext.ExpandString: None exactly when the variable lookup of some
      referenced name never finishes; text without `$` needs no lookup and
      comes back unchanged. */
  function ExpandString(sc: StepContext, s: string, fuel: nat): (r: Option<string>)
    ensures r.Some? <==> forall n :: n in RefNames(s) ==> !GetVariable(sc.chain, n, fuel).OutOfFuel?
    ensures '$' !in s ==> r == Some(s)
  {
    var mapping := n => ResolveName(sc, n, fuel).GetOr("");
    if '$' !in s then
      NoDollarUnchanged(s, mapping);
      Some(Expand(s, mapping))
    else if forall n | n in RefNames(s) :: ResolveName(sc, n, fuel).Some? then
      Some(Expand(s, mapping))
    else None
  }

  /** `${name}` on its own expands to what the mapping resolves the name to. */
  lemma ExpandOneReference(sc: StepContext, name: string, fuel: nat)
    requires name != "" && '}' !in name
    requires ResolveName(sc, name, fuel).Some?
    ensures ExpandString(sc, "${" + name + "}", fuel) == ResolveName(sc, name, fuel)
  {
    var s := "${" + name + "}";
    var m := n => ResolveName(sc, n, fuel).GetOr("");
    SingleReference(name, m);
    assert forall n | n in RefNames(s) :: ResolveName(sc, n, fuel).Some?;
  }

  /** `${name}` on its own. */
  lemma SingleReference(name: string, m: string -> string)
    requires name != "" && '}' !in name
    ensures RefNames("${" + name + "}") == [name]
    ensures Expand("${" + name + "}", m) == m(name)
  {
    OneBracedRef(name, "", m);
    assert "${" + name + "}" + "" == "${" + name + "}";
  }

  /** A variable of the chain wins over an output reference of the same name. */
  lemma ExpandVariableFirst(sc: StepContext, name: string, fuel: nat)
    requires name != "" && '}' !in name
    requires GetVariable(sc.chain, name, fuel).Found?
    ensures ExpandString(sc, "${" + name + "}", fuel) == Some(GetVariable(sc.chain, name, fuel).value)
  {
    ExpandOneReference(sc, name, fuel);
  }

  /** A name neither the chain nor the output table knows expands to "". */
  lemma ExpandUnknownIsEmpty(sc: StepContext, name: string, fuel: nat)
    requires name != "" && '}' !in name
    requires GetRaw(sc.chain, name).None?
    requires OutputFallback(sc.outputs, name) == ""
    ensures ExpandString(sc, "${" + name + "}", fuel) == Some("")
  {
    ExpandOneReference(sc, name, fuel);
  }

  /** A later step reading `${out.<id>.<key>}` gets what step <id> stored,
      provided no variable of its chain has that literal name. */
  lemma ExpandStepOutput(sc: StepContext, id: string, key: string, name: string, fuel: nat)
    requires '.' !in id && '}' !in id && '}' !in key
    requires name == "out." + id + "." + key
    requires GetRaw(sc.chain, name).None?
    ensures ExpandString(sc, "${" + name + "}", fuel) == Some(GetOutput(sc.outputs, id, key).GetOr(""))
  {
    assert '}' !in name;
    OutputReference(sc.outputs, id, key);
    ExpandOneReference(sc, name, fuel);
  }

  // ---- JobContext.Run ----

  /** The world a job runs in: what a step's Run does with the StepContext it
      is handed (the job's output table afterwards, a cleanup and possibly an
      error), ctx.Err() at the check before step i, the hash behind
      Step.String, and the action's variable chain under the job's. */
  datatype JobEnv = JobEnv(
    exec: (StepContext, Schema.Step) -> (Outputs, StepResult),
    ctxErr: nat -> Option<Error>,
    hash: Schema.Step -> Option<nat>,
    action: Container)

  /** The StepContext the loop builds for step i: the step's String as its id,
      the job's root, the step's own variables over the job's chain, and the
      job's output table as it stands. */
  function StepContextOf(job: Schema.Job, root: string, env: JobEnv, i: nat, out: Outputs): (sc: StepContext)
    requires i < |job.steps|
    ensures sc.id == Schema.StepString(job.steps[i], env.hash) && sc.root == root && sc.outputs == out
    ensures Layers(sc.chain) == [job.steps[i].variables, job.variables] + Layers(env.action) + [map[ContextRootKey := root]]
  {
    var c := StepContainer(job.steps[i].variables, JobContainer(job.variables, env.action, Ok(root)));
    assert Layers(c) == [job.steps[i].variables] + ([job.variables] + Layers(env.action) + [map[ContextRootKey := root]]);
    StepContext(Schema.StepString(job.steps[i], env.hash), root, c, out)
  }

  /** Where a pass over the steps stopped: the error returned, how many steps
      had Run called, the cleanups pushed (oldest first) and the table. */
  datatype Progress = Progress(err: Option<Error>, ran: nat, pushed: seq<CleanupFn>, outputs: Outputs)

  /** The `for _, step := range job.Steps` loop from step i on, in a job whose
      GetRoot gave `root`. */
  function RunFrom(job: Schema.Job, root: string, i: nat, out: Outputs, pushed: seq<CleanupFn>, env: JobEnv): (p: Progress)
    requires i <= |job.steps|
    ensures i <= p.ran <= |job.steps|
    ensures NoNil(pushed) ==> NoNil(p.pushed)
    decreases |job.steps| - i
  {
    if i == |job.steps| then Progress(None, i, pushed, out)
    else if env.ctxErr(i).Some? then Progress(env.ctxErr(i), i, pushed, out)
    else
      var (out2, res) := env.exec(StepContextOf(job, root, env, i, out), job.steps[i]);
      var pushed2 := if res.cleanup.Task? then pushed + [res.cleanup] else pushed;
      if res.err.Some? then
        Progress(Some(StepFailed(Schema.StepString(job.steps[i], env.hash), res.err.value)), i + 1, pushed2, out2)
      else RunFrom(job, root, i + 1, out2, pushed2, env)
  }

  // -- an independent account of the same pass, step by step --

  /** The output table before step n, had steps 0..n-1 all run. */
  function OutputsBefore(job: Schema.Job, root: string, env: JobEnv, n: nat): Outputs
    requires n <= |job.steps|
    decreases n, 0
  {
    if n == 0 then map[] else ResultAt(job, root, env, n - 1).0
  }

  /** The context step j is handed, had steps 0..j-1 all run. */
  function ContextAt(job: Schema.Job, root: string, env: JobEnv, j: nat): StepContext
    requires j < |job.steps|
    decreases j, 1
  {
    StepContextOf(job, root, env, j, OutputsBefore(job, root, env, j))
  }

  /** What step j's Run gives: the table after it, and its cleanup and error. */
  function ResultAt(job: Schema.Job, root: string, env: JobEnv, j: nat): (Outputs, StepResult)
    requires j < |job.steps|
    decreases j, 2
  {
    env.exec(ContextAt(job, root, env, j), job.steps[j])
  }

  /** The non-nil cleanups of steps 0..n-1, oldest first. */
  function CleanupsOf(job: Schema.Job, root: string, env: JobEnv, n: nat): (r: seq<CleanupFn>)
    requires n <= |job.steps|
    ensures NoNil(r)
  {
    if n == 0 then []
    else
      var c := ResultAt(job, root, env, n - 1).1.cleanup;
      CleanupsOf(job, root, env, n - 1) + (if c.Task? then [c] else [])
  }

  /** Step j does not complete the loop body: the context is done, or it fails. */
  predicate Blocks(job: Schema.Job, root: string, env: JobEnv, j: nat)
    requires j < |job.steps|
  {
    env.ctxErr(j).Some? || ResultAt(job, root, env, j).1.err.Some?
  }

  /** The first step at or after i that blocks, or |steps| if none does. */
  function FirstBlock(job: Schema.Job, root: string, env: JobEnv, i: nat): (k: nat)
    requires i <= |job.steps|
    ensures i <= k <= |job.steps|
    ensures forall j :: i <= j < k ==> !Blocks(job, root, env, j)
    ensures k < |job.steps| ==> Blocks(job, root, env, k)
    decreases |job.steps| - i
  {
    if i == |job.steps| || Blocks(job, root, env, i) then i else FirstBlock(job, root, env, i + 1)
  }

  /** The outcome of the whole pass when step k is the first to block (or k
      is |steps|): cancellation is returned as is and runs nothing more; a
      failure is wrapped with the step's name after its cleanup is pushed. */
  function Expected(job: Schema.Job, root: string, env: JobEnv, k: nat): Progress
    requires k <= |job.steps|
    requires k < |job.steps| ==> Blocks(job, root, env, k)
  {
    if k == |job.steps| then Progress(None, k, CleanupsOf(job, root, env, k), OutputsBefore(job, root, env, k))
    else if env.ctxErr(k).Some? then
      Progress(env.ctxErr(k), k, CleanupsOf(job, root, env, k), OutputsBefore(job, root, env, k))
    else
      Progress(Some(StepFailed(Schema.StepString(job.steps[k], env.hash), ResultAt(job, root, env, k).1.err.value)),
               k + 1, CleanupsOf(job, root, env, k + 1), OutputsBefore(job, root, env, k + 1))
  }

  /** The loop agrees with the step-by-step account. */
  lemma {:induction false} RunFromIsExpected(job: Schema.Job, root: string, env: JobEnv, i: nat)
    requires i <= |job.steps|
    ensures RunFrom(job, root, i, OutputsBefore(job, root, env, i), CleanupsOf(job, root, env, i), env)
            == Expected(job, root, env, FirstBlock(job, root, env, i))
    decreases |job.steps| - i
  {
    if i < |job.steps| {
      var out := OutputsBefore(job, root, env, i);
      var res := env.exec(StepContextOf(job, root, env, i, out), job.steps[i]);
      assert res == ResultAt(job, root, env, i);
      assert OutputsBefore(job, root, env, i + 1) == res.0;
      if !Blocks(job, root, env, i) {
        assert FirstBlock(job, root, env, i) == FirstBlock(job, root, env, i + 1);
        assert env.ctxErr(i).None? && res.1.err.None?;
        var pushed2 := if res.1.cleanup.Task? then CleanupsOf(job, root, env, i) + [res.1.cleanup] else CleanupsOf(job, root, env, i);
        assert pushed2 == CleanupsOf(job, root, env, i + 1);
        assert RunFrom(job, root, i, out, CleanupsOf(job, root, env, i), env)
            == RunFrom(job, root, i + 1, OutputsBefore(job, root, env, i + 1), CleanupsOf(job, root, env, i + 1), env);
        RunFromIsExpected(job, root, env, i + 1);
      }
    }
  }

  /** The variable name `out.<id>.<key>` under which an output is read. */
  function OutputName(id: string, key: string): string {
    "out." + id + "." + key
  }

  /** The text `${out.<id>.<key>}` a step writes to read an output. */
  function OutputRef(id: string, key: string): string {
    "${" + OutputName(id, key) + "}"
  }

  /** An output a step stores through its own context is what the next step
      reads at `${out.<id>.<key>}`, `<id>` being the storing step's String,
      unless a variable of the reader's chain has that literal name. */
  lemma StoredOutputVisible(job: Schema.Job, root: string, env: JobEnv, i: nat, key: string, value: string, fuel: nat)
    requires i + 1 < |job.steps|
    requires GetOutput(ResultAt(job, root, env, i).0, ContextAt(job, root, env, i).id, key) == Some(value)
    requires '.' !in ContextAt(job, root, env, i).id && '}' !in ContextAt(job, root, env, i).id && '}' !in key
    requires GetRaw(ContextAt(job, root, env, i + 1).chain, OutputName(ContextAt(job, root, env, i).id, key)).None?
    ensures ContextAt(job, root, env, i).id == Schema.StepString(job.steps[i], env.hash)
    ensures ExpandString(ContextAt(job, root, env, i + 1),
                         OutputRef(Schema.StepString(job.steps[i], env.hash), key), fuel) == Some(value)
  {
    var id := ContextAt(job, root, env, i).id;
    var next := ContextAt(job, root, env, i + 1);
    var name := OutputName(id, key);
    assert next.outputs == ResultAt(job, root, env, i).0;
    ExpandStepOutput(next, id, key, name, fuel);
  }

  /** What JobContext.Run returns, and the labels of the cleanups its deferred
      stack run calls, in the order it calls them. */
  datatype JobOutcome = JobOutcome(err: Option<Error>, ran: nat, cleanupTrace: seq<string>, outputs: Outputs)

  /** JobContext.Run. `root` is GetRoot's answer. */
  function RunJob(job: Schema.Job, root: Result<string, Error>, env: JobEnv): (r: JobOutcome)
    ensures root.Err? ==> r == JobOutcome(Some(JobRoot(root.error)), 0, [], map[])
    ensures root.Ok? ==>
      var k := FirstBlock(job, root.value, env, 0);
      var e := Expected(job, root.value, env, k);
      && r.err == e.err && r.ran == e.ran && r.outputs == e.outputs
      && r.cleanupTrace == Reverse(Labels(CleanupsOf(job, root.value, env, e.ran)))
  {
    if root.Err? then JobOutcome(Some(JobRoot(root.error)), 0, [], map[])
    else
      var p := RunFrom(job, root.value, 0, map[], [], env);
      RunFromIsExpected(job, root.value, env, 0);
      RunReversesPushes(p.pushed);
      var (_, trace) := Run(Stack(p.pushed));
      JobOutcome(p.err, p.ran, trace, p.outputs)
  }

  /** Steps run in list order and all of them run when none blocks; the job
      then succeeds and every cleanup runs, newest first. */
  lemma AllStepsRun(job: Schema.Job, root: string, env: JobEnv)
    requires forall j :: 0 <= j < |job.steps| ==> !Blocks(job, root, env, j)
    ensures var r := RunJob(job, Ok(root), env);
      && r.err.None? && r.ran == |job.steps|
      && r.cleanupTrace == Reverse(Labels(CleanupsOf(job, root, env, |job.steps|)))
  {
  }

  /** A failing step stops the job: later steps never run, its own cleanup was
      pushed and runs first, and the error names the step. */
  lemma FailureStopsJob(job: Schema.Job, root: string, env: JobEnv, k: nat)
    requires k < |job.steps|
    requires forall j :: 0 <= j < k ==> !Blocks(job, root, env, j)
    requires env.ctxErr(k).None? && ResultAt(job, root, env, k).1.err.Some?
    ensures var r := RunJob(job, Ok(root), env);
      && r.ran == k + 1
      && r.err == Some(StepFailed(Schema.StepString(job.steps[k], env.hash), ResultAt(job, root, env, k).1.err.value))
      && (ResultAt(job, root, env, k).1.cleanup.Task? ==>
            r.cleanupTrace[0] == ResultAt(job, root, env, k).1.cleanup.tag)
  {
    assert Blocks(job, root, env, k);
    assert FirstBlock(job, root, env, 0) == k;
    var c := ResultAt(job, root, env, k).1.cleanup;
    if c.Task? {
      LabelsSnoc(CleanupsOf(job, root, env, k), c);
    }
  }

  /** A context already done before step k: ctx.Err() comes back unwrapped and
      step k does not run. */
  lemma CancelBeforeStep(job: Schema.Job, root: string, env: JobEnv, k: nat)
    requires k < |job.steps|
    requires forall j :: 0 <= j < k ==> !Blocks(job, root, env, j)
    requires env.ctxErr(k).Some?
    ensures var r := RunJob(job, Ok(root), env);
      r.ran == k && r.err == env.ctxErr(k)
  {
    assert Blocks(job, root, env, k);
    assert FirstBlock(job, root, env, 0) == k;
  }

  /** GetRoot: the cached root, or a fresh directory that is then cached. */
  function GetRoot(cached: Option<string>, mkdirTemp: Result<string, Error>): (r: (Result<string, Error>, Option<string>))
    ensures cached.Some? ==> r == (Ok(cached.value), cached)
    ensures cached.None? && mkdirTemp.Ok? ==> r == (Ok(mkdirTemp.value), Some(mkdirTemp.value))
    ensures cached.None? && mkdirTemp.Err? ==> r.1 == None && r.0 == Err(Wrapped("create temporary directory", mkdirTemp.error))
  {
    if cached.Some? then (Ok(cached.value), cached)
    else if mkdirTemp.Ok? then (Ok(mkdirTemp.value), Some(mkdirTemp.value))
    else (Err(Wrapped("create temporary directory", mkdirTemp.error)), None)
  }

  /** Once a root exists every later GetRoot returns it, whatever MkdirTemp would do. */
  lemma GetRootStable(cached: Option<string>, first: Result<string, Error>, second: Result<string, Error>)
    requires GetRoot(cached, first).0.Ok?
    ensures GetRoot(GetRoot(cached, first).1, second).0 == GetRoot(cached, first).0
  {
  }

  /** JobContext.Cleanup: nothing to do without a root; otherwise RemoveAll's error. */
  function JobCleanup(root: Option<string>, removeAll: string -> Option<Error>): (r: Option<Error>)
    ensures root.None? ==> r.None?
    ensures root.Some? ==> r == removeAll(root.value)
  {
    if root.None? then None else removeAll(root.value)
  }

  // ---- RunAction's error wrapping ----

  /** The per-job goroutine's return value: cancellation passes through,
      anything else is wrapped with the job's name. */
  function JobError(jobName: string, err: Option<Error>): (r: Option<Error>)
    ensures err.None? <==> r.None?
    ensures err.Some? && IsCanceled(err.value) ==> r == err
    ensures err.Some? && !IsCanceled(err.value) ==> r == Some(JobFailed(jobName, err.value))
  {
    if err.None? then None
    else if IsCanceled(err.value) then err
    else Some(JobFailed(jobName, err.value))
  }

  /** errgroup.Wait: the first error a job returned, in the order the jobs
      finished (that order is the scheduler's, so it is a parameter). */
  function FirstError(errs: seq<Option<Error>>): (r: Option<Error>)
    ensures r.None? <==> forall i :: 0 <= i < |errs| ==> errs[i].None?
    ensures r.Some? ==> exists i :: 0 <= i < |errs| && errs[i] == r && forall j :: 0 <= j < i ==> errs[j].None?
  {
    if |errs| == 0 then None
    else if errs[0].Some? then errs[0]
    else
      var r := FirstError(errs[1..]);
      assert forall i :: 1 <= i < |errs| ==> errs[i] == errs[1..][i - 1];
      r
  }

  /** RunAction's result: the group's error wrapped with the action's name,
      even when it is a cancellation. */
  function ActionError(actionName: string, finished: seq<Option<Error>>): (r: Option<Error>)
    ensures r.None? <==> forall i :: 0 <= i < |finished| ==> finished[i].None?
    ensures r.Some? ==> r.value.ActionFailed? && r.value.action == actionName
    ensures r.Some? ==> r.value.cause == FirstError(finished).value
    ensures r.Some? ==> exists i :: 0 <= i < |finished| && finished[i] == Some(r.value.cause)
                                   && forall j :: 0 <= j < i ==> finished[j].None?
  {
    match FirstError(finished)
    case None => None
    case Some(e) => Some(ActionFailed(actionName, e))
  }

  /** The per-job results in finishing order: `names[i]` is the i-th job to
      finish and `errs[i]` what its JobContext.Run returned. */
  function JobErrors(names: seq<string>, errs: seq<Option<Error>>): (r: seq<Option<Error>>)
    requires |names| == |errs|
    ensures |r| == |errs| && forall i :: 0 <= i < |r| ==> r[i] == JobError(names[i], errs[i])
  {
    seq(|errs|, i requires 0 <= i < |errs| => JobError(names[i], errs[i]))
  }

  /** RunAction over any number of jobs: it succeeds exactly when every job
      did; otherwise it reports the first job to finish with an error, wrapped
      as "run job <j>" unless that error is a cancellation, and then wrapped
      with the action's name. */
  lemma ActionErrorOfJobs(actionName: string, names: seq<string>, errs: seq<Option<Error>>)
    requires |names| == |errs|
    ensures var r := ActionError(actionName, JobErrors(names, errs));
      && (r.None? <==> forall i :: 0 <= i < |errs| ==> errs[i].None?)
      && (r.Some? ==>
            exists i :: (
              && 0 <= i < |errs| && errs[i].Some?
              && (forall j :: 0 <= j < i ==> errs[j].None?)
              && r.value.action == actionName
              && r.value.cause == (if IsCanceled(errs[i].value) then errs[i].value
                                   else JobFailed(names[i], errs[i].value))))
  {
    var finished := JobErrors(names, errs);
    var r := ActionError(actionName, finished);
    if r.Some? {
      var i :| 0 <= i < |finished| && finished[i] == Some(r.value.cause)
               && forall j :: 0 <= j < i ==> finished[j].None?;
      assert finished[i] == JobError(names[i], errs[i]);
      assert forall j :: 0 <= j < i ==> errs[j].None? by {
        forall j | 0 <= j < i ensures errs[j].None? {
          assert finished[j] == JobError(names[j], errs[j]);
        }
      }
    }
  }

  /** A job that fails for a reason other than cancellation is reported as
      "run action <a>: run job <j>: <cause>". */
  lemma ActionErrorMessage(actionName: string, jobName: string, cause: Error)
    requires !IsCanceled(cause)
    ensures ActionError(actionName, [JobError(jobName, Some(cause))]).value.Message()
         == "run action " + actionName + ": run job " + jobName + ": " + cause.Message()
  {
  }

  /** A cancelled job is not wrapped as a job error, but the action still is. */
  lemma CanceledJobMessage(actionName: string, jobName: string)
    ensures ActionError(actionName, [JobError(jobName, Some(Canceled))]).value.Message()
         == "run action " + actionName + ": context canceled"
  {
  }
}
