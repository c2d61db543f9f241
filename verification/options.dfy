/** options.go and procedures/procvariables/procvariables.go: the option
    functions RunAction applies, in order, to its defaults.

    Writers are opaque handles. A Go map that may be nil is an Option: None is
    the nil map. os.Environ and os.Getenv become parameters. */
module Options {
  import opened Wrappers
  import opened Text

  type Vars = map<string, string>

  /** An io.Writer, by identity only. */
  datatype Writer = ProcessStdout | ProcessStderr | CustomWriter(handle: nat)

  datatype ExecutorOptions = ExecutorOptions(runtimeVariables: Option<Vars>, stdout: Writer, stderr: Writer)

  /** RunAction's defaults: no runtime variables, the process's own streams. */
  const Defaults := ExecutorOptions(None, ProcessStdout, ProcessStderr)

  /** An ExecutorOptionsFn, by the constructor that made it. */
  datatype OptionFn =
    | RuntimeVariables(vars: Option<Vars>)          // WithRuntimeVariables
    | ProcVariable(key: string, value: string)      // procvariables.WithProcVariables
    | CustomStdout(w: Writer)                       // WithCustomStdout
    | CustomStderr(w: Writer)                       // WithCustomStderr

  /** `vars` written over `base`: its keys win, every other key of `base` stays. */
  function Merge(base: Vars, vars: Vars): (r: Vars)
    ensures r.Keys == base.Keys + vars.Keys
    ensures forall k :: k in vars ==> r[k] == vars[k]
    ensures forall k :: k in base && k !in vars ==> r[k] == base[k]
  {
    map k | k in base.Keys + vars.Keys :: if k in vars then vars[k] else base[k]
  }

  /** Calling one option function on the options. */
  function Apply(o: ExecutorOptions, fn: OptionFn): (r: ExecutorOptions)
    ensures fn.RuntimeVariables? || fn.ProcVariable? ==> r.stdout == o.stdout && r.stderr == o.stderr
    ensures fn.CustomStdout? ==> r == o.(stdout := fn.w)
    ensures fn.CustomStderr? ==> r == o.(stderr := fn.w)
  {
    match fn
    case RuntimeVariables(vars) =>
      // a nil receiving map takes a clone; maps.Clone of nil is nil
      if o.runtimeVariables.Some? then
        o.(runtimeVariables := Some(Merge(o.runtimeVariables.value, vars.GetOr(map[]))))
      else o.(runtimeVariables := vars)
    case ProcVariable(key, value) =>
      o.(runtimeVariables := Some(o.runtimeVariables.GetOr(map[])[key := value]))
    case CustomStdout(w) => o.(stdout := w)
    case CustomStderr(w) => o.(stderr := w)
  }

  /** RunAction: every option function, first to last, on the defaults. */
  function ApplyAll(o: ExecutorOptions, fns: seq<OptionFn>): (r: ExecutorOptions)
    ensures (forall i :: 0 <= i < |fns| ==> !fns[i].CustomStdout?) ==> r.stdout == o.stdout
    ensures (forall i :: 0 <= i < |fns| ==> !fns[i].CustomStderr?) ==> r.stderr == o.stderr
    ensures |fns| > 0 && fns[|fns| - 1].CustomStdout? ==> r.stdout == fns[|fns| - 1].w
    ensures |fns| > 0 && fns[|fns| - 1].CustomStderr? ==> r.stderr == fns[|fns| - 1].w
    decreases |fns|
  {
    if |fns| == 0 then o else ApplyAll(Apply(o, fns[0]), fns[1..])
  }

  /** WithRuntimeVariables on nil installs the given map; on a map, merges. */
  lemma RuntimeVariablesSemantics(o: ExecutorOptions, vars: Vars)
    ensures o.runtimeVariables.None? ==> Apply(o, RuntimeVariables(Some(vars))).runtimeVariables == Some(vars)
    ensures o.runtimeVariables.Some? ==>
      Apply(o, RuntimeVariables(Some(vars))).runtimeVariables == Some(Merge(o.runtimeVariables.value, vars))
  {
  }

  /** WithProcVariables sets one key, allocating the map when it is nil, and
      keeps every other key. */
  lemma ProcVariableSetsOneKey(o: ExecutorOptions, key: string, value: string)
    ensures var r := Apply(o, ProcVariable(key, value)).runtimeVariables;
      && r.Some? && key in r.value && r.value[key] == value
      && (o.runtimeVariables.Some? ==> r.value.Keys == o.runtimeVariables.value.Keys + {key})
      && (o.runtimeVariables.None? ==> r.value.Keys == {key})
      && (o.runtimeVariables.Some? ==> forall k :: k in o.runtimeVariables.value && k != key ==>
            r.value[k] == o.runtimeVariables.value[k])
  {
  }

  /** The writer options touch only their own writer. */
  lemma WritersLeaveVariables(o: ExecutorOptions, w: Writer)
    ensures Apply(o, CustomStdout(w)).runtimeVariables == o.runtimeVariables
    ensures Apply(o, CustomStderr(w)).runtimeVariables == o.runtimeVariables
    ensures Apply(o, CustomStdout(w)).stderr == o.stderr
    ensures Apply(o, CustomStderr(w)).stdout == o.stdout
  {
  }

  /** Two variable maps applied one after the other act as their merge. */
  lemma {:induction false} RuntimeVariablesCompose(o: ExecutorOptions, a: Vars, b: Vars)
    requires o.runtimeVariables.Some?
    ensures ApplyAll(o, [RuntimeVariables(Some(a)), RuntimeVariables(Some(b))]).runtimeVariables ==
            Some(Merge(o.runtimeVariables.value, Merge(a, b)))
  {
    var fns := [RuntimeVariables(Some(a)), RuntimeVariables(Some(b))];
    assert fns[1..][1..] == [];
    var m1 := Merge(o.runtimeVariables.value, a);
    var o1 := Apply(o, fns[0]);
    assert ApplyAll(o, fns) == ApplyAll(o1, fns[1..]);
    assert ApplyAll(o1, fns[1..]) == ApplyAll(Apply(o1, fns[1]), []);
    assert Merge(m1, b) == Merge(o.runtimeVariables.value, Merge(a, b));
  }

  // ---- WithCurrentEnvironmentVariable ----

  /** The KEY=VALUE entries of an environment, later entries overwriting
      earlier ones, entries without '=' skipped. */
  function EnvMap(envs: seq<string>): (r: Vars)
    ensures forall k :: k in r ==> '=' !in k && k + "=" + r[k] in envs
    decreases |envs|
  {
    if |envs| == 0 then map[]
    else
      var m := EnvMap(envs[..|envs| - 1]);
      var (k, v, ok) := Cut(envs[|envs| - 1], '=');
      assert forall e :: e in envs[..|envs| - 1] ==> e in envs;
      if ok then m[k := v] else m
  }

  /** Every entry with an '=' contributes its key, with the value after the
      first '=' unless a later entry sets the same key. */
  lemma {:induction false} EnvMapComplete(envs: seq<string>, i: nat)
    requires i < |envs| && '=' in envs[i]
    ensures Cut(envs[i], '=').0 in EnvMap(envs)
    ensures (forall j :: i < j < |envs| ==> Cut(envs[j], '=').0 != Cut(envs[i], '=').0 || !Cut(envs[j], '=').2)
      ==> EnvMap(envs)[Cut(envs[i], '=').0] == Cut(envs[i], '=').1
    decreases |envs|
  {
    var last := |envs| - 1;
    if i < last {
      var init := envs[..last];
      assert init[i] == envs[i];
      EnvMapComplete(init, i);
    }
  }

  /** The value may itself hold '=': only the first one splits. */
  lemma EnvValueKeepsEquals(k: string, v: string)
    requires '=' !in k
    ensures EnvMap([k + "=" + v]) == map[k := v]
  {
    CutUnique(k, v, '=');
    assert [k + "=" + v][..0] == [];
  }

  /** WithCurrentEnvironmentVariable, with os.Environ passed in. */
  function WithCurrentEnvironmentVariable(environ: seq<string>): (fn: OptionFn)
    ensures fn.RuntimeVariables? && fn.vars.Some?
    ensures forall k :: k in fn.vars.value ==> k + "=" + fn.vars.value[k] in environ
  {
    RuntimeVariables(Some(EnvMap(environ)))
  }

  /** procvariables.VarBuildkitHostKey. */
  const BuildkitHostKey := "builder.opts.buildkit-host"

  /** WithEnvBuildkitHost, with the BUILDKIT_HOST value passed in; Go exits the
      process when it is empty, reported here as None. */
  function WithEnvBuildkitHost(host: string): (fn: Option<OptionFn>)
    ensures host == "" <==> fn.None?
    ensures fn.Some? ==> fn.value == ProcVariable("builder.opts.buildkit-host", host)
  {
    if host == "" then None else Some(ProcVariable(BuildkitHostKey, host))
  }
}
