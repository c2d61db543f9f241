/** command.go: CommandStep.Run. Every word of the command is expanded with
    the step's ExpandString, the program runs in the step's root, and once it
    exits cleanly what it wrote to stdout and stderr is stored as the step's
    `stdout` and `stderr` outputs.

    The subprocess is a parameter: from the expanded words and the working
    directory it gives the text written to each stream and cmd.Run's error. */
module Command {
  import opened Wrappers
  import opened Errors
  import opened Variables
  import opened OsExpand
  import opened Cleanup
  import opened Procedure
  import opened Executor
  import Schema

  /** What running the subprocess gives. */
  datatype Process = Process(stdout: string, stderr: string, err: Option<Error>)

  /** How CommandStep.Run ends. Go indexes the first word of the expanded
      command, so an empty command panics; an expansion whose variable
      lookup never finishes never returns. */
  datatype CommandOutcome =
    | Panic
    | Diverges
    | Ran(outputs: Outputs, result: StepResult)

  /** The `lo.Map` over the command: each word expanded in order; None when
      some expansion does not return. */
  function ExpandAll(words: seq<string>, expand: string -> Option<string>): (r: Option<seq<string>>)
    ensures r.Some? <==> forall k :: 0 <= k < |words| ==> expand(words[k]).Some?
    ensures r.Some? ==> |r.value| == |words|
    ensures r.Some? ==> forall k :: 0 <= k < |words| ==> r.value[k] == expand(words[k]).value
  {
    if |words| == 0 then Some([])
    else
      match expand(words[0])
      case None => None
      case Some(w) =>
        var tail := words[1..];
        assert forall k :: 0 <= k < |tail| ==> tail[k] == words[k + 1];
        match ExpandAll(tail, expand)
        case None => None
        case Some(rest) => Some([w] + rest)
  }

  /** sc.ExpandString, as the function lo.Map applies. */
  function Expander(sc: StepContext, fuel: nat): string -> Option<string> {
    w => ExpandString(sc, w, fuel)
  }

  /** CommandStep.Run. A failed run returns its error and stores nothing,
      since the writers are closed only after a clean exit. The step never
      returns a cleanup. */
  function RunCommand(words: seq<string>, sc: StepContext, fuel: nat,
                      run: (seq<string>, string) -> Process): (r: CommandOutcome)
    ensures r.Panic? <==> |words| == 0
    ensures r.Diverges? <==> |words| > 0 && exists k :: 0 <= k < |words| && ExpandString(sc, words[k], fuel).None?
    ensures r.Ran? ==>
      var p := run(ExpandAll(words, Expander(sc, fuel)).value, sc.root);
      && r.result.cleanup == Nil && r.result.err == p.err
      && (p.err.Some? ==> r.outputs == sc.outputs)
      && (p.err.None? ==>
            && GetOutput(r.outputs, sc.id, "stdout") == Some(p.stdout)
            && GetOutput(r.outputs, sc.id, "stderr") == Some(p.stderr)
            && forall id, key :: (id, key) != (sc.id, "stdout") && (id, key) != (sc.id, "stderr") ==>
                 GetOutput(r.outputs, id, key) == GetOutput(sc.outputs, id, key))
  {
    if |words| == 0 then Panic
    else
      match ExpandAll(words, Expander(sc, fuel))
      case None => Diverges
      case Some(argv) =>
        var p := run(argv, sc.root);
        if p.err.Some? then Ran(sc.outputs, StepResult(Nil, p.err))
        else
          var withOut := SetThisOutput(sc.outputs, sc.id, "stdout", p.stdout);
          var withErr := SetThisOutput(withOut, sc.id, "stderr", p.stderr);
          forall id, key | (id, key) != (sc.id, "stdout") && (id, key) != (sc.id, "stderr")
            ensures GetOutput(withErr, id, key) == GetOutput(sc.outputs, id, key)
          {
            SetThenGet(sc.outputs, sc.id, "stdout", p.stdout, id, key);
            SetThenGet(withOut, sc.id, "stderr", p.stderr, id, key);
          }
          SetThenGet(sc.outputs, sc.id, "stdout", p.stdout, sc.id, "stderr");
          SetThenGet(withOut, sc.id, "stderr", p.stderr, sc.id, "stdout");
          Ran(withErr, StepResult(Nil, None))
  }

  /** A command step's stdout feeds the next step: when step i of a job is a
      command that exits cleanly, the step after it reads what the command
      printed at `${out.<id>.stdout}`, `<id>` being step i's String. */
  lemma CommandOutputFeedsNextStep(job: Schema.Job, root: string, env: JobEnv, i: nat, fuel: nat,
                                   run: (seq<string>, string) -> Process)
    requires i + 1 < |job.steps| && job.steps[i].runnable.Command?
    requires RunCommand(job.steps[i].runnable.argv, ContextAt(job, root, env, i), fuel, run).Ran?
    requires var o := RunCommand(job.steps[i].runnable.argv, ContextAt(job, root, env, i), fuel, run);
      ResultAt(job, root, env, i) == (o.outputs, o.result) && o.result.err.None?
    requires '.' !in ContextAt(job, root, env, i).id && '}' !in ContextAt(job, root, env, i).id
    requires GetRaw(ContextAt(job, root, env, i + 1).chain, OutputName(ContextAt(job, root, env, i).id, "stdout")).None?
    ensures ExpandString(ContextAt(job, root, env, i + 1), OutputRef(Schema.StepString(job.steps[i], env.hash), "stdout"), fuel)
            == Some(run(ExpandAll(job.steps[i].runnable.argv, Expander(ContextAt(job, root, env, i), fuel)).value, root).stdout)
  {
    var sc := ContextAt(job, root, env, i);
    var argv := job.steps[i].runnable.argv;
    var o := RunCommand(argv, sc, fuel, run);
    var p := run(ExpandAll(argv, Expander(sc, fuel)).value, sc.root);
    assert sc.root == root;
    assert p.err.None?;
    assert GetOutput(o.outputs, sc.id, "stdout") == Some(p.stdout);
    StoredOutputVisible(job, root, env, i, "stdout", p.stdout, fuel);
  }
}
