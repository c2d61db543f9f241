/** procedures/golang/build.go: the `action/golang/build` step, which runs
    `go build` into a fresh temporary directory and publishes the binary.

    os.MkdirTemp's outcome, os.Environ and the `go build` subprocess are
    parameters; path.Join comes with the step's RunEnv. */
module GolangBuild {
  import opened Wrappers
  import opened Text
  import opened Errors
  import opened Argument
  import opened Cleanup
  import opened Procedures
  import Options

  const BuildName := "action/golang/build"

  datatype BuildAction = BuildAction(entry: StrArg)

  /** The builder: never fails; `entry` defaults to "." when absent and is
      kept as given, even empty, when present. */
  function BuildGoBuild(args: Args): (r: Result<BuildAction, Error>)
    ensures r.Ok?
    ensures r.value.entry.Raw() == if "entry" in args then args["entry"] else "."
  {
    Ok(BuildAction(NewArgumentStr(ArgOr(args, "entry", "."))))
  }

  /** The `go build` subprocess: its working directory, arguments and environment. */
  datatype GoCommand = GoCommand(dir: string, args: seq<string>, env: seq<string>)

  /** The environment the subprocess gets as written: the second assignment
      to cmd.Env replaces the first, so it is the process environment alone.
      Whether cgo is configured at all is up to that environment, and the
      corrected environment is this one with the one entry added. */
  function BuildEnvAsWritten(environ: seq<string>): (env: seq<string>)
    ensures var m := Options.EnvMap(env);
      ("CGO_ENABLED" in m <==> "CGO_ENABLED" in Options.EnvMap(environ))
      && ("CGO_ENABLED" in m ==> m["CGO_ENABLED"] == Options.EnvMap(environ)["CGO_ENABLED"])
    ensures BuildEnv(environ) == env + ["CGO_ENABLED=0"]
  {
    environ
  }

  /** The environment evidently intended: the process environment with
      CGO_ENABLED=0 added last, so that it wins. */
  function BuildEnv(environ: seq<string>): (env: seq<string>)
    ensures |env| == |environ| + 1 && env[..|environ|] == environ
  {
    environ + ["CGO_ENABLED=0"]
  }

  /** As written, cgo stays as the process environment has it: with no
      CGO_ENABLED there, the build sees none. */
  lemma CgoNotDisabledAsWritten()
    ensures "CGO_ENABLED" !in Options.EnvMap(BuildEnvAsWritten(["PATH=/usr/bin"]))
  {
    assert "PATH=/usr/bin" == "PATH" + "=" + "/usr/bin";
    Options.EnvValueKeepsEquals("PATH", "/usr/bin");
  }

  /** Corrected, every build sees CGO_ENABLED=0, whatever the process
      environment holds. */
  lemma CgoDisabled(environ: seq<string>)
    ensures var m := Options.EnvMap(BuildEnv(environ));
      "CGO_ENABLED" in m && m["CGO_ENABLED"] == "0"
  {
    var env := BuildEnv(environ);
    assert "CGO_ENABLED=0" == "CGO_ENABLED" + ['='] + "0";
    CutUnique("CGO_ENABLED", "0", '=');
    assert env[..|env| - 1] == environ;
  }

  /** The label of the cleanup that removes the output directory. */
  function RemoveAll(dir: string): CleanupFn {
    Task("remove all " + dir)
  }

  /** BuildAction.Run: builds the expanded entry from the step root into
      <outDir>/server, outDir a fresh temporary directory, with the
      environment as written (the process environment alone). */
  function RunGoBuild(b: BuildAction, env: RunEnv, mkdirTemp: Result<string, Error>,
                     environ: seq<string>, goBuild: GoCommand -> Option<Error>): (r: RunResult)
    ensures mkdirTemp.Err? ==> r == RunResult(Nil, Some(Wrapped("make temp dir", mkdirTemp.error)), map[])
    ensures mkdirTemp.Ok? ==>
      var outDir := mkdirTemp.value;
      var outFile := env.join(outDir, "server");
      var cmd := GoCommand(env.root, ["build", "-o", outFile, env.expand(b.entry.raw)], BuildEnvAsWritten(environ));
      && (goBuild(cmd).Some? ==> r == RunResult(Nil, Some(Wrapped("build", goBuild(cmd).value)), map[]))
      && (goBuild(cmd).None? ==>
            r == RunResult(RemoveAll(outDir), None, map["outDir" := outDir, "outFile" := outFile]))
  {
    var entry := b.entry.Value(env.expand);
    match mkdirTemp
    case Err(e) => RunResult(Nil, Some(Wrapped("make temp dir", e)), map[])
    case Ok(outDir) =>
      var outFile := env.join(outDir, "server");
      var cmd := GoCommand(env.root, ["build", "-o", outFile, entry], BuildEnvAsWritten(environ));
      match goBuild(cmd)
      case Some(e) => RunResult(Nil, Some(Wrapped("build", e)), map[])
      case None => RunResult(RemoveAll(outDir), None, map["outDir" := outDir, "outFile" := outFile])
  }

  /** A run that fails sets no output and leaves nothing to clean; a run that
      succeeds publishes the binary inside the directory its cleanup removes. */
  lemma BuildOutcomes(b: BuildAction, env: RunEnv, mkdirTemp: Result<string, Error>,
                      environ: seq<string>, goBuild: GoCommand -> Option<Error>)
    ensures var r := RunGoBuild(b, env, mkdirTemp, environ, goBuild);
      && (r.err.Some? <==> r.cleanup == Nil)
      && (r.err.Some? ==> r.outputs == map[] && (r.err.value.Wrapped? && r.err.value.context in {"make temp dir", "build"}))
      && (r.err.None? ==>
            && r.outputs.Keys == {"outDir", "outFile"}
            && r.outputs["outFile"] == env.join(r.outputs["outDir"], "server")
            && r.cleanup == RemoveAll(r.outputs["outDir"]))
  {
  }
}
