/** procedures/artifact/docker.go: the `action/artifact/docker` step, which
    builds an image with BuildKit from a user Dockerfile and either pushes it
    or exports it to a tarball.

    The random tag word, os.MkdirTemp, file writes and opens, the BuildKit
    connection, fsutil and the build itself are parameters giving their
    outcome; so are path.Join (in the step's RunEnv) and filepath.Dir/Base.
    The step keeps its own cleanup stack and returns a WrapRun closure over
    it; the result reports that closure by the stack it will find when it is
    called, since nothing touches the stack after Run returns. */
module DockerArtifact {
  import opened Wrappers
  import opened Errors
  import opened Argument
  import opened Cleanup
  import opened Procedures
  import Options

  const DockerName := "action/artifact/docker"

  const DefaultDockerfile := "FROM docker.io/library/alpine:latest\nCOPY . ."

  datatype DockerArtifactAction = DockerArtifactAction(
    tag: StrArg, context: StrArg, dockerfile: StrArg, cache: MappedArg<bool>, push: MappedArg<bool>)

  /** The tag given to an image when the step names none. */
  function GeneratedTag(word: string): string {
    "zeabur/built-resource-" + word + ":latest"
  }

  /** The builder, `word` being the fakelish word drawn for the default tag.
      Only `context` is required, and only to be present: an empty one is
      accepted. `cache` defaults to "true" and `push` to "false", both read
      with the boolean argument rule. */
  function BuildDocker(args: Args, word: string): (r: Result<DockerArtifactAction, Error>)
    ensures r.Err? <==> "context" !in args
    ensures r.Err? ==> r.error == RequiredArgument("context")
    ensures r.Ok? ==>
      && r.value.tag.Raw() == (if "tag" in args then args["tag"] else GeneratedTag(word))
      && r.value.context.Raw() == args["context"]
      && r.value.dockerfile.Raw() == ArgOr(args, "dockerfile", DefaultDockerfile)
      && r.value.cache.Raw() == ArgOr(args, "cache", "true")
      && r.value.push.Raw() == ArgOr(args, "push", "false")
      && (forall expand: Expander :: r.value.cache.Value(expand) <==> expand(r.value.cache.raw) in TrueSpellings)
      && (forall expand: Expander :: r.value.push.Value(expand) <==> expand(r.value.push.raw) in TrueSpellings)
  {
    var tag := ArgOr(args, "tag", GeneratedTag(word));
    if "context" !in args then Err(NewErrRequiredArgument("context"))
    else
      Ok(DockerArtifactAction(
        NewArgumentStr(tag),
        NewArgumentStr(args["context"]),
        NewArgumentStr(ArgOr(args, "dockerfile", DefaultDockerfile)),
        NewArgumentBool(ArgOr(args, "cache", "true")),
        NewArgumentBool(ArgOr(args, "push", "false"))))
  }

  /** With no arguments but the context, and an expander that leaves the
      defaults alone, the image is cached and not pushed. */
  lemma DefaultsCacheNotPush(context: string, word: string, expand: Expander)
    requires expand("true") == "true" && expand("false") == "false"
    ensures var d := BuildDocker(map["context" := context], word).value;
      d.cache.Value(expand) && !d.push.Value(expand) && d.tag.Raw() == GeneratedTag(word)
  {
  }

  datatype Exporter = ExporterImage | ExporterDocker

  /** The SolveOpt handed to BuildKit, as far as Run fills it in. */
  datatype SolveRequest = SolveRequest(
    exporter: Exporter, exportAttrs: map<string, string>, tarball: Option<string>,
    contextDir: string, dockerfileDir: string, frontend: string, frontendAttrs: map<string, string>)

  /** The outcomes of the outside world Run consults, in the order it does. */
  datatype Effects = Effects(
    mkdirTemp: Result<string, Error>,
    writeFile: (string, string) -> Option<Error>,
    openFile: string -> Option<Error>,
    connect: string -> Option<Error>,
    newFS: string -> Option<Error>,
    solve: (string, SolveRequest) -> Option<Error>,
    dir: string -> string,
    base: string -> string)

  /** What Run leaves: None for a nil cleanup, otherwise the stack the returned
      WrapRun closure runs; the error; the outputs set. */
  datatype DockerResult = DockerResult(cleanup: Option<CleanupStack>, err: Option<Error>, outputs: map<string, string>)

  function FormatBool(b: bool): string {
    if b then "true" else "false"
  }

  function RemoveAllTask(dir: string): CleanupFn {
    Task("remove all " + dir)
  }

  function CloseTask(path: string): CleanupFn {
    Task("close " + path)
  }

  /** The SolveOpt Run builds: the image goes where `push` says, pushed by
      the image exporter with no tarball or exported by the docker exporter
      into the tarball; the build uses the cache unless `cache` is false. */
  function RequestFor(tag: string, contextDir: string, dockerfilePath: string, tarPath: string,
                      cache: bool, push: bool, fx: Effects): (req: SolveRequest)
    ensures (req.exporter == ExporterImage) <==> push
    ensures push ==> req.tarball.None?
    ensures !push ==> req.tarball == Some(tarPath)
    ensures req.exportAttrs.Keys == {"name", "push", "compression"}
    ensures req.exportAttrs["name"] == tag && req.exportAttrs["push"] == FormatBool(push)
            && req.exportAttrs["compression"] == "zstd"
    ensures ("no-cache" in req.frontendAttrs) <==> !cache
    ensures "filename" in req.frontendAttrs && req.frontendAttrs["filename"] == fx.base(dockerfilePath)
    ensures req.contextDir == contextDir && req.dockerfileDir == fx.dir(dockerfilePath)
            && req.frontend == "dockerfile.v0"
  {
    var exportAttrs := map["name" := tag, "push" := FormatBool(push), "compression" := "zstd"];
    var frontendAttrs := map["filename" := fx.base(dockerfilePath)];
    var frontendAttrs := if !cache then frontendAttrs["no-cache" := ""] else frontendAttrs;
    SolveRequest(if push then ExporterImage else ExporterDocker, exportAttrs,
                 if push then None else Some(tarPath),
                 contextDir, fx.dir(dockerfilePath), "dockerfile.v0", frontendAttrs)
  }

  /** The steps of Run after the connection to BuildKit is made: open the two
      local mounts, then hand BuildKit the request. */
  function Solve(address: string, tag: string, contextDir: string, dockerfilePath: string,
                 tarPath: string, cache: bool, push: bool, stack: CleanupStack, fx: Effects): (r: DockerResult)
    ensures r.err.Some? ==> r.cleanup == Some(stack) && r.outputs == map[]
    ensures fx.newFS(contextDir).Some? ==>
      r.err == Some(Wrapped("open context directory", fx.newFS(contextDir).value))
    ensures fx.newFS(contextDir).None? && fx.newFS(fx.dir(dockerfilePath)).Some? ==>
      r.err == Some(Wrapped("open dockerfile directory", fx.newFS(fx.dir(dockerfilePath)).value))
    ensures fx.newFS(contextDir).None? && fx.newFS(fx.dir(dockerfilePath)).None? ==>
      r.err == fx.solve(address, RequestFor(tag, contextDir, dockerfilePath, tarPath, cache, push, fx))
    ensures r.err.None? ==>
      r.cleanup.None? && r.outputs == map["tag" := tag, "context" := contextDir,
                                          "dockerfile" := dockerfilePath, "artifact" := tarPath]
  {
    if fx.newFS(contextDir).Some? then
      DockerResult(Some(stack), Some(Wrapped("open context directory", fx.newFS(contextDir).value)), map[])
    else if fx.newFS(fx.dir(dockerfilePath)).Some? then
      DockerResult(Some(stack), Some(Wrapped("open dockerfile directory", fx.newFS(fx.dir(dockerfilePath)).value)), map[])
    else
      match fx.solve(address, RequestFor(tag, contextDir, dockerfilePath, tarPath, cache, push, fx))
      case Some(e) => DockerResult(Some(stack), Some(e), map[])
      case None =>
        DockerResult(None, None, map["tag" := tag, "context" := contextDir,
                                     "dockerfile" := dockerfilePath, "artifact" := tarPath])
  }

  /** DockerArtifactAction.Run. `buildkitHost` is what the step's variable
      container gives for the buildkit-host key. */
  function RunDocker(d: DockerArtifactAction, env: RunEnv, buildkitHost: Option<string>, fx: Effects): (r: DockerResult)
    ensures buildkitHost.None? || buildkitHost.value == "" ==>
      r == DockerResult(Some(Empty), Some(BuildkitHostNotSet), map[])
    ensures r.err.Some? <==> r.cleanup.Some?
    ensures r.err.Some? ==> r.outputs == map[]
  {
    var contextDir := d.context.Value(env.expand);
    var tag := d.tag.Value(env.expand);
    var content := d.dockerfile.Value(env.expand);
    var cache := d.cache.Value(env.expand);
    var push := d.push.Value(env.expand);
    var stack := Empty;
    if buildkitHost.None? || buildkitHost.value == "" then
      DockerResult(Some(stack), Some(BuildkitHostNotSet), map[])
    else
      var address := buildkitHost.value;
      match fx.mkdirTemp
      case Err(e) => DockerResult(Some(stack), Some(Wrapped("make temp dir", e)), map[])
      case Ok(tmp) =>
        var stack := Push(stack, RemoveAllTask(tmp));
        var dockerfilePath := env.join(tmp, "Dockerfile");
        match fx.writeFile(dockerfilePath, content)
        case Some(e) => DockerResult(Some(stack), Some(Wrapped("write dockerfile", e)), map[])
        case None =>
          var tarPath := if push then "" else env.join(tmp, "docker.tar.zstd");
          if !push && fx.openFile(tarPath).Some? then
            DockerResult(Some(stack), Some(Wrapped("open artifact tar", fx.openFile(tarPath).value)), map[])
          else
            var stack := if push then stack else Push(stack, CloseTask(tarPath));
            match fx.connect(address)
            case Some(e) => DockerResult(Some(stack), Some(Wrapped("connect to buildkit", e)), map[])
            case None => Solve(address, tag, contextDir, dockerfilePath, tarPath, cache, push, stack, fx)
  }

  /** A successful run returns a nil cleanup and publishes the tag, the
      context directory, the Dockerfile it wrote, and the tarball, which is ""
      when the image was pushed. */
  lemma SuccessOutputs(d: DockerArtifactAction, env: RunEnv, buildkitHost: Option<string>, fx: Effects)
    requires RunDocker(d, env, buildkitHost, fx).err.None?
    ensures var r := RunDocker(d, env, buildkitHost, fx);
      && buildkitHost.Some? && buildkitHost.value != "" && fx.mkdirTemp.Ok?
      && r.cleanup.None?
      && r.outputs.Keys == {"tag", "context", "dockerfile", "artifact"}
      && r.outputs["tag"] == env.expand(d.tag.raw)
      && r.outputs["context"] == env.expand(d.context.raw)
      && r.outputs["dockerfile"] == env.join(fx.mkdirTemp.value, "Dockerfile")
      && (d.push.Value(env.expand) ==> r.outputs["artifact"] == "")
      && (!d.push.Value(env.expand) ==> r.outputs["artifact"] == env.join(fx.mkdirTemp.value, "docker.tar.zstd"))
  {
  }

  /** After the temporary directory exists, a failing run hands back the stack
      holding the directory's removal, and above it, when the tarball was
      opened, the tarball's close. */
  lemma FailureStackShape(d: DockerArtifactAction, env: RunEnv, buildkitHost: Option<string>, fx: Effects)
    requires buildkitHost.Some? && buildkitHost.value != "" && fx.mkdirTemp.Ok?
    requires RunDocker(d, env, buildkitHost, fx).err.Some?
    ensures var tmp := fx.mkdirTemp.value;
      var stack := RunDocker(d, env, buildkitHost, fx).cleanup.value;
      || stack == Stack([RemoveAllTask(tmp)])
      || stack == Stack([RemoveAllTask(tmp), CloseTask(env.join(tmp, "docker.tar.zstd"))])
  {
    var tmp := fx.mkdirTemp.value;
    var first := Push(Empty, RemoveAllTask(tmp));
    assert first == Stack([RemoveAllTask(tmp)]);
    var tarPath := env.join(tmp, "docker.tar.zstd");
    assert Push(first, CloseTask(tarPath)) == Stack([RemoveAllTask(tmp), CloseTask(tarPath)]);
  }

  /** On every failure after the temporary directory exists, the returned
      closure closes the tarball if it was opened and then removes the
      directory: the removal runs last. */
  lemma FailureCleanupRemovesTemp(d: DockerArtifactAction, env: RunEnv, buildkitHost: Option<string>, fx: Effects)
    requires buildkitHost.Some? && buildkitHost.value != "" && fx.mkdirTemp.Ok?
    requires RunDocker(d, env, buildkitHost, fx).err.Some?
    ensures var stack := RunDocker(d, env, buildkitHost, fx).cleanup.value;
      var trace := Run(stack).1;
      && |trace| >= 1 && trace[|trace| - 1] == "remove all " + fx.mkdirTemp.value
      && Run(stack).0 == Empty
  {
    var tmp := fx.mkdirTemp.value;
    var stack := RunDocker(d, env, buildkitHost, fx).cleanup.value;
    var first := [RemoveAllTask(tmp)];
    var tarPath := env.join(tmp, "docker.tar.zstd");
    FailureStackShape(d, env, buildkitHost, fx);
    if stack == Stack(first) {
      RunReversesPushes(first);
      assert Labels(first) == ["remove all " + tmp];
    } else {
      var both := [RemoveAllTask(tmp), CloseTask(tarPath)];
      RunReversesPushes(both);
      LabelsSnoc(first, CloseTask(tarPath));
      assert both == first + [CloseTask(tarPath)];
      assert Labels(both) == ["remove all " + tmp, "close " + tarPath];
    }
  }

  /** The step needs the buildkit-host variable that WithEnvBuildkitHost sets. */
  lemma HostKeyMatchesOption()
    ensures Options.WithEnvBuildkitHost("tcp://buildkitd:1234").value.key == Options.BuildkitHostKey
  {
  }
}
