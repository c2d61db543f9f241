/** The registrations the procedure packages' init functions make: six
    builders, each under its own name, in one registry. A built step is one
    of the six step kinds. */
module Builtins {
  import opened Wrappers
  import opened Errors
  import opened Procedure
  import opened Procedures
  import opened GolangBuild
  import opened DockerArtifact

  datatype BuiltStep =
    | WriteStep(write: WriteAction)
    | CopyStep(copy: CopyLocalDirAction)
    | CheckoutStep(checkout: CheckoutAction)
    | EchoStep(echo: EchoAction)
    | GoBuildStep(build: BuildAction)
    | DockerStep(docker: DockerArtifactAction)

  function WriteBuilder(args: Args): Result<BuiltStep, Error> {
    match BuildWrite(args)
    case Ok(w) => Ok(WriteStep(w))
    case Err(e) => Err(e)
  }

  function CopyBuilder(args: Args): Result<BuiltStep, Error> {
    match BuildCopyLocalDir(args)
    case Ok(c) => Ok(CopyStep(c))
    case Err(e) => Err(e)
  }

  function CheckoutBuilder(args: Args): Result<BuiltStep, Error> {
    Ok(CheckoutStep(BuildCheckout(args).value))
  }

  function EchoBuilder(args: Args): Result<BuiltStep, Error> {
    Ok(EchoStep(BuildEcho(args).value))
  }

  function GoBuildBuilder(args: Args): Result<BuiltStep, Error> {
    Ok(GoBuildStep(BuildGoBuild(args).value))
  }

  function DockerBuilder(args: Args, word: string): Result<BuiltStep, Error> {
    match BuildDocker(args, word)
    case Ok(d) => Ok(DockerStep(d))
    case Err(e) => Err(e)
  }

  const Names := {WriteName, CopyLocalDirName, CheckoutName, EchoName, BuildName, DockerName}

  /** Every init function registering its builder; `word` is the word the
      docker builder draws for a default tag. The six names differ, so no
      registration meets a conflict. */
  function RegisterBuiltins(word: string): (r: Registry<BuiltStep>)
    ensures r.builders.Keys == Names
  {
    var reg := NewRegistry();
    var reg := Register(reg, CheckoutName, CheckoutBuilder).value;
    var reg := Register(reg, CopyLocalDirName, CopyBuilder).value;
    var reg := Register(reg, EchoName, EchoBuilder).value;
    var reg := Register(reg, WriteName, WriteBuilder).value;
    var reg := Register(reg, BuildName, GoBuildBuilder).value;
    Register(reg, DockerName, (args: Args) => DockerBuilder(args, word)).value
  }

  /** Resolving a built-in name runs that step's own builder; a builder's
      refusal comes back wrapped with the name. */
  lemma ResolveBuiltins(word: string, args: Args)
    ensures var reg := RegisterBuiltins(word);
      && Resolve(reg, EchoName, args) == Ok(EchoStep(BuildEcho(args).value))
      && Resolve(reg, CheckoutName, args) == Ok(CheckoutStep(BuildCheckout(args).value))
      && (Arg(args, "filename") == "" ==>
            Resolve(reg, WriteName, args) == Err(BuildStep(WriteName, RequiredArgument("filename"))))
      && ("context" !in args ==>
            Resolve(reg, DockerName, args) == Err(BuildStep(DockerName, RequiredArgument("context"))))
  {
  }

  /** The names an unregistered step may carry are reported as such: the
      echo step is `action/echo`, so `builtin/echo` finds no builder. */
  lemma UnknownNames(word: string, args: Args)
    ensures var reg := RegisterBuiltins(word);
      && Resolve(reg, "builtin/echo", args) == Err(NoBuilder("builtin/echo"))
      && Resolve(reg, "action/not-exist", args) == Err(NoBuilder("action/not-exist"))
  {
    assert "builtin/echo" !in Names;
    assert "action/not-exist" !in Names;
  }
}
