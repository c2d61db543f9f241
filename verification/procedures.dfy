/** The procedures package: the built-in `action/write`, `action/copy-local-dir`,
    `action/checkout` and `action/echo` steps, each a builder that validates
    and defaults the step's `with` arguments, and a Run that expands them and
    performs one effect.

    The effect (writing a file, copying a directory, cloning a repository) is
    a parameter giving its error, if any; so is path.Join. A cleanup callback
    is labelled with what it does. */
module Procedures {
  import opened Wrappers
  import opened Errors
  import opened Argument
  import opened Cleanup
  import opened Strconv

  type Args = map<string, string>

  /** `args[key]`: Go's zero value "" for an absent key. */
  function Arg(args: Args, key: string): (v: string)
    ensures key in args ==> v == args[key]
    ensures key !in args ==> v == ""
  {
    if key in args then args[key] else ""
  }

  /** `v, ok := args[key]; if !ok { v = fallback }`: a present key keeps its
      value, even an empty one. */
  function ArgOr(args: Args, key: string, fallback: string): (v: string)
    ensures key in args ==> v == args[key]
    ensures key !in args ==> v == fallback
  {
    if key in args then args[key] else fallback
  }

  /** The parts of a StepContext a procedure's Run uses: the step's root
      directory, its ExpandString, and path.Join. */
  datatype RunEnv = RunEnv(root: string, expand: Expander, join: (string, string) -> string)

  /** What a Run leaves: the cleanup it returns (Nil for a nil func), its
      error, and the outputs it set through SetThisOutput. */
  datatype RunResult = RunResult(cleanup: CleanupFn, err: Option<Error>, outputs: map<string, string>)

  /** The label of a cleanup that removes one file. */
  function RemoveFile(path: string): CleanupFn {
    Task("remove " + path)
  }

  // ---- action/write ----

  const WriteName := "action/write"

  datatype WriteAction = WriteAction(filename: StrArg, content: StrArg)

  /** The write builder: `filename` is required and must not be empty;
      `content` defaults to "". */
  function BuildWrite(args: Args): (r: Result<WriteAction, Error>)
    ensures r.Err? <==> Arg(args, "filename") == ""
    ensures r.Err? ==> r.error == RequiredArgument("filename")
    ensures r.Ok? ==> r.value.filename.Raw() == args["filename"] && r.value.content.Raw() == Arg(args, "content")
  {
    var filename := Arg(args, "filename");
    if filename == "" then Err(NewErrRequiredArgument("filename"))
    else Ok(WriteAction(NewArgumentStr(filename), NewArgumentStr(Arg(args, "content"))))
  }

  /** WriteAction.Run: writes the expanded content under the root, at the
      expanded file name. `writeFile(path, data)` is os.WriteFile's error. */
  function RunWrite(w: WriteAction, env: RunEnv, writeFile: (string, string) -> Option<Error>): (r: RunResult)
    ensures var path := env.join(env.root, env.expand(w.filename.raw));
      && r.err == writeFile(path, env.expand(w.content.raw))
      && (r.err.Some? ==> r.cleanup == Nil && r.outputs == map[])
      && (r.err.None? ==> r.cleanup == RemoveFile(path) && r.outputs == map["filepath" := path])
  {
    var path := env.join(env.root, w.filename.Value(env.expand));
    match writeFile(path, w.content.Value(env.expand))
    case Some(e) => RunResult(Nil, Some(e), map[])
    case None => RunResult(RemoveFile(path), None, map["filepath" := path])
  }

  /** From the step's arguments to its effect: the file written is the root
      joined with the expanded `filename`, its data the expanded `content`,
      and on success the `filepath` output names the file the cleanup removes. */
  lemma WriteEndToEnd(args: Args, env: RunEnv, writeFile: (string, string) -> Option<Error>)
    requires Arg(args, "filename") != ""
    ensures BuildWrite(args).Ok?
    ensures var r := RunWrite(BuildWrite(args).value, env, writeFile);
      var path := env.join(env.root, env.expand(args["filename"]));
      && r.err == writeFile(path, env.expand(Arg(args, "content")))
      && (r.err.None? ==> "filepath" in r.outputs && r.cleanup == RemoveFile(r.outputs["filepath"]))
  {
  }

  // ---- action/copy-local-dir ----

  const CopyLocalDirName := "action/copy-local-dir"

  datatype CopyLocalDirAction = CopyLocalDirAction(src: StrArg, dest: StrArg)

  /** The copy builder: `src`, then `dest`, must be present and non-empty. */
  function BuildCopyLocalDir(args: Args): (r: Result<CopyLocalDirAction, Error>)
    ensures r.Ok? <==> Arg(args, "src") != "" && Arg(args, "dest") != ""
    ensures Arg(args, "src") == "" ==> r == Err(RequiredArgument("src"))
    ensures Arg(args, "src") != "" && Arg(args, "dest") == "" ==> r == Err(RequiredArgument("dest"))
    ensures r.Ok? ==> r.value.src.Raw() == args["src"] && r.value.dest.Raw() == args["dest"]
  {
    var src := Arg(args, "src");
    if src == "" then Err(NewErrRequiredArgument("src"))
    else
      var dest := Arg(args, "dest");
      if dest == "" then Err(NewErrRequiredArgument("dest"))
      else Ok(CopyLocalDirAction(NewArgumentStr(src), NewArgumentStr(dest)))
  }

  /** CopyLocalDirAction.Run: copies from the expanded `src` as given, not under
      the root, to the root joined with the expanded `dest`. `copy(from, to)`
      is the copy's error. No cleanup, no outputs. */
  function RunCopyLocalDir(c: CopyLocalDirAction, env: RunEnv, copy: (string, string) -> Option<Error>): (r: RunResult)
    ensures r.cleanup == Nil && r.outputs == map[]
    ensures r.err == copy(env.expand(c.src.raw), env.join(env.root, env.expand(c.dest.raw)))
  {
    RunResult(Nil, copy(c.src.Value(env.expand), env.join(env.root, c.dest.Value(env.expand))), map[])
  }

  // ---- action/checkout ----

  const CheckoutName := "action/checkout"

  /** The depth mapper: the number Atoi reads, or 1 when it reads none. */
  function DepthOf(s: string): (d: int)
    ensures Atoi(s).Some? ==> d == Atoi(s).value
    ensures Atoi(s).None? ==> d == 1
  {
    match Atoi(s)
    case Some(i) => i
    case None => 1
  }

  datatype CheckoutAction = CheckoutAction(url: StrArg, branch: StrArg, depth: MappedArg<int>)

  /** The checkout builder: never fails; `url` and `branch` default to "" and
      `depth` to "1". */
  function BuildCheckout(args: Args): (r: Result<CheckoutAction, Error>)
    ensures r.Ok?
    ensures r.value.url.Raw() == Arg(args, "url") && r.value.branch.Raw() == Arg(args, "branch")
    ensures r.value.depth.Raw() == ArgOr(args, "depth", "1")
    ensures forall expand: Expander :: r.value.depth.Value(expand) == DepthOf(expand(r.value.depth.raw))
  {
    var depth := ArgOr(args, "depth", "1");
    Ok(CheckoutAction(NewArgumentStr(Arg(args, "url")), NewArgumentStr(Arg(args, "branch")),
                      NewArgument(depth, DepthOf)))
  }

  /** The depth a checkout clones with, on the written forms of numbers: every
      64-bit number written by Itoa is read back, anything Atoi refuses is 1. */
  lemma DepthOfNumbers(n: int)
    ensures MinInt64 <= n <= MaxInt64 ==> DepthOf(Itoa(n)) == n
    ensures n < MinInt64 || n > MaxInt64 ==> DepthOf(Itoa(n)) == 1
    ensures DepthOf("") == 1 && DepthOf("abc") == 1 && DepthOf(" 1") == 1
  {
    AtoiItoa(n);
    AtoiRejects();
  }

  /** The default depth, expanded by an expander that leaves "1" alone, is 1. */
  lemma DefaultDepthIsOne(args: Args, expand: Expander)
    requires "depth" !in args && expand("1") == "1"
    ensures BuildCheckout(args).value.depth.Value(expand) == 1
  {
    AtoiItoa(1);
    assert Itoa(1) == "1";
  }

  /** git.CloneOptions, as far as Run sets them. */
  datatype CloneOptions = CloneOptions(dir: string, url: string, depth: int, referenceName: string, singleBranch: bool)

  const BranchRefPrefix := "refs/heads/"

  /** CheckoutAction.Run: a single-branch clone into the step root of the
      expanded url, at the expanded depth, of the branch reference
      refs/heads/<expanded branch>. `clone` is the clone's error. */
  function RunCheckout(c: CheckoutAction, env: RunEnv, clone: CloneOptions -> Option<Error>): (r: RunResult)
    ensures r.cleanup == Nil && r.outputs == map[]
    ensures var opts := CloneOptions(env.root, env.expand(c.url.raw), c.depth.mapper(env.expand(c.depth.raw)),
                                     BranchRefPrefix + env.expand(c.branch.raw), true);
      r.err == clone(opts)
  {
    var opts := CloneOptions(env.root, c.url.Value(env.expand), c.depth.Value(env.expand),
                             "refs/heads/" + c.branch.Value(env.expand), true);
    RunResult(Nil, clone(opts), map[])
  }

  /** From the step's arguments to the clone: absent `url` and `branch` clone
      "" at refs/heads/, and the depth is the mapper applied to the expanded
      `depth`, "1" when absent. */
  lemma CheckoutEndToEnd(args: Args, env: RunEnv, clone: CloneOptions -> Option<Error>)
    ensures var r := RunCheckout(BuildCheckout(args).value, env, clone);
      var depth := DepthOf(env.expand(ArgOr(args, "depth", "1")));
      r.err == clone(CloneOptions(env.root, env.expand(Arg(args, "url")), depth,
                                  BranchRefPrefix + env.expand(Arg(args, "branch")), true))
  {
  }

  // ---- action/echo ----

  const EchoName := "action/echo"

  datatype EchoAction = EchoAction(message: StrArg)

  /** The echo builder: never fails; `message` defaults to "". */
  function BuildEcho(args: Args): (r: Result<EchoAction, Error>)
    ensures r.Ok? && r.value.message.Raw() == Arg(args, "message")
  {
    Ok(EchoAction(NewArgumentStr(Arg(args, "message"))))
  }

  /** EchoAction.Run: prints the expanded message and a newline (fmt.Println),
      returning what it printed; never a cleanup, never an error. */
  function RunEcho(e: EchoAction, env: RunEnv): (r: (RunResult, string))
    ensures r.0 == RunResult(Nil, None, map[])
    ensures |r.1| == |env.expand(e.message.raw)| + 1 && r.1[|r.1| - 1] == '\n'
    ensures r.1[..|r.1| - 1] == env.expand(e.message.raw)
  {
    (RunResult(Nil, None, map[]), e.message.Value(env.expand) + "\n")
  }
}
