# zbaction in Dafny

A model of the sequential core of zbaction (Zeabur Action), a Go-native workflow
engine in the spirit of GitHub Actions. An action holds jobs, a job holds steps,
and a step is either an external command or a registered *procedure* built from
its `with` arguments. The model covers:

- the scoped variable containers and their `$`-interpolation (Go's `os.Expand`);
- the nil-safe cleanup stack;
- lazy typed step arguments;
- the procedure registry;
- the display names of the schema;
- the executor's step-output table, the variable chain a step sees,
  `ExpandString`, the command step, the per-job step loop with its cleanup and cancellation
  semantics, and the error wrapping of `RunAction`;
- the executor options;
- the action ⇄ protobuf converter;
- the requirement checker;
- the in-memory file store with expiry;
- the built-in procedures: `action/write`, `action/copy-local-dir`,
  `action/checkout`, `action/echo`, `action/golang/build` and
  `action/artifact/docker`;
- the post-processing of version probes in the environment package.

Everything is modelled with immutable datatypes and pure functions. I/O is
passed in as parameters: files, directories, subprocesses, git, BuildKit, the
clock, random words and hashes. Each procedure's `Run` becomes "expand the
arguments, hand them to an abstract effect, report outputs and a cleanup".

One module per source file or package:

- `Wrappers` and `Text` are helpers: `Option`/`Result`, and `strings.Cut`,
  `CutPrefix`, `TrimSpace` and `Split`.
- `Strconv` models `strconv.Atoi` and `Itoa` over the int64 range.
- `OsExpand` models Go's `os.Expand`. That standard-library function is not
  part of the repository. The model follows its documented behaviour, down to
  `getShellName`'s special names and bad syntax.

Where the sources disagree with one another, the model follows the code:

- **Fields converter.go reads.** converter.go reads `Job.RunOn` and
  `Requirement.Required`, which schema.go's types do not declare. The model
  adds them (`Schema.Job.runOn`, `Schema.Requirement.required`).
  `Checker.RequiredIgnored` proves the checker never looks at `Required`.
- **Registry import path.** procedures/checkout.go and procedures/golang/build.go
  import `github.com/zeabur/builder/zbaction`, not `github.com/zeabur/action`.
  As written, `action/checkout` and `action/golang/build` register into that
  other package's registry, not into this one. The model assumes the import
  path is left over from an earlier module name, and puts all six built-ins in
  one registry (`Builtins.RegisterBuiltins`). The package documentation in
  zbaction.go names an older path for the procedures package too, so it does
  not settle the question.
- **`builtin/echo`.** The echo example and the marshal test use the step name
  `builtin/echo`, which nothing registers. The echo procedure is `action/echo`.
  `Builtins.UnknownNames` states what resolving that name gives.
- **Test helper name.** checker_test.go calls `accessMapByDot`, but checker.go
  defines `accessMeta`. The model follows checker.go.

## Model

| member | source | states |
|---|---|---|
| Variables.RawIsFirstLayer | variables.go:44-87 | GetRaw, the raw value of any container, is found by looking through its layers in order: the child before its parent, and the wrapped container before the extra map. A nil extra map adds no layer. |
| Variables.FirstInAppend | variables.go:58-64 | Lookup in a chain of layers: the first layer that holds the key answers; otherwise the later layers are consulted. |
| Variables.GetVariable | variables.go:49-56 | A variable is reported missing exactly when its raw lookup finds nothing, for every container kind. |
| Variables.UnresolvedIsEmpty | variables.go:104-108 | Substitute replaces a placeholder naming an unknown variable by the empty string, never by an error. |
| Variables.GuardIsDead | variables.go:99-102 | The guard `keyReference == currentValue` never fires. Every referenced name is strictly shorter than the text that contains it, so substitution always does a full lookup. |
| Variables.NoDollarValue | variables.go:98-110 | ExpandValue leaves a stored value without `$` unchanged, so GetVariable returns it as stored. |
| Variables.FuelMonotone | variables.go:49-56 | A lookup that finishes within some fuel gives the same answer with any larger fuel. The fuel bound therefore changes no finished result. |
| Variables.SubstituteMonotone | variables.go:98-110 | The same holds for a single placeholder substitution. |
| Variables.AcyclicTerminates | variables.go:98-110 | If the references between variables are ranked so that each one points to a lower rank, lookup finishes once the fuel exceeds the key's rank. |
| Variables.SelfReferenceDiverges | variables.go:98-110 | `{a: "${a}"}` never finishes, whatever the fuel: Go recurses without bound. |
| Variables.OneBracedRef | variables.go:98-110 | `${name}` followed by dollar-free text references exactly `name`, and expands to its replacement followed by that text. |
| Variables.OneRefLookup | variables.go:66-73 | A value `${name}tail` resolves to the full lookup of `name` followed by `tail`. |
| Variables.TwoHopLookup | variables.go:49-56 | A chain of two references resolves transitively in three fuel steps. |
| Variables.FlatTransitiveExample | variables_test.go:64-86 | In a flat map, `test2="${test}1"` gives "test1" and `test3="${test2}2"` gives "test12"; an absent key is missing. |
| Variables.ChainedOverrideExample | variables_test.go:88-117 | The child's raw override wins, and references resolve against the whole chain: test2 gives "test2" and test3 gives "test23". |
| OsExpand.Parse | variables.go:98-110 | The parse is lossless: its segments spell the input again. Every reference names a non-empty string shorter than the input. |
| OsExpand.ShellName | executor.go:323-340 | A recognised name is either the text that follows `$` or, with braces, the text between `{` and `}`. |
| OsExpand.ShellNameShape | executor.go:323-340 | Without braces, a name is one shell special character or a run of letters, digits and `_`, and the run stops only at the end of the text or at a character outside that class. A dot therefore ends an unbraced name, and dotted names such as `out.<id>.<key>` are read whole only inside braces. A braced name is everything before the first `}` and spans itself plus both braces. |
| OsExpand.BracedName | executor.go:323-340 | `{name}` followed by anything, with `name` non-empty and free of `}`, reads exactly `name` and consumes the braces. |
| OsExpand.AlnumRun | executor.go:323-340 | An unbraced name is the longest run of alphanumeric or underscore characters. |
| OsExpand.Names | variables.go:98-110 | Every name listed is that of a reference segment. |
| OsExpand.RefNames | variables.go:98-110 | Every name the expansion asks the mapping for is non-empty and strictly shorter than the expanded text. |
| OsExpand.RenderCongruence | variables.go:98-110 | Two mappings that agree on the referenced names render the same segments to the same text. |
| OsExpand.ExpandCongruence | variables.go:98-110 | The expansion depends on the mapping only at the names the text references. |
| OsExpand.NoDollarUnchanged | variables.go:98-110 | Dollar-free text expands to itself and references nothing. |
| OsExpand.RenderRestoresSources | variables.go:98-110 | Render inverts Parse: over segments with no bad syntax, a mapping that answers each reference with the text it was read from gives that text back. |
| OsExpand.ExpandRestores | variables.go:98-110 | os.Expand with a mapping that writes every reference back as it was written leaves text with no bad syntax unchanged. |
| OsExpand.RenderAppend | variables.go:98-110 | Rendering distributes over concatenation of segment lists. |
| OsExpand.NamesAppend | variables.go:98-110 | The referenced names distribute over concatenation of segment lists. |
| OsExpand.BracedRef | executor.go:329-331 | `${name}rest`, including a dotted name such as `out.id.key`, parses as one reference to `name` followed by the parse of `rest`. |
| OsExpand.PlainRef | variables.go:98-110 | `$name` followed by a non-name character parses as one reference followed by the rest. |
| OsExpand.NameNeverWholeString | variables.go:100-102 | A referenced name never equals the whole text being expanded. |
| Cleanup.Push | cleanup.go:11-16 | On a nil stack Push does nothing; otherwise the callback goes on top and nothing below it changes. |
| Cleanup.Pop | cleanup.go:18-29 | An empty or nil stack yields nil and stays as it is; otherwise Pop removes and yields the newest callback. |
| Cleanup.PushPop | cleanup.go:11-29 | Pop undoes Push and yields the pushed callback. On a nil stack both are no-ops and Pop yields nil. |
| Cleanup.Run | cleanup.go:31-43 | Run never grows the stack, and a nil stack stays nil. |
| Cleanup.RunReversesPushes | cleanup.go:31-43 | With no nil entries, Run calls every pushed callback exactly once, newest first, and leaves the stack empty. |
| Cleanup.RunStopsAtNil | cleanup.go:37-40 | Run stops at the first nil it pops. The entries older than the nil stay on the stack, and only the newer callbacks ran. |
| Cleanup.NilStackInert | cleanup.go:12-14 | On a nil stack, Push, Pop and Run are no-ops, and Pop yields nil. |
| Cleanup.LabelsSnoc | cleanup.go:11-16 | Pushing a nil callback adds no call to the trace; pushing a real one adds exactly its call at the end. |
| Cleanup.Reverse | cleanup.go:31-43 | Position i of the reversal holds element n-1-i: the LIFO order Run calls in. |
| Cleanup.ReverseSnoc | cleanup.go:31-43 | The last element pushed is the first one reversed out. |
| Cleanup.Invoke | cleanup.go:45-49 | Calling the WrapRun closure runs only its own stack. Every other stack in the heap is left as it was, and a closure over a nil stack does nothing. |
| Cleanup.WrapRun | cleanup.go:45-49 | The closure WrapRun returns, called on any heap, runs the stack its pointer refers to at that moment and leaves that stack as Run leaves it. |
| Cleanup.WrapRunSeesLaterPushes | cleanup.go:45-49 | The closure runs what is on the stack when it is called: a callback pushed after WrapRun runs, and runs first. |
| Argument.NewArgumentStr | argument.go:13-19 | Raw gives back the constructor's string; Value is the expander applied to it. |
| Argument.NewArgument | argument.go:26-39 | Raw gives back the constructor's string; Value is the mapper applied to the expanded string. |
| Argument.NewArgumentBool | argument.go:45-53 | A boolean argument is true exactly when the expanded text is one of "true", "1", "True" or "TRUE". |
| Argument.BoolIsExact | argument.go:45-51 | "yes", "tRUE", " true", "true\n", "0", "false" and "" are all false: no trimming and no case folding. |
| Argument.RawIgnoresExpander | argument.go:30-32 | Raw depends on no expander. Value depends on the expander only through the expansion of the raw string. |
| Errors.NewErrRequiredArgument | exceptions.go:7-15 | The error carries its key, and its message is the fixed prefix followed by exactly that key. |
| Errors.RequiredArgumentMessage | exceptions.go:13-15 | Every message starts with "missing required argument: " and ends with the key. |
| Errors.RequiredArgumentInjective | exceptions.go:14 | Distinct keys give distinct messages. |
| Procedure.NewRegistry | procedure.go:27-31 | The registry starts with no builders. |
| Procedure.Register | procedure.go:33-46 | Registering a taken name fails (Go panics) and changes nothing. Otherwise the name is bound to the builder, and every other binding is kept. |
| Procedure.Resolve | procedure.go:48-63 | An unknown name fails with NoBuilder and calls no builder. A builder's error is wrapped with the step name. A successful build is the builder's own result on the unmodified arguments. |
| Procedure.RegisterThenResolve | procedure.go:33-59 | After registering a fresh name, resolving it gives exactly what the builder gives. |
| Procedure.RegisterKeepsOthers | procedure.go:44-53 | Registering one name changes how no other name resolves. |
| Procedure.ResolveMessages | procedure.go:54-62 | The messages are "no procedure step builder found for <name>" and "build step <name>: <cause>". |
| Procedure.RunProcStep | schema.go:113-119 | A failed resolution gives a nil cleanup and the resolver's error, and runs no step. A successful one gives exactly the built step's Run result. |
| Schema.HexRoundTrip | schema.go:31-34 | The `%x` rendering of a hash reads back as the same number. |
| Schema.DisplayName | schema.go:26-36 | A non-empty ID is the name. Otherwise the name is hexadecimal that denotes the hash, or the "unknown" literal when hashing fails. |
| Schema.ActionString | schema.go:26-37 | Action.String: the ID when set, else the hex of the hash, else "<unknown action>". |
| Schema.JobString | schema.go:63-74 | Job.String: the ID when set, else the hex of the hash, else "<unknown job>". |
| Schema.StepString | schema.go:91-102 | Step.String: the ID when set, else the hex of the hash, else "<unknown step>". |
| Schema.HumanName | schema.go:83-89 | The step's name when non-empty, else its String. |
| Schema.RequirementString | schema.go:44-55 | The expression alone without a description; with one, the expression followed by " (description)". |
| Schema.FirstParen | schema.go:44-55 | The position of the first '(', which splits a rendering back into its parts. |
| Schema.RequirementStringInjective | schema.go:44-55 | When expressions contain no '(', the rendering loses nothing: equal renderings come from equal expressions and descriptions. |
| Executor.SetThisOutput | executor.go:292-301 | Only the entry for this step and key changes. Every other step's outputs and this step's other keys are kept, and a nil table or nil step map is allocated. |
| Executor.GetOutput | executor.go:303-321 | A value is found exactly when this step stored one under this key. A nil table and a missing step both read as absent. |
| Executor.SetThenGet | executor.go:292-321 | GetOutput returns the most recent SetThisOutput of the same step and key, and a write leaves every other (step, key) pair as it was. |
| Executor.EmptyOutputs | executor.go:308-310 | An empty table answers nothing. |
| Executor.ActionContainer | executor.go:31-34 | The action's variables, with the runtime variables as an extra layer only when there is at least one of them. |
| Executor.JobContainer | executor.go:175-189 | The layers run job, then action, then `context.root` as the last fallback. A failed GetRoot gives the empty root. |
| Executor.StepContainer | executor.go:288-290 | The step's own variables come before the job's chain. |
| Executor.ChainOrder | executor.go:182-188 | A step sees the first of: its own, the job's, the action's, the runtime variables (when any), and `context.root`. |
| Executor.ContextRootIsFallback | executor.go:182-188 | `context.root` answers only when no step, job or action variable has that name. A job variable of that name shadows the real root. |
| Executor.OutputFallback | executor.go:329-338 | A non-empty result comes from a name `out.<id>.<key>` with a dot-free id, and is what that step stored under that key. |
| Executor.OutputReference | executor.go:330-332 | The name splits at the first dot after "out.": every dot-free id with any key, dotted or not, addresses that step's stored output. |
| Executor.ResolveName | executor.go:324-338 | A variable the chain finds is used first. A name the chain lacks falls back to the step outputs, else "". None exactly where the variable lookup would never finish. |
| Executor.ExpandOneReference | executor.go:323-340 | `${name}` on its own expands to what the mapping resolves the name to. |
| Executor.ExpandString | executor.go:323-340 | Expansion fails exactly when the variable lookup of some referenced name never finishes. Text without `$` comes back unchanged. |
| Executor.SingleReference | executor.go:323-324 | `${name}` on its own references only `name` and expands to its replacement. |
| Executor.ExpandVariableFirst | executor.go:325-327 | A chain variable wins over an output reference of the same name. |
| Executor.ExpandUnknownIsEmpty | executor.go:338 | A name that neither the variables nor the outputs know expands to "". |
| Executor.ExpandStepOutput | executor.go:329-335 | A later step reading `${out.<id>.<key>}` gets what step id stored, unless a variable has that literal name. |
| Executor.StepContextOf | executor.go:242-247 | The context handed to step i: its id is the step's String, its root is the job's root, its output table is the one the earlier steps left, and its variables are the step's own over the job's, over the action's chain and `context.root`. |
| Executor.RunFrom | executor.go:237-265 | The loop never runs past the end of the steps, and pushes no nil cleanup. Each step is run with the context StepContextOf builds for it. |
| Executor.StoredOutputVisible | executor.go:242-335 | What step i stores under `key` is what step i+1 reads at `${out.<id>.<key>}`, `<id>` being step i's String, unless a variable has that literal name. |
| Executor.CleanupsOf | executor.go:253-256 | Only non-nil cleanups are recorded, in the order the steps returned them. |
| Executor.FirstBlock | executor.go:249-262 | The first step that is cancelled or fails: every step before it completed. |
| Executor.RunFromIsExpected | executor.go:237-265 | The loop agrees with a step-by-step account: steps run in order, up to the first cancelled or failing step. A failing step's cleanup is pushed before the loop stops. |
| Executor.RunJob | executor.go:222-266 | A GetRoot failure returns "get job root" and runs nothing. Otherwise the error, the number of steps run and the outputs are those of the step-by-step account, and the pushed cleanups run newest first. |
| Executor.AllStepsRun | executor.go:237-265 | When no step blocks, every step runs in list order, the job succeeds, and every cleanup runs in LIFO order. |
| Executor.FailureStopsJob | executor.go:253-262 | The first failing step stops the job, and later steps never run. The error is "failed to run step <id>: <err>", and the failing step's own cleanup is pushed and runs first. |
| Executor.CancelBeforeStep | executor.go:249-251 | A context done before step k returns ctx.Err() unwrapped, and step k does not run. |
| Executor.GetRoot | executor.go:199-212 | The cached root is returned when set. Otherwise a fresh directory is created and cached; a failure is wrapped and caches nothing. |
| Executor.GetRootStable | executor.go:199-212 | Once a root exists, every later GetRoot returns it, whatever MkdirTemp would do. |
| Executor.JobCleanup | executor.go:214-220 | Nothing to remove without a root; otherwise the result is RemoveAll's error on that root. |
| Executor.JobError | executor.go:81-92 | Success stays success, and a cancellation passes through unwrapped. Anything else is wrapped as "run job <id>". |
| Executor.FirstError | executor.go:96 | The group reports the first error in finishing order, and none exactly when every job succeeded. |
| Executor.ActionError | executor.go:96-106 | RunAction fails exactly when some job failed. The error is the action's name wrapped around the first error in finishing order. |
| Executor.ActionErrorOfJobs | executor.go:64-106 | For any number of jobs, RunAction succeeds exactly when every job did. Otherwise it reports the first job to finish with an error: wrapped as "run job <j>" unless that error is a cancellation, then wrapped with the action's name. |
| Executor.ActionErrorMessage | executor.go:89-103 | A non-cancellation job failure reads "run action <a>: run job <j>: <cause>". |
| Executor.CanceledJobMessage | executor.go:82-103 | A cancelled job is not wrapped as a job error, but the action still is: "run action <a>: context canceled". |
| Options.Merge | options.go:23-26 | Keys from the new map overwrite, and every other existing key is kept. |
| Options.Apply | options.go:53-64 | Each option changes only its own field. |
| Options.ApplyAll | executor.go:27-29 | Options apply first to last: a writer no option sets keeps its default, and when the last option sets a writer, that writer wins. |
| Options.RuntimeVariablesSemantics | options.go:21-31 | On a nil map, WithRuntimeVariables installs a copy of the given map; otherwise it merges into the existing one. |
| Options.RuntimeVariablesCompose | options.go:21-31 | Two runtime-variable options applied in turn act as their merge, with the later map winning. |
| Options.WritersLeaveVariables | options.go:53-64 | WithCustomStdout and WithCustomStderr leave the runtime variables and the other writer untouched. |
| Options.EnvMap | options.go:40-47 | Every key is an environment entry's text before its first '='. The value is the rest of the entry, '=' signs included. |
| Options.EnvMapComplete | options.go:40-47 | Every entry with a '=' contributes its key, and the last entry for a key wins. |
| Options.EnvValueKeepsEquals | options.go:41 | "K=V" maps K to V when K has no '=', even if V contains '='. |
| Options.WithCurrentEnvironmentVariable | options.go:36-50 | It is a runtime-variables option whose every entry comes from the process environment. |
| Options.ProcVariableSetsOneKey | procedures/procvariables/procvariables.go:14-22 | WithProcVariables allocates the map when it is nil, sets the key, and keeps every other key. |
| Options.WithEnvBuildkitHost | procedures/procvariables/procvariables.go:24-33 | An unset host ends the program (None). Otherwise the host is stored under "builder.opts.buildkit-host". |
| Converter.ExactStepToProto | converter.go:98-120 | A command step maps to the Command variant and a procedure step to Proc, with the same payload. Any other runnable is an "unknown step type" error. |
| Converter.ExactStepFromProto | converter.go:122-140 | Decoding fails exactly when no variant is set. A decoded runnable encodes back to the same variant. |
| Converter.EncodeStep | converter.go:33-45 | The ID, name and variables are copied verbatim. A failure names the step ID. |
| Converter.DecodeStep | converter.go:78-89 | The ID, name and variables are copied verbatim. A step without a payload fails, and the failure names the step ID. |
| Converter.EncodeSteps | converter.go:29-46 | Steps keep their count and order. The first failing step's error is the result. |
| Converter.DecodeSteps | converter.go:74-90 | Steps keep their count and order, and any step without a payload fails the whole job. |
| Converter.EncodeJob | converter.go:25-48 | A job encodes exactly when all its steps do. A failure is the first failing step's error, every earlier step being convertible. |
| Converter.DecodeJob | converter.go:70-92 | A job decodes exactly when all its steps carry a payload. A failure is the first unset step's error, every earlier step being set. |
| Converter.EncodeJobs | converter.go:25-49 | Jobs keep their count and order. A failure is the first failing job's error, every earlier job being convertible. |
| Converter.DecodeJobs | converter.go:70-93 | Jobs keep their count and order. A failure is the first failing job's error, every earlier job being set. |
| Converter.ActionToProto | converter.go:9-52 | Fails exactly when some step has another runnable type, and then names the first such step in job-then-step order. Otherwise the ID and variables are copied, requirements are copied one for one, and the counts are kept. |
| Converter.ActionFromProto | converter.go:54-96 | Fails exactly when some step has no payload, and then returns the empty Action and names the first such step in job-then-step order. Otherwise the ID and variables are copied, the metadata is empty, and the counts are kept. |
| Converter.StepRoundTrip | converter.go:98-140 | Encoding then decoding a command or procedure step gives it back. |
| Converter.ProtoStepRoundTrip | converter.go:98-140 | Decoding then encoding a step that carries a payload gives it back. |
| Converter.StepsRoundTrip | converter.go:33-46 | A convertible step list survives the round trip. |
| Converter.ProtoStepsRoundTrip | converter.go:78-90 | A proto step list with every payload set survives the reverse round trip. |
| Converter.JobsRoundTrip | converter.go:25-49 | A convertible job list survives the round trip. |
| Converter.ProtoJobsRoundTrip | converter.go:70-93 | A proto job list survives the reverse round trip. |
| Converter.ActionRoundTrip | example/marshal/read_write_test.go:63-72 | A convertible action comes back equal except for its metadata, which is emptied. |
| Converter.ProtoActionRoundTrip | converter.go:9-96 | A decodable proto action comes back equal after decoding and re-encoding. |
| Converter.MetadataDropped | converter.go:10-15 | The metadata never reaches the proto: actions that differ only in metadata encode identically. |
| Checker.Walk | checker.go:117-125 | A found value lies under the path's first key. |
| Checker.AccessMeta | checker.go:113-135 | A nil metadata map finds nothing, and a found value lies under the key's first dot-separated segment. |
| Checker.AccessPlainKey | checker.go:113-135 | A dot-free key reads that entry, or nil when it is absent. |
| Checker.AccessDottedKey | checker.go:122-132 | `first.rest` descends into the map under `first`. It finds nothing when there is no such entry or when it is not a map. |
| Checker.AccessMetaExamples | checker_test.go:15-17 | With go = "1.21": "go" gives "1.21", "node" gives nil, and "go.version" gives nil. |
| Checker.MatchSemver | checker.go:82-111 | True exactly when the dependency is found, is a string, the constraint and the version both parse, and the constraint accepts the version. |
| Checker.FirstCompileError | checker.go:34-48 | The position of the first requirement whose expression does not compile: every earlier one compiles. |
| Checker.CompileFrom | checker.go:34-48 | The loop compiles each expression not seen before and keeps exactly the distinct expressions. It fails exactly when some requirement from here on does not compile, and the error names the first such requirement (FirstCompileError) with its own compile error. |
| Checker.CompileActionRequirement | checker.go:28-51 | Fails exactly when some expression does not compile, with "compile requirement <req>" for the first requirement that does not compile; every earlier one compiled. Otherwise it compiles each distinct expression exactly once and covers them all. |
| Checker.FirstStop | checker.go:60-79 | The first requirement that errors or evaluates to false: every earlier one passed. |
| Checker.CheckFrom | checker.go:60-79 | The loop returns nil exactly when no requirement from here on errors or evaluates to false. Otherwise it returns ErrRequirementNotMet or one requirement's own evaluation error. |
| Checker.CheckRequirement | checker.go:53-80 | Requirements are checked in order. The first evaluation error is returned as is, the first false gives ErrRequirementNotMet, and non-boolean results pass. |
| Checker.CheckFromIsFirstStop | checker.go:60-79 | The loop's result is decided by the first stopping requirement alone. |
| Checker.RequiredIgnored | checker.go:60-79 | The Required flag plays no part in checking. |
| Storage.ExpiryIsPermanent | storage/storage.go:23-29 | An expired file stays expired at any later time. An expiry equal to now is not expired, and a file without an expiry never expires. |
| Storage.IsExpired | storage/storage.go:23-29 | A file without an expiry is never expired, and neither is one whose expiry is exactly now. |
| Storage.Save | storage/memory.go:41-48 | The file is stored under its fresh id, which is returned, and every other entry is unchanged. |
| Storage.Get | storage/memory.go:50-56 | Found exactly when the id is stored, and then it is the stored file. |
| Storage.GC | storage/memory.go:58-72 | The survivors are exactly the entries not expired at now, with their files unchanged. |
| Storage.SaveThenGet | storage/memory.go:41-56 | Get after Save returns the file. After a GC, the file is still there exactly when it had not expired. |
| Storage.GCKeepsPermanent | storage/memory.go:64-66 | An entry without an expiry survives every GC. |
| Storage.GCCompose | storage/memory.go:58-72 | Collecting at t1 and then at a later t2 is the same as collecting at t2. |
| Storage.GCIdempotent | storage/memory.go:58-72 | A second GC at the same now removes nothing. |
| Environment.Name | environment/bash.go:16-18 | Each software's name is non-empty. |
| Environment.NamesDistinct | environment/software.go:25-30 | The five probes have pairwise distinct names: bash, ubuntu, python, git and macos. |
| Environment.BashVersion | environment/bash.go:20-40 | A failed command gives ("", false). Output with '(' gives the untrimmed text before the first '(', and output without one gives the trimmed output. |
| Environment.BashExample | environment/bash.go:24-33 | "5.1.8(1)-release\n" gives ("5.1.8", true). |
| Environment.UbuntuVersion | environment/ubuntu.go:20-36 | Only output starting with "Release:" succeeds, giving the trimmed remainder. |
| Environment.UbuntuExample | environment/ubuntu.go:24-27 | "Release:\t22.04\n" gives ("22.04", true). |
| Environment.PythonVersion | environment/python.go:20-37 | Only output starting with "Python " succeeds, giving the trimmed remainder. |
| Environment.PythonExample | environment/python.go:24-28 | "Python 3.11.7\n" gives ("3.11.7", true). |
| Environment.GitVersionAsWritten | environment/git.go:20-36 | As written, output starting with "git version " fails, and any other output succeeds trimmed. |
| Environment.GitAsWrittenRejectsGit | environment/git.go:25-27 | As written, the real banner "git version 2.33.0\n" is rejected. |
| Environment.GitAsWrittenAcceptsNoise | environment/git.go:25-27 | As written, the shell's "command not found\n" is accepted as the version "command not found". |
| Environment.GitVersion | environment/git.go:20-36 | Corrected: only output starting with "git version " succeeds, giving the trimmed remainder. |
| Environment.GitExample | environment/git.go:25-27 | Corrected: "git version 2.33.0\n" gives ("2.33.0", true). |
| Environment.GitCorrectionSwapsAcceptance | environment/git.go:25-27 | Whenever the command ran, the correction accepts exactly the outputs the written code rejects. |
| Environment.MacOSVersion | environment/macos.go:20-29 | A successful command always succeeds, even with blank output. The result is the output with exactly its leading and trailing whitespace removed: only whitespace lies before and after the slice, and the slice itself neither starts nor ends with whitespace. |
| Environment.MacOSExample | environment/macos.go:23-24 | "14.2.1\n" gives ("14.2.1", true). |
| Environment.Version | environment/software.go:9-12 | Each probe answers with its own post-processing, and every probe reports ("", false) when its command failed. Git uses its test as written: the genuine "git version " banner is refused and any other output passes as a version. Bash and macOS always succeed once their command ran. |
| Environment.RegisterSoftware | environment/software.go:25-30 | Appends at the end, keeps every earlier entry, and does not reject duplicates. |
| Environment.GetSoftwares | environment/software.go:33-38 | Every registered entry, in registration order. |
| Environment.RegistrationOrder | environment/software.go:25-38 | Registering a sequence appends it, in order, to what was there. |
| Environment.InitRegistry | environment/software.go:19-22 | Starting from the empty registry, the init functions leave exactly the five probes, in file order. |
| Strconv.Atoi | procedures/checkout.go:23-28 | A number is read only from a non-empty string that starts with a sign or digit, and only within the int64 range. |
| Strconv.DigitChar | procedures/checkout.go:23-28 | The character written for a digit reads back as that digit. |
| Strconv.Decimal | procedures/checkout.go:23-28 | A natural number is written as a non-empty string of digits. |
| Strconv.DecimalValue | procedures/checkout.go:23-28 | The digits written for n read back as n. |
| Strconv.AtoiOfDigits | procedures/checkout.go:23-28 | A digit string, with or without '-', reads as its value exactly when that value is within int64. |
| Strconv.AtoiItoa | procedures/checkout.go:23-28 | Atoi reads back every int64 that Itoa writes, and refuses every number outside that range. |
| Strconv.AtoiRejects | procedures/checkout.go:23-28 | "", "-", " 1" and "abc" are not numbers. |
| Procedures.Arg | procedures/write.go:13-21 | An absent key reads as "", Go's zero value. |
| Procedures.ArgOr | procedures/checkout.go:15-18 | A present key keeps its value, even an empty one; an absent key takes the default. |
| Procedures.BuildWrite | procedures/write.go:12-22 | Fails with ErrRequiredArgument("filename") exactly when filename is missing or empty. Otherwise the raw values are filename and content, with content "" when absent. |
| Procedures.RunWrite | procedures/write.go:30-42 | Writes the expanded content to root joined with the expanded filename. On success it sets `filepath` and returns a cleanup that removes that file. On failure it returns no cleanup and sets no output. |
| Procedures.WriteEndToEnd | procedures/write.go:12-42 | From the arguments to the effect: the file written is the one whose path the `filepath` output names and the cleanup removes. |
| Procedures.BuildCopyLocalDir | procedures/copy-local-dir.go:12-27 | src is checked before dest. Either one missing or empty fails with its own name, and both present are kept verbatim. |
| Procedures.RunCopyLocalDir | procedures/copy-local-dir.go:35-38 | Copies from the expanded src as given, not root-joined, to root joined with the expanded dest. There is no cleanup and no output. |
| Procedures.DepthOf | procedures/checkout.go:23-28 | The depth is the integer Atoi reads, or 1 when it reads none. |
| Procedures.DepthOfNumbers | procedures/checkout.go:23-28 | Every written int64 is read back as the depth. Out-of-range numbers, "", "abc" and " 1" all give 1. |
| Procedures.DefaultDepthIsOne | procedures/checkout.go:15-18 | Without a depth argument the clone depth is 1. |
| Procedures.BuildCheckout | procedures/checkout.go:14-30 | Never fails. url and branch default to "" and depth to "1", and depth's value is the depth mapper of the expanded text. |
| Procedures.RunCheckout | procedures/checkout.go:39-59 | A single-branch clone into the step root of the expanded url, at the mapped depth, of refs/heads/<expanded branch>. There is no cleanup and no output. |
| Procedures.CheckoutEndToEnd | procedures/checkout.go:14-59 | From the arguments to the clone options, with the defaults applied. |
| Procedures.BuildEcho | procedures/echo.go:11-15 | Never fails; message defaults to "". |
| Procedures.RunEcho | procedures/echo.go:22-25 | Prints the expanded message followed by one newline, and returns no cleanup and no error. |
| GolangBuild.BuildGoBuild | procedures/golang/build.go:14-23 | Never fails. entry defaults to "." when absent and is kept verbatim, even empty, when present. |
| GolangBuild.BuildEnvAsWritten | procedures/golang/build.go:43-49 | As written, the build's environment is the process environment: CGO_ENABLED is set, and to what, exactly as the process has it. The corrected environment is this one with CGO_ENABLED=0 appended. |
| GolangBuild.BuildEnv | procedures/golang/build.go:43-49 | Corrected environment: the process environment unchanged, with CGO_ENABLED=0 appended last. |
| GolangBuild.CgoNotDisabledAsWritten | procedures/golang/build.go:43-49 | As written, a process environment without CGO_ENABLED gives a build without it. |
| GolangBuild.CgoDisabled | procedures/golang/build.go:43-49 | Corrected, every build sees CGO_ENABLED=0, whatever the process environment says. |
| GolangBuild.RunGoBuild | procedures/golang/build.go:30-63 | A temp-dir failure gives "make temp dir" and a build failure gives "build", each with no cleanup and no output. `go build` gets the process environment alone, as the second assignment to cmd.Env leaves it. On success, outDir and outFile = outDir/server are set and the cleanup removes outDir. |
| GolangBuild.BuildOutcomes | procedures/golang/build.go:30-63 | A run fails exactly when it returns no cleanup. A failing run sets no output, and a successful one publishes a binary inside the directory its cleanup removes. |
| DockerArtifact.BuildDocker | procedures/artifact/docker.go:29-64 | Fails exactly when context is absent; an empty context is accepted. The defaults are a generated tag, the alpine Dockerfile, cache "true" and push "false". Cache and push follow the boolean rule. |
| DockerArtifact.DefaultsCacheNotPush | procedures/artifact/docker.go:41-62 | With only a context given, the image is cached, not pushed, and gets a generated tag. |
| DockerArtifact.Solve | procedures/artifact/docker.go:138-199 | Opening the context and then the Dockerfile directory comes first, each failure wrapped with its own message. Then BuildKit gets the request RequestFor describes, and its error is the result. Any failure returns the stack's cleanup and sets no output. Success returns a nil cleanup with the four outputs. |
| DockerArtifact.RequestFor | procedures/artifact/docker.go:138-174 | Pushing selects the image exporter with no tarball; otherwise the docker exporter writes the tarball. The exporter gets the tag, the push flag and zstd compression. no-cache is set exactly when cache is off. The Dockerfile is read by its base name from its own directory. |
| DockerArtifact.RunDocker | procedures/artifact/docker.go:82-208 | A missing or empty BuildKit host fails with a cleanup closure still returned. Every failure returns the cleanup and sets no output, and success returns none. |
| DockerArtifact.SuccessOutputs | procedures/artifact/docker.go:196-207 | Success needs a host and a temp dir. It sets tag, context, dockerfile and artifact, with artifact "" when pushing, and returns a nil cleanup. |
| DockerArtifact.FailureStackShape | procedures/artifact/docker.go:101-125 | After the temp dir exists, a failure hands back a stack with the directory removal at the bottom and at most the tarball close above it. |
| DockerArtifact.FailureCleanupRemovesTemp | procedures/artifact/docker.go:97-154 | After the temp dir exists, a failure's cleanup removes it last and leaves the stack empty. |
| DockerArtifact.HostKeyMatchesOption | procedures/procvariables/docker.go:6 | The step reads the BuildKit host under the key WithEnvBuildkitHost writes. |
| Command.ExpandAll | command.go:21-24 | Each word is expanded in order. The result exists exactly when every expansion returns, has one entry per word, and holds each word's expansion at its position. |
| Command.RunCommand | command.go:17-40 | An empty command panics. Otherwise every word is expanded, and the run never returns when some expansion does not. The subprocess gets the expanded words and the step's root. A failed run returns its error and stores nothing. A clean exit stores what it printed as the step's `stdout` and `stderr` outputs and changes no other output. No cleanup is returned. |
| Command.CommandOutputFeedsNextStep | command.go:36-37 | When step i is a command that exits cleanly, step i+1 reads what it printed at `${out.<id>.stdout}`. |
| Builtins.RegisterBuiltins | procedure.go:65-67 | The six init functions register exactly the six built-in names without conflict. |
| Builtins.ResolveBuiltins | procedure.go:48-72 | Resolving a built-in name runs that procedure's own builder, and a builder's refusal comes back wrapped with the name. |
| Builtins.UnknownNames | example/failure/main.go:18 | "action/not-exist" and "builtin/echo" resolve to NoBuilder. |
| Text.SplitJoin | checker.go:114 | strings.Split loses nothing: joining the pieces with the separator gives the string back. |
| Text.CutUnique | options.go:41 | Cutting "before + sep + after", where before has no sep, gives exactly before and after. |

## Left out

- RunAction's goroutine fan-out, errgroup cancellation and the channel that
  drains job cleanups. The scheduler decides the order jobs finish in, so
  `Executor.ActionError` takes that order as a parameter. Only the per-job
  sequential semantics and the error wrapping are modelled.
- DetermineSoftwareList in environment/environment.go: concurrent probing.
- File system, subprocess, git, BuildKit and fsutil effects. Each is a
  parameter giving its error or result: `os.MkdirTemp`, `RemoveAll`,
  `os.WriteFile`, the copy, the clone, `go build`, the tarball, BuildKit
  `Solve`. `path.Join`, `filepath.Dir` and `filepath.Base` are parameters too.
- `Executor.RunJob`: a step's Run is abstract, apart from the command step. It is
  given the StepContext the loop builds, and returns the output table after it
  plus a cleanup and an error. `ctx.Err()` before each step is a parameter.
- The expression engine (expr compile/run) and the semver library are
  parameters. So are the structural hash, the fakelish word, `uuid.New` and
  `time.Now`.
- `Storage.GC`: a single `now` per collection. Go reads the clock once per file
  during the sweep.
- `Storage.Save`: the fresh UUID is supplied by the caller. The mutex, and the
  `GetContentReader` getter over the content, are not modelled.
- `Variables.GetVariable` carries explicit fuel. `OutOfFuel` stands for Go's
  unbounded recursion. `FuelMonotone` and `AcyclicTerminates` bound what the
  fuel leaves out.
- `Executor.ExpandString`: step outputs are strings. Every producer stores a
  string, and `%v` of a string is itself.
- Checker metadata values are strings, nested maps or "other". A nil inside the
  metadata map is not modelled, since reflection panics on it.
- `Procedure.Register`: the panic on a taken name is the error value
  NamespaceConflict.
- `Options.WithEnvBuildkitHost`: `os.Exit(1)` on an unset host is None.
- `Builtins.RegisterBuiltins`: registers `action/checkout` and
  `action/golang/build` with the other four built-ins. As written, those two
  register with the registry of `github.com/zeabur/builder/zbaction`, not this
  package's. The fakelish word is one parameter of the registry, so every
  `action/artifact/docker` step built from it without a `tag` gets the same
  default tag. Go draws a fresh word on each build
  (procedures/artifact/docker.go:32).
- The `slog` logging and the stdout/stderr writer plumbing.
- `Command.RunCommand`: the writers also copy both streams to the process's own
  stdout and stderr; that echo is not modelled. Killing the subprocess when the
  context is cancelled is part of the `run` parameter.
- `action/golang/mod-download` (procedures/golang/download.go) runs a
  subprocess only and is not modelled.
- cachestorage (zip archives on disk) and the generated protobuf code. Proto
  messages are plain datatypes.
- The examples and the cmd programs.

## Findings

| source | as written | input that shows it | evidently intended | confidence | as-written member | corrected member |
|---|---|---|---|---|---|---|
| environment/git.go:25-27 | the success test is inverted: output starting with "git version " is reported as a failure, and any other output is accepted as the version | output "git version 2.33.0\n" gives ("", false); "command not found\n" gives ("command not found", true) | accept the output only when it starts with "git version ", and report the trimmed rest | high, not executed | Environment.GitAsWrittenRejectsGit | Environment.GitVersion |
| procedures/golang/build.go:43-49 | `cmd.Env` is assigned `{"CGO_ENABLED=0"}` and then overwritten by `os.Environ()`, so cgo is not disabled | process environment ["PATH=/usr/bin"] gives a build environment with no CGO_ENABLED | the process environment with CGO_ENABLED=0 added | high, not executed | GolangBuild.CgoNotDisabledAsWritten | GolangBuild.CgoDisabled |
