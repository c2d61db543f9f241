/** procedure.go: the registry of procedure-step builders, and schema.go's
    ProcStep.Run that resolves a step from it and delegates to the result.

    The registry is a value; the read/write mutex and the debug logging carry
    no behaviour and are not modelled. A builder is any function from the
    step's `with` arguments to a built step or an error. */
module Procedure {
  import opened Wrappers
  import opened Errors
  import opened Cleanup

  type Args = map<string, string>
  type Builder<P> = Args -> Result<P, Error>

  datatype Registry<P> = Registry(builders: map<string, Builder<P>>)

  /** NewProcedureStepResolver: nothing registered. */
  function NewRegistry<P>(): (r: Registry<P>)
    ensures r.builders == map[]
  {
    Registry(map[])
  }

  /** The panic text of a second registration under one name. */
  const NamespaceConflict := "namespace conflict"

  /** Register: binds a fresh name; a name already bound panics, which the
      model reports as Err with the panic text. */
  function Register<P>(reg: Registry<P>, name: string, builder: Builder<P>): (r: Result<Registry<P>, string>)
    ensures name in reg.builders <==> r.Err?
    ensures r.Err? ==> r.error == NamespaceConflict
    ensures r.Ok? ==> r.value.builders.Keys == reg.builders.Keys + {name}
    ensures r.Ok? ==> name in r.value.builders && r.value.builders[name] == builder
    ensures r.Ok? ==> forall n :: n in reg.builders ==> r.value.builders[n] == reg.builders[n]
  {
    if name in reg.builders then Err(NamespaceConflict)
    else Ok(Registry(reg.builders[name := builder]))
  }

  /** Resolve: build the step named by `uses` from `with`, unchanged. */
  function Resolve<P>(reg: Registry<P>, uses: string, with: Args): (r: Result<P, Error>)
    ensures uses !in reg.builders ==> r == Err(NoBuilder(uses))
    ensures uses in reg.builders && reg.builders[uses](with).Ok? ==> r == reg.builders[uses](with)
    ensures uses in reg.builders && reg.builders[uses](with).Err? ==>
      r == Err(BuildStep(uses, reg.builders[uses](with).error))
  {
    if uses in reg.builders then
      match reg.builders[uses](with)
      case Ok(step) => Ok(step)
      case Err(e) => Err(BuildStep(uses, e))
    else Err(NoBuilder(uses))
  }

  /** What running a step yields: a cleanup callback (possibly nil) and an
      error, if any. */
  datatype StepResult = StepResult(cleanup: CleanupFn, err: Option<Error>)

  /** ProcStep.Run: resolve, then hand over to the built step's own Run. */
  function RunProcStep<P>(reg: Registry<P>, uses: string, with: Args, run: P -> StepResult): (r: StepResult)
    ensures Resolve(reg, uses, with).Err? ==> r == StepResult(Nil, Some(Resolve(reg, uses, with).error))
    ensures Resolve(reg, uses, with).Ok? ==> r == run(Resolve(reg, uses, with).value)
  {
    match Resolve(reg, uses, with)
    case Err(e) => StepResult(Nil, Some(e))
    case Ok(step) => run(step)
  }

  /** After a successful registration the new name resolves through exactly the
      registered builder, fed the arguments it was given. */
  lemma RegisterThenResolve<P>(reg: Registry<P>, name: string, builder: Builder<P>, with: Args)
    requires name !in reg.builders
    ensures Register(reg, name, builder).Ok?
    ensures var reg2 := Register(reg, name, builder).value;
      && (builder(with).Ok? ==> Resolve(reg2, name, with) == builder(with))
      && (builder(with).Err? ==> Resolve(reg2, name, with) == Err(BuildStep(name, builder(with).error)))
  {
  }

  /** Registering a name leaves how every other name resolves unchanged. */
  lemma RegisterKeepsOthers<P>(reg: Registry<P>, name: string, builder: Builder<P>, other: string, with: Args)
    requires Register(reg, name, builder).Ok? && other != name
    ensures Resolve(Register(reg, name, builder).value, other, with) == Resolve(reg, other, with)
  {
  }

  /** The texts Go renders for the two resolution failures. */
  lemma ResolveMessages(uses: string, cause: Error)
    ensures NoBuilder(uses).Message() == "no procedure step builder found for " + uses
    ensures BuildStep(uses, cause).Message() == "build step " + uses + ": " + cause.Message()
  {
  }
}
