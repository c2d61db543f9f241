/** The errors the engine produces or passes through, with the text Go's
    `Error()` renders for each. Constructors that carry a `cause` model a
    `fmt.Errorf("...: %w", cause)`, so `errors.Is` sees through them. */
module Errors {

  datatype Error =
    | RequiredArgument(key: string)                      // exceptions.go ErrRequiredArgument
    | NoBuilder(procedure: string)                       // Resolve of an unregistered name
    | BuildStep(procedure: string, cause: Error)         // a builder's own error, wrapped
    | StepFailed(step: string, cause: Error)             // JobContext.Run
    | JobRoot(cause: Error)                              // JobContext.Run, GetRoot failed
    | JobFailed(job: string, cause: Error)               // RunAction, per job
    | ActionFailed(action: string, cause: Error)         // RunAction, overall
    | Canceled                                           // context.Canceled
    | DeadlineExceeded                                   // context.DeadlineExceeded
    | Wrapped(context: string, cause: Error)             // a procedure's own fmt.Errorf wrap
    | Foreign(message: string)                           // I/O, subprocess, git, buildkit, expr
    | BuildkitHostNotSet                                 // artifact/docker
    | StepToProto(step: string, cause: Error)            // ActionToProto
    | StepFromProto(step: string, cause: Error)          // ActionFromProto
    | UnknownStepType(description: string)               // exactStepToProto / exactStepFromProto
    | RequirementNotMet                                  // checker.go ErrRequirementNotMet
    | CompileRequirement(requirement: string, cause: Error)
  {
    function Message(): string {
      match this
      case RequiredArgument(key) => RequiredArgumentPrefix + key
      case NoBuilder(p) => "no procedure step builder found for " + p
      case BuildStep(p, c) => "build step " + p + ": " + c.Message()
      case StepFailed(s, c) => "failed to run step " + s + ": " + c.Message()
      case JobRoot(c) => "get job root: " + c.Message()
      case JobFailed(j, c) => "run job " + j + ": " + c.Message()
      case ActionFailed(a, c) => "run action " + a + ": " + c.Message()
      case Canceled => "context canceled"
      case DeadlineExceeded => "context deadline exceeded"
      case Wrapped(ctx, c) => ctx + ": " + c.Message()
      case Foreign(m) => m
      case BuildkitHostNotSet => "BUILDKIT_HOST is not set"
      case StepToProto(s, c) => "failed to convert step " + s + " to proto: " + c.Message()
      case StepFromProto(s, c) => "failed to convert step " + s + " from proto: " + c.Message()
      case UnknownStepType(d) => "unknown step type received: " + d
      case RequirementNotMet => "requirement not met"
      case CompileRequirement(r, c) => "compile requirement " + r + ": " + c.Message()
    }
  }

  const RequiredArgumentPrefix := "missing required argument: "

  /** errors.Is(e, context.Canceled): `e` is the cancellation error or wraps it. */
  predicate IsCanceled(e: Error) {
    match e
    case Canceled => true
    case BuildStep(_, c) => IsCanceled(c)
    case StepFailed(_, c) => IsCanceled(c)
    case JobRoot(c) => IsCanceled(c)
    case JobFailed(_, c) => IsCanceled(c)
    case ActionFailed(_, c) => IsCanceled(c)
    case Wrapped(_, c) => IsCanceled(c)
    case StepToProto(_, c) => IsCanceled(c)
    case StepFromProto(_, c) => IsCanceled(c)
    case CompileRequirement(_, c) => IsCanceled(c)
    case _ => false
  }

  /** NewErrRequiredArgument. */
  function NewErrRequiredArgument(key: string): (e: Error)
    ensures e.RequiredArgument? && e.key == key
    ensures |e.Message()| == |RequiredArgumentPrefix| + |key|
    ensures e.Message()[|RequiredArgumentPrefix|..] == key
  {
    RequiredArgument(key)
  }

  /** Every required-argument message starts with the fixed prefix and ends with the key. */
  lemma RequiredArgumentMessage(key: string)
    ensures RequiredArgument(key).Message()[..|RequiredArgumentPrefix|] == RequiredArgumentPrefix
    ensures RequiredArgument(key).Message()[|RequiredArgumentPrefix|..] == key
  {
  }

  /** Distinct keys give distinct messages. */
  lemma RequiredArgumentInjective(k1: string, k2: string)
    requires RequiredArgument(k1).Message() == RequiredArgument(k2).Message()
    ensures k1 == k2
  {
    RequiredArgumentMessage(k1);
    RequiredArgumentMessage(k2);
  }
}
