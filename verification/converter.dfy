/** converter.go: conversion between the workflow tree and its protobuf form.

    The protobuf messages are plain datatypes here; a step's payload is the
    `oneof` of a command or a procedure, and may be unset. Action.Metadata has
    no protobuf counterpart and is never transferred. */
module Converter {
  import opened Wrappers
  import opened Errors
  import opened Schema

  datatype ProtoPayload =
    | PCommand(command: seq<string>)                    // Step_Command
    | PProc(uses: string, with: map<string, string>)    // Step_Proc
    | PUnset                                            // the oneof left nil

  datatype ProtoStep = ProtoStep(id: string, name: string, payload: ProtoPayload, variables: Vars)
  datatype ProtoJob = ProtoJob(id: string, runOn: string, steps: seq<ProtoStep>, variables: Vars)
  datatype ProtoRequirement = ProtoRequirement(expr: string, description: Option<string>, required: bool)
  datatype ProtoAction = ProtoAction(id: string, jobs: seq<ProtoJob>, variables: Vars, requirements: seq<ProtoRequirement>)

  /** `%T (%+v)` of a nil payload. */
  const NilDescription := "<nil> (<nil>)"

  /** The zero Action{} that ActionFromProto returns beside an error. */
  const ZeroAction := Action("", map[], [], [], map[])

  predicate Convertible(r: Runnable) {
    r.Command? || r.Proc?
  }

  /** exactStepToProto. */
  function ExactStepToProto(r: Runnable): (p: Result<ProtoPayload, Error>)
    ensures p.Ok? <==> Convertible(r)
    ensures r.Command? ==> p == Ok(PCommand(r.argv))
    ensures r.Proc? ==> p == Ok(PProc(r.uses, r.with))
    ensures r.Other? ==> p == Err(UnknownStepType(r.kind))
  {
    match r
    case Command(argv) => Ok(PCommand(argv))
    case Proc(uses, with) => Ok(PProc(uses, with))
    case Other(kind) => Err(UnknownStepType(kind))
  }

  /** exactStepFromProto. */
  function ExactStepFromProto(p: ProtoPayload): (r: Result<Runnable, Error>)
    ensures r.Ok? <==> !p.PUnset?
    ensures r.Ok? ==> ExactStepToProto(r.value) == Ok(p)
    ensures p.PUnset? ==> r == Err(UnknownStepType(NilDescription))
  {
    match p
    case PCommand(command) => Ok(Command(command))
    case PProc(uses, with) => Ok(Proc(uses, with))
    case PUnset => Err(UnknownStepType(NilDescription))
  }

  function EncodeStep(s: Step): (r: Result<ProtoStep, Error>)
    ensures r.Ok? <==> Convertible(s.runnable)
    ensures r.Ok? ==> r.value.id == s.id && r.value.name == s.name && r.value.variables == s.variables
    ensures r.Err? ==> r.error == StepToProto(s.id, UnknownStepType(s.runnable.kind))
  {
    match ExactStepToProto(s.runnable)
    case Ok(p) => Ok(ProtoStep(s.id, s.name, p, s.variables))
    case Err(e) => Err(StepToProto(s.id, e))
  }

  function DecodeStep(p: ProtoStep): (r: Result<Step, Error>)
    ensures r.Ok? <==> !p.payload.PUnset?
    ensures r.Ok? ==> r.value.id == p.id && r.value.name == p.name && r.value.variables == p.variables
    ensures r.Err? ==> r.error == StepFromProto(p.id, UnknownStepType(NilDescription))
  {
    match ExactStepFromProto(p.payload)
    case Ok(run) => Ok(Step(p.id, p.name, p.variables, run))
    case Err(e) => Err(StepFromProto(p.id, e))
  }

  predicate StepsConvertible(steps: seq<Step>) {
    forall i :: 0 <= i < |steps| ==> Convertible(steps[i].runnable)
  }

  predicate ProtoStepsSet(steps: seq<ProtoStep>) {
    forall i :: 0 <= i < |steps| ==> !steps[i].payload.PUnset?
  }

  /** The steps of one job, in order; the first unconvertible step stops it. */
  function EncodeSteps(steps: seq<Step>): (r: Result<seq<ProtoStep>, Error>)
    ensures r.Ok? <==> StepsConvertible(steps)
    ensures r.Ok? ==> |r.value| == |steps| && forall i :: 0 <= i < |steps| ==> Ok(r.value[i]) == EncodeStep(steps[i])
    ensures r.Err? ==> exists i :: 0 <= i < |steps| && EncodeStep(steps[i]) == Err(r.error)
                                   && StepsConvertible(steps[..i])
  {
    if |steps| == 0 then Ok([])
    else
      match EncodeStep(steps[0])
      case Err(e) =>
        assert StepsConvertible(steps[..0]);
        Err(e)
      case Ok(p) =>
        match EncodeSteps(steps[1..])
        case Err(e) =>
          ghost var i :| 0 <= i < |steps[1..]| && EncodeStep(steps[1..][i]) == Err(e) && StepsConvertible(steps[1..][..i]);
          assert steps[..i + 1] == [steps[0]] + steps[1..][..i];
          Err(e)
        case Ok(ps) => Ok([p] + ps)
  }

  function DecodeSteps(steps: seq<ProtoStep>): (r: Result<seq<Step>, Error>)
    ensures r.Ok? <==> ProtoStepsSet(steps)
    ensures r.Ok? ==> |r.value| == |steps| && forall i :: 0 <= i < |steps| ==> Ok(r.value[i]) == DecodeStep(steps[i])
    ensures r.Err? ==> exists i :: 0 <= i < |steps| && DecodeStep(steps[i]) == Err(r.error)
                                   && ProtoStepsSet(steps[..i])
  {
    if |steps| == 0 then Ok([])
    else
      match DecodeStep(steps[0])
      case Err(e) =>
        assert ProtoStepsSet(steps[..0]);
        Err(e)
      case Ok(s) =>
        match DecodeSteps(steps[1..])
        case Err(e) =>
          ghost var i :| 0 <= i < |steps[1..]| && DecodeStep(steps[1..][i]) == Err(e) && ProtoStepsSet(steps[1..][..i]);
          assert steps[..i + 1] == [steps[0]] + steps[1..][..i];
          Err(e)
        case Ok(ss) => Ok([s] + ss)
  }

  predicate JobsConvertible(jobs: seq<Job>) {
    forall i :: 0 <= i < |jobs| ==> StepsConvertible(jobs[i].steps)
  }

  predicate ProtoJobsSet(jobs: seq<ProtoJob>) {
    forall i :: 0 <= i < |jobs| ==> ProtoStepsSet(jobs[i].steps)
  }

  function EncodeJob(j: Job): (r: Result<ProtoJob, Error>)
    ensures r.Ok? <==> StepsConvertible(j.steps)
    ensures r.Err? ==> exists i :: 0 <= i < |j.steps| && EncodeStep(j.steps[i]) == Err(r.error)
                                   && StepsConvertible(j.steps[..i])
  {
    match EncodeSteps(j.steps)
    case Ok(ps) => Ok(ProtoJob(j.id, j.runOn, ps, j.variables))
    case Err(e) => Err(e)
  }

  function DecodeJob(p: ProtoJob): (r: Result<Job, Error>)
    ensures r.Ok? <==> ProtoStepsSet(p.steps)
    ensures r.Err? ==> exists i :: 0 <= i < |p.steps| && DecodeStep(p.steps[i]) == Err(r.error)
                                   && ProtoStepsSet(p.steps[..i])
  {
    match DecodeSteps(p.steps)
    case Ok(ss) => Ok(Job(p.id, p.runOn, p.variables, ss))
    case Err(e) => Err(e)
  }

  /** A convertible first job ahead of a convertible prefix of the rest. */
  lemma ConvertiblePrefixCons(jobs: seq<Job>, i: nat)
    requires i < |jobs| - 1
    requires StepsConvertible(jobs[0].steps) && JobsConvertible(jobs[1..][..i])
    ensures JobsConvertible(jobs[..i + 1])
  {
    var pre, rest := jobs[..i + 1], jobs[1..][..i];
    forall k | 0 <= k < i + 1
      ensures StepsConvertible(pre[k].steps)
    {
      if k > 0 {
        assert pre[k] == rest[k - 1];
      }
    }
  }

  lemma SetPrefixCons(jobs: seq<ProtoJob>, i: nat)
    requires i < |jobs| - 1
    requires ProtoStepsSet(jobs[0].steps) && ProtoJobsSet(jobs[1..][..i])
    ensures ProtoJobsSet(jobs[..i + 1])
  {
    var pre, rest := jobs[..i + 1], jobs[1..][..i];
    forall k | 0 <= k < i + 1
      ensures ProtoStepsSet(pre[k].steps)
    {
      if k > 0 {
        assert pre[k] == rest[k - 1];
      }
    }
  }

  function EncodeJobs(jobs: seq<Job>): (r: Result<seq<ProtoJob>, Error>)
    ensures r.Ok? <==> JobsConvertible(jobs)
    ensures r.Ok? ==> |r.value| == |jobs| && forall i :: 0 <= i < |jobs| ==> Ok(r.value[i]) == EncodeJob(jobs[i])
    ensures r.Err? ==> exists i :: 0 <= i < |jobs| && EncodeJob(jobs[i]) == Err(r.error)
                                   && JobsConvertible(jobs[..i])
  {
    if |jobs| == 0 then Ok([])
    else
      match EncodeJob(jobs[0])
      case Err(e) =>
        assert JobsConvertible(jobs[..0]);
        Err(e)
      case Ok(p) =>
        match EncodeJobs(jobs[1..])
        case Err(e) =>
          ghost var i :| 0 <= i < |jobs[1..]| && EncodeJob(jobs[1..][i]) == Err(e) && JobsConvertible(jobs[1..][..i]);
          assert jobs[1..][i] == jobs[i + 1];
          ConvertiblePrefixCons(jobs, i);
          Err(e)
        case Ok(ps) => Ok([p] + ps)
  }

  function DecodeJobs(jobs: seq<ProtoJob>): (r: Result<seq<Job>, Error>)
    ensures r.Ok? <==> ProtoJobsSet(jobs)
    ensures r.Ok? ==> |r.value| == |jobs| && forall i :: 0 <= i < |jobs| ==> Ok(r.value[i]) == DecodeJob(jobs[i])
    ensures r.Err? ==> exists i :: 0 <= i < |jobs| && DecodeJob(jobs[i]) == Err(r.error)
                                   && ProtoJobsSet(jobs[..i])
  {
    if |jobs| == 0 then Ok([])
    else
      match DecodeJob(jobs[0])
      case Err(e) =>
        assert ProtoJobsSet(jobs[..0]);
        Err(e)
      case Ok(j) =>
        match DecodeJobs(jobs[1..])
        case Err(e) =>
          ghost var i :| 0 <= i < |jobs[1..]| && DecodeJob(jobs[1..][i]) == Err(e) && ProtoJobsSet(jobs[1..][..i]);
          assert jobs[1..][i] == jobs[i + 1];
          SetPrefixCons(jobs, i);
          Err(e)
        case Ok(js) => Ok([j] + js)
  }

  function EncodeRequirement(r: Requirement): ProtoRequirement {
    ProtoRequirement(r.expr, r.description, r.required)
  }

  function DecodeRequirement(p: ProtoRequirement): Requirement {
    Requirement(p.expr, p.description, p.required)
  }

  /** ActionToProto: the tree without Metadata, or the first step that has no
      protobuf form. */
  function ActionToProto(a: Action): (r: Result<ProtoAction, Error>)
    ensures r.Ok? <==> JobsConvertible(a.jobs)
    ensures r.Ok? ==> r.value.id == a.id && r.value.variables == a.variables
    ensures r.Ok? ==> |r.value.jobs| == |a.jobs| && |r.value.requirements| == |a.requirements|
    ensures r.Ok? ==> forall i :: 0 <= i < |a.requirements| ==> r.value.requirements[i] == EncodeRequirement(a.requirements[i])
    ensures r.Err? ==>
      exists j, i :: 0 <= j < |a.jobs| && 0 <= i < |a.jobs[j].steps|
        && JobsConvertible(a.jobs[..j]) && StepsConvertible(a.jobs[j].steps[..i])
        && !Convertible(a.jobs[j].steps[i].runnable)
        && r.error == StepToProto(a.jobs[j].steps[i].id, UnknownStepType(a.jobs[j].steps[i].runnable.kind))
  {
    match EncodeJobs(a.jobs)
    case Err(e) =>
      ghost var j :| 0 <= j < |a.jobs| && EncodeJob(a.jobs[j]) == Err(e) && JobsConvertible(a.jobs[..j]);
      ghost var i :| 0 <= i < |a.jobs[j].steps| && EncodeStep(a.jobs[j].steps[i]) == Err(e)
                     && StepsConvertible(a.jobs[j].steps[..i]);
      Err(e)
    case Ok(pjs) =>
      Ok(ProtoAction(a.id, pjs, a.variables, seq(|a.requirements|, i requires 0 <= i < |a.requirements| => EncodeRequirement(a.requirements[i]))))
  }

  /** ActionFromProto: the tree (with no Metadata) and no error, or the zero
      Action and the first step whose payload is unset. */
  function ActionFromProto(p: ProtoAction): (r: (Action, Option<Error>))
    ensures r.1.None? <==> ProtoJobsSet(p.jobs)
    ensures r.1.Some? ==> r.0 == ZeroAction
    ensures r.1.None? ==> r.0.id == p.id && r.0.variables == p.variables && r.0.metadata == map[]
    ensures r.1.None? ==> |r.0.jobs| == |p.jobs| && |r.0.requirements| == |p.requirements|
    ensures r.1.Some? ==>
      exists j, i :: 0 <= j < |p.jobs| && 0 <= i < |p.jobs[j].steps|
        && ProtoJobsSet(p.jobs[..j]) && ProtoStepsSet(p.jobs[j].steps[..i])
        && p.jobs[j].steps[i].payload.PUnset?
        && r.1.value == StepFromProto(p.jobs[j].steps[i].id, UnknownStepType(NilDescription))
  {
    match DecodeJobs(p.jobs)
    case Err(e) =>
      ghost var j :| 0 <= j < |p.jobs| && DecodeJob(p.jobs[j]) == Err(e) && ProtoJobsSet(p.jobs[..j]);
      ghost var i :| 0 <= i < |p.jobs[j].steps| && DecodeStep(p.jobs[j].steps[i]) == Err(e)
                     && ProtoStepsSet(p.jobs[j].steps[..i]);
      (ZeroAction, Some(e))
    case Ok(js) =>
      (Action(p.id, p.variables, js, seq(|p.requirements|, i requires 0 <= i < |p.requirements| => DecodeRequirement(p.requirements[i])), map[]), None)
  }

  // ---- round trips ----

  lemma StepRoundTrip(s: Step)
    requires Convertible(s.runnable)
    ensures DecodeStep(EncodeStep(s).value) == Ok(s)
  {
  }

  lemma ProtoStepRoundTrip(p: ProtoStep)
    requires !p.payload.PUnset?
    ensures EncodeStep(DecodeStep(p).value) == Ok(p)
  {
  }

  lemma {:induction false} StepsRoundTrip(steps: seq<Step>)
    requires StepsConvertible(steps)
    ensures DecodeSteps(EncodeSteps(steps).value) == Ok(steps)
    decreases |steps|
  {
    if |steps| > 0 {
      assert StepsConvertible(steps[1..]) by {
        forall i | 0 <= i < |steps[1..]| ensures Convertible(steps[1..][i].runnable) {
          assert steps[1..][i] == steps[i + 1];
        }
      }
      StepsRoundTrip(steps[1..]);
      StepRoundTrip(steps[0]);
      var ps := EncodeSteps(steps).value;
      assert ps[1..] == EncodeSteps(steps[1..]).value;
      assert [steps[0]] + steps[1..] == steps;
    }
  }

  lemma {:induction false} ProtoStepsRoundTrip(steps: seq<ProtoStep>)
    requires ProtoStepsSet(steps)
    ensures EncodeSteps(DecodeSteps(steps).value) == Ok(steps)
    decreases |steps|
  {
    if |steps| > 0 {
      assert ProtoStepsSet(steps[1..]) by {
        forall i | 0 <= i < |steps[1..]| ensures !steps[1..][i].payload.PUnset? {
          assert steps[1..][i] == steps[i + 1];
        }
      }
      ProtoStepsRoundTrip(steps[1..]);
      ProtoStepRoundTrip(steps[0]);
      var ss := DecodeSteps(steps).value;
      assert ss[1..] == DecodeSteps(steps[1..]).value;
      assert [steps[0]] + steps[1..] == steps;
    }
  }

  lemma {:induction false} JobsRoundTrip(jobs: seq<Job>)
    requires JobsConvertible(jobs)
    ensures DecodeJobs(EncodeJobs(jobs).value) == Ok(jobs)
    decreases |jobs|
  {
    if |jobs| > 0 {
      assert JobsConvertible(jobs[1..]) by {
        forall i | 0 <= i < |jobs[1..]| ensures StepsConvertible(jobs[1..][i].steps) {
          assert jobs[1..][i] == jobs[i + 1];
        }
      }
      JobsRoundTrip(jobs[1..]);
      StepsRoundTrip(jobs[0].steps);
      var pjs := EncodeJobs(jobs).value;
      assert pjs[1..] == EncodeJobs(jobs[1..]).value;
      assert [jobs[0]] + jobs[1..] == jobs;
    }
  }

  lemma {:induction false} ProtoJobsRoundTrip(jobs: seq<ProtoJob>)
    requires ProtoJobsSet(jobs)
    ensures EncodeJobs(DecodeJobs(jobs).value) == Ok(jobs)
    decreases |jobs|
  {
    if |jobs| > 0 {
      assert ProtoJobsSet(jobs[1..]) by {
        forall i | 0 <= i < |jobs[1..]| ensures ProtoStepsSet(jobs[1..][i].steps) {
          assert jobs[1..][i] == jobs[i + 1];
        }
      }
      ProtoJobsRoundTrip(jobs[1..]);
      ProtoStepsRoundTrip(jobs[0].steps);
      var js := DecodeJobs(jobs).value;
      assert js[1..] == DecodeJobs(jobs[1..]).value;
      assert [jobs[0]] + jobs[1..] == jobs;
    }
  }

  /** Writing an action out and reading it back gives the same action, except
      that Metadata comes back empty. */
  lemma ActionRoundTrip(a: Action)
    requires JobsConvertible(a.jobs)
    ensures ActionFromProto(ActionToProto(a).value) == (a.(metadata := map[]), None)
  {
    JobsRoundTrip(a.jobs);
    var back := ActionFromProto(ActionToProto(a).value).0;
    assert back.requirements == a.requirements;
  }

  /** A protobuf action whose every step payload is set survives a read and a
      write unchanged. */
  lemma ProtoActionRoundTrip(p: ProtoAction)
    requires ProtoJobsSet(p.jobs)
    ensures ActionToProto(ActionFromProto(p).0) == Ok(p)
  {
    ProtoJobsRoundTrip(p.jobs);
    var back := ActionToProto(ActionFromProto(p).0).value;
    assert back.requirements == p.requirements;
  }

  /** Metadata is lost: two actions differing only there convert identically. */
  lemma MetadataDropped(a: Action, m: Vars)
    ensures ActionToProto(a) == ActionToProto(a.(metadata := m))
  {
  }
}
