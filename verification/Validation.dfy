/** The check every TaskGroup passes before a TaskRun is made from it. */
module Validation {
  import opened Text
  import opened Types

  datatype FieldError = MissingSteps | MissingTaskRefName(step: nat) | Upstream(message: string)

  /** The validators taken over from Tekton; each returns the problems it finds. */
  datatype Validators = Validators(volumes: seq<Volume> -> seq<FieldError>,
                                   paramTypes: seq<ParamSpec> -> seq<FieldError>,
                                   paramVariables: (seq<Step>, seq<ParamSpec>) -> seq<FieldError>,
                                   resourceVariables: seq<Step> -> seq<FieldError>,
                                   result: TaskResult -> seq<FieldError>)

  /** Tekton's validators speak of their own fields. */
  ghost predicate OnlyUpstream(errs: seq<FieldError>) {
    forall e :: e in errs ==> e.Upstream?
  }

  ghost predicate UpstreamOnly(v: Validators) {
    && (forall x :: OnlyUpstream(v.volumes(x)))
    && (forall x :: OnlyUpstream(v.paramTypes(x)))
    && (forall s, x :: OnlyUpstream(v.paramVariables(s, x)))
    && (forall s :: OnlyUpstream(v.resourceVariables(s)))
    && (forall x :: OnlyUpstream(v.result(x)))
  }

  function UpstreamSteps(steps: seq<GroupStep>): seq<Step> {
    if steps == [] then [] else UpstreamSteps(steps[..|steps| - 1]) + [steps[|steps| - 1].step]
  }

  /** `toUpstreamStep`: a slice of the right length, filled by index. */
  method ToUpstreamSteps(steps: seq<GroupStep>) returns (s: array<Step>)
    ensures fresh(s) && s[..] == UpstreamSteps(steps)
  {
    s := new Step[|steps|](_ => Step("", "", "", [], [], [], [], ""));
    for i := 0 to |steps|
      invariant s[..i] == UpstreamSteps(steps[..i])
    {
      s[i] := steps[i].step;
      assert steps[..i + 1][..i] == steps[..i];
      assert s[..i + 1] == s[..i] + [s[i]];
    }
    assert steps[..|steps|] == steps && s[..|steps|] == s[..];
  }

  /** `validateSteps`, with `Step.Validate` and `Uses.Validate` for each step. */
  method ValidateSteps(steps: seq<GroupStep>) returns (errs: seq<FieldError>)
    ensures forall e :: e in errs <==> e.MissingTaskRefName? && e.step < |steps| && NamelessUses(steps[e.step])
    ensures errs == [] <==> forall i :: 0 <= i < |steps| ==> !NamelessUses(steps[i])
  {
    errs := [];
    for i := 0 to |steps|
      invariant forall e :: e in errs <==> e.MissingTaskRefName? && e.step < i && NamelessUses(steps[e.step])
      invariant errs == [] <==> forall j :: 0 <= j < i ==> !NamelessUses(steps[j])
    {
      if steps[i].uses.Some? && steps[i].uses.value.taskRef == "" {
        errs := errs + [MissingTaskRefName(i)];
      }
    }
  }

  function ResultErrors(v: Validators, results: seq<TaskResult>): seq<FieldError> {
    if results == [] then [] else ResultErrors(v, results[..|results| - 1]) + v.result(results[|results| - 1])
  }

  lemma {:induction false} ResultErrorsUpstream(v: Validators, results: seq<TaskResult>)
    requires UpstreamOnly(v)
    ensures OnlyUpstream(ResultErrors(v, results))
  {
    if results != [] {
      ResultErrorsUpstream(v, results[..|results| - 1]);
      assert OnlyUpstream(v.result(results[|results| - 1]));
    }
  }

  method ValidateResults(v: Validators, results: seq<TaskResult>) returns (errs: seq<FieldError>)
    ensures errs == ResultErrors(v, results)
  {
    errs := [];
    for i := 0 to |results|
      invariant errs == ResultErrors(v, results[..i])
    {
      assert results[..i + 1][..i] == results[..i];
      errs := errs + v.result(results[i]);
    }
    assert results[..|results|] == results;
  }

  /** Nothing in Tekton's part of the check is wrong. */
  predicate UpstreamValid(v: Validators, spec: TaskGroupSpec) {
    && v.volumes(spec.volumes) == []
    && v.paramTypes(spec.params) == []
    && v.paramVariables(UpstreamSteps(spec.steps), spec.params) == []
    && v.resourceVariables(UpstreamSteps(spec.steps)) == []
    && ResultErrors(v, spec.results) == []
  }

  /** What a TaskGroup has to be. */
  predicate Valid(v: Validators, spec: TaskGroupSpec) {
    && spec.steps != []
    && (forall i :: 0 <= i < |spec.steps| ==> !NamelessUses(spec.steps[i]))
    && UpstreamValid(v, spec)
  }

  /** `TaskGroupSpec.Validate`: all problems are collected, none hides another. */
  method Validate(v: Validators, spec: TaskGroupSpec) returns (errs: seq<FieldError>)
    ensures errs == [] <==> Valid(v, spec)
    ensures UpstreamOnly(v) ==> (MissingSteps in errs <==> spec.steps == [])
    ensures UpstreamOnly(v) ==>
      forall i: nat :: MissingTaskRefName(i) in errs <==> i < |spec.steps| && NamelessUses(spec.steps[i])
    ensures forall e: FieldError :: e.Upstream? ==> (e in errs <==> ReportedUpstream(v, spec, e))
  {
    errs := [];
    if |spec.steps| == 0 {
      errs := errs + [MissingSteps];
    }
    var steps := ToUpstreamSteps(spec.steps);
    var stepErrs := ValidateSteps(spec.steps);
    errs := errs + stepErrs;
    ghost var own := errs;
    var upstream := v.volumes(spec.volumes);
    upstream := upstream + v.paramTypes(spec.params);
    upstream := upstream + v.paramVariables(steps[..], spec.params);
    upstream := upstream + v.resourceVariables(steps[..]);
    var resultErrs := ValidateResults(v, spec.results);
    upstream := upstream + resultErrs;
    errs := errs + upstream;
    if UpstreamOnly(v) {
      ResultErrorsUpstream(v, spec.results);
      assert OnlyUpstream(upstream);
    }
  }

  // ---- The check, told by the fields ----

  /** One of Tekton's validators reports the problem. */
  ghost predicate ReportedUpstream(v: Validators, spec: TaskGroupSpec, e: FieldError) {
    || e in v.volumes(spec.volumes) || e in v.paramTypes(spec.params)
    || e in v.paramVariables(UpstreamSteps(spec.steps), spec.params)
    || e in v.resourceVariables(UpstreamSteps(spec.steps))
    || e in ResultErrors(v, spec.results)
  }

  lemma {:induction false} UpstreamStepsAt(steps: seq<GroupStep>)
    ensures |UpstreamSteps(steps)| == |steps|
    ensures forall i :: 0 <= i < |steps| ==> UpstreamSteps(steps)[i] == steps[i].step
  {
    if steps != [] {
      UpstreamStepsAt(steps[..|steps| - 1]);
    }
  }

  lemma {:induction false} ResultErrorsExactly(v: Validators, results: seq<TaskResult>, e: FieldError)
    ensures e in ResultErrors(v, results) <==> exists i :: 0 <= i < |results| && e in v.result(results[i])
  {
    if results != [] {
      var n := |results| - 1;
      ResultErrorsExactly(v, results[..n], e);
      assert (exists i :: 0 <= i < n && e in v.result(results[..n][i])) <==>
             (exists i :: 0 <= i < n && e in v.result(results[i])) by {
        assert forall i :: 0 <= i < n ==> results[..n][i] == results[i];
      }
    }
  }

  lemma {:induction false} NoResultErrors(v: Validators, results: seq<TaskResult>)
    ensures ResultErrors(v, results) == [] <==> forall i :: 0 <= i < |results| ==> v.result(results[i]) == []
  {
    if results != [] {
      NoResultErrors(v, results[..|results| - 1]);
    }
  }

  /** A TaskGroup is valid exactly when it has steps, every `uses` names a Task, and Tekton's validators
      find nothing wrong with its volumes, its params, the variables in its plain steps `s`, and each of
      its results. */
  lemma ValidExactly(v: Validators, spec: TaskGroupSpec, s: seq<Step>)
    requires |s| == |spec.steps| && forall i :: 0 <= i < |s| ==> s[i] == spec.steps[i].step
    ensures Valid(v, spec) <==>
      && |spec.steps| > 0
      && (forall i :: 0 <= i < |spec.steps| && spec.steps[i].uses.Some? ==> spec.steps[i].uses.value.taskRef != "")
      && v.volumes(spec.volumes) == [] && v.paramTypes(spec.params) == []
      && v.paramVariables(s, spec.params) == [] && v.resourceVariables(s) == []
      && (forall i :: 0 <= i < |spec.results| ==> v.result(spec.results[i]) == [])
  {
    UpstreamStepsAt(spec.steps);
    assert s == UpstreamSteps(spec.steps);
    NoResultErrors(v, spec.results);
  }
}
