/** The TaskGroup compiler (`TaskSpec`): inline every used Task, rewrite its steps, then merge the
    declarations. */
module Compiler {
  import opened Text
  import opened Substitution
  import opened Bindings
  import opened Types
  import opened Merging
  import opened Names

  /** `MergeStepsWithStepTemplate`, which belongs to Tekton: it may reject a template, and otherwise
      lays the template under each step on its own.  No template leaves the steps alone. */
  datatype Templating = Templating(accepts: Container -> bool, overlay: (Container, Step) -> Step)

  predicate Accepted(m: Templating, template: Option<Container>) {
    template.Some? ==> m.accepts(template.value)
  }

  function Overlaid(m: Templating, template: Option<Container>, s: Step): Step {
    match template
    case None => s
    case Some(c) => m.overlay(c, s)
  }

  method MergeStepsWithStepTemplate(m: Templating, template: Option<Container>, steps: seq<Step>)
    returns (merged: Option<seq<Step>>)
    ensures merged.Some? <==> Accepted(m, template)
    ensures merged.Some? ==> |merged.value| == |steps|
    ensures merged.Some? ==> forall j :: 0 <= j < |steps| ==> merged.value[j] == Overlaid(m, template, steps[j])
  {
    if template == None { return Some(steps); }
    if !m.accepts(template.value) { return None; }
    var out: seq<Step> := [];
    for i := 0 to |steps|
      invariant |out| == i
      invariant forall j :: 0 <= j < i ==> out[j] == Overlaid(m, template, steps[j])
    {
      out := out + [m.overlay(template.value, steps[i])];
    }
    merged := Some(out);
  }

  // ---- Rewriting a step ----

  /** One text after the replacer ran over it with some listing of the table. */
  ghost predicate TextReplaced(r: map<string, string>, t: string, t': string) {
    exists pairs :: Lists(pairs, r) && t' == Replace(t, pairs)
  }

  ghost predicate ListReplaced(r: map<string, string>, xs: seq<string>, ys: seq<string>) {
    |ys| == |xs| && forall i :: 0 <= i < |xs| ==> TextReplaced(r, xs[i], ys[i])
  }

  ghost predicate StepReplaced(r: map<string, string>, s: Step, s': Step) {
    && TextReplaced(r, s.name, s'.name)
    && TextReplaced(r, s.image, s'.image)
    && TextReplaced(r, s.script, s'.script)
    && ListReplaced(r, s.args, s'.args)
    && ListReplaced(r, s.command, s'.command)
    && |s'.env| == |s.env|
    && (forall i :: 0 <= i < |s.env| ==>
          s'.env[i].name == s.env[i].name && TextReplaced(r, s.env[i].value, s'.env[i].value))
    && ListReplaced(r, s.texts, s'.texts)
    && s'.other == s.other
  }

  /** The loop over args or command: an argument may become several, but only through an array. */
  method ReplaceArgs(args: seq<string>, r: map<string, string>, arrays: map<string, seq<string>>)
    returns (out: seq<string>)
    ensures arrays == map[] ==> ListReplaced(r, args, out)
    ensures CleanKeys(r) && Unambiguous(arrays) ==> out == EvalArgs(args, r, arrays)
  {
    out := [];
    for i := 0 to |args|
      invariant arrays == map[] ==> ListReplaced(r, args[..i], out)
      invariant CleanKeys(r) && Unambiguous(arrays) ==> out == EvalArgs(args[..i], r, arrays)
    {
      var a := ReplaceArg(args[i], r, arrays);
      if arrays == map[] {
        OneMoreReplaced(r, args, i, out, a[0]);
      }
      OneMoreArg(args, r, arrays, i);
      out := out + a;
    }
    assert args[..|args|] == args;
  }

  method ReplaceArg(t: string, r: map<string, string>, arrays: map<string, seq<string>>) returns (out: seq<string>)
    ensures arrays == map[] ==> |out| == 1 && TextReplaced(r, t, out[0])
    ensures CleanKeys(r) && Unambiguous(arrays) ==> out == EvalArg(t, r, arrays)
  {
    out := ApplyArrayReplacements(t, r, arrays);
  }

  lemma OneMoreReplaced(r: map<string, string>, xs: seq<string>, i: nat, done: seq<string>, t: string)
    requires i < |xs| && ListReplaced(r, xs[..i], done) && TextReplaced(r, xs[i], t)
    ensures ListReplaced(r, xs[..i + 1], done + [t])
  {
  }

  lemma OneMoreArg(args: seq<string>, r: map<string, string>, arrays: map<string, seq<string>>, i: nat)
    requires i < |args|
    ensures EvalArgs(args[..i + 1], r, arrays) == EvalArgs(args[..i], r, arrays) + EvalArg(args[i], r, arrays)
  {
    assert args[..i + 1][..i] == args[..i];
  }

  method ReplaceTexts(texts: seq<string>, r: map<string, string>) returns (out: seq<string>)
    ensures ListReplaced(r, texts, out)
  {
    out := [];
    for i := 0 to |texts|
      invariant ListReplaced(r, texts[..i], out)
    {
      var t := ApplyReplacements(texts[i], r);
      OneMoreReplaced(r, texts, i, out, t);
      out := out + [t];
    }
    assert texts[..|texts|] == texts;
  }

  method ReplaceEnv(vars: seq<EnvVar>, r: map<string, string>) returns (env: seq<EnvVar>)
    ensures |env| == |vars|
    ensures forall i :: 0 <= i < |vars| ==>
              env[i].name == vars[i].name && TextReplaced(r, vars[i].value, env[i].value)
  {
    env := [];
    for i := 0 to |vars|
      invariant |env| == i
      invariant forall j :: 0 <= j < i ==> env[j].name == vars[j].name && TextReplaced(r, vars[j].value, env[j].value)
    {
      var v := ApplyReplacements(vars[i].value, r);
      env := env + [EnvVar(vars[i].name, v)];
    }
  }

  /** `ApplyStepReplacements`, without arrays: every text of the step goes through the replacer on its own. */
  method ApplyStepReplacements(s: Step, r: map<string, string>) returns (s': Step)
    ensures StepReplaced(r, s, s')
  {
    var script := ApplyReplacements(s.script, r);
    var name := ApplyReplacements(s.name, r);
    var image := ApplyReplacements(s.image, r);
    var args := ReplaceArgs(s.args, r, map[]);
    var env := ReplaceEnv(s.env, r);
    var command := ReplaceArgs(s.command, r, map[]);
    var texts := ReplaceTexts(s.texts, r);
    s' := Step(name, image, script, args, command, env, texts, s.other);
  }

  /** The param pass, the workspace pass, and the prefix in front of the already rewritten name. */
  ghost predicate StepInlined(prefix: string, b: map<string, string>, wb: map<string, string>, s: Step, s': Step) {
    exists mid, r ::
      && StepReplaced(RefTable(Renaming(PARAM_FORMS, b)), s, mid)
      && StepReplaced(RefTable(Renaming(WORKSPACE_FORMS, wb)), mid, r)
      && s' == r.(name := prefix + "-" + r.name)
  }

  method InlineStep(prefix: string, b: map<string, string>, wb: map<string, string>, s: Step) returns (s': Step)
    ensures StepInlined(prefix, b, wb, s, s')
  {
    var params := ParamTable(b);
    var mid := ApplyStepReplacements(s, params);
    var workspaces := WorkspaceTable(wb);
    var r := ApplyStepReplacements(mid, workspaces);
    s' := r.(name := prefix + "-" + r.name);
  }

  const EMPTY_STEP := Step("", "", "", [], [], [], [], "")

  ghost predicate StepsInlined(prefix: string, b: map<string, string>, wb: map<string, string>, ss: seq<Step>,
                               out: seq<Step>) {
    |out| == |ss| && forall j :: 0 <= j < |ss| ==> StepInlined(prefix, b, wb, ss[j], out[j])
  }

  lemma OneMoreInlined(prefix: string, b: map<string, string>, wb: map<string, string>, ss: seq<Step>, i: nat,
                       done: seq<Step>, s': Step)
    requires i < |ss| && StepsInlined(prefix, b, wb, ss[..i], done) && StepInlined(prefix, b, wb, ss[i], s')
    ensures StepsInlined(prefix, b, wb, ss[..i + 1], done + [s'])
  {
  }

  /** `resolveSteps`: the steps of the used Task, rewritten one by one into a fresh slice. */
  method ResolveSteps(prefix: string, taskSpec: TaskSpec, b: map<string, string>, wb: map<string, string>)
    returns (steps: array<Step>)
    ensures fresh(steps)
    ensures StepsInlined(prefix, b, wb, taskSpec.steps, steps[..])
  {
    steps := new Step[|taskSpec.steps|](_ => EMPTY_STEP);
    ghost var done: seq<Step> := [];
    for i := 0 to steps.Length
      invariant steps[..i] == done && StepsInlined(prefix, b, wb, taskSpec.steps[..i], done)
    {
      var s := InlineStep(prefix, b, wb, taskSpec.steps[i]);
      OneMoreInlined(prefix, b, wb, taskSpec.steps, i, done, s);
      steps[i] := s;
      done := done + [s];
    }
    assert taskSpec.steps[..steps.Length] == taskSpec.steps && steps[..steps.Length] == steps[..];
  }

  // ---- What a used Task contributes ----

  /** The bindings as a map: the last binding of a name counts. */
  function BindingMap(bs: seq<Binding>): map<string, string> {
    if bs == [] then map[]
    else BindingMap(bs[..|bs| - 1])[bs[|bs| - 1].name := bs[|bs| - 1].target]
  }

  method CollectBindings(bs: seq<Binding>) returns (b: map<string, string>)
    ensures b == BindingMap(bs)
  {
    b := map[];
    for i := 0 to |bs|
      invariant b == BindingMap(bs[..i])
    {
      assert bs[..i + 1][..i] == bs[..i];
      b := b[bs[i].name := bs[i].target];
    }
    assert bs[..|bs|] == bs;
  }

  function Unbound<B>(ds: seq<Named<B>>, b: map<string, string>): seq<Named<B>> {
    if ds == [] then []
    else
      var d := ds[|ds| - 1];
      Unbound(ds[..|ds| - 1], b) + if d.name in b then [] else [d]
  }

  lemma {:induction false} UnboundExactly<B>(ds: seq<Named<B>>, b: map<string, string>, d: Named<B>)
    ensures d in Unbound(ds, b) <==> d in ds && d.name !in b
  {
    if ds != [] {
      UnboundExactly(ds[..|ds| - 1], b, d);
      assert ds == ds[..|ds| - 1] + [ds[|ds| - 1]];
    }
  }

  lemma {:induction false} UnboundByNothing<B>(ds: seq<Named<B>>)
    ensures Unbound(ds, map[]) == ds
  {
    if ds != [] {
      UnboundByNothing(ds[..|ds| - 1]);
      assert ds == ds[..|ds| - 1] + [ds[|ds| - 1]];
    }
  }

  method CollectUnbound<B>(ds: seq<Named<B>>, b: map<string, string>) returns (kept: seq<Named<B>>)
    ensures kept == Unbound(ds, b)
  {
    kept := [];
    for i := 0 to |ds|
      invariant kept == Unbound(ds[..i], b)
    {
      assert ds[..i + 1][..i] == ds[..i];
      if ds[i].name in b {
        continue;
      }
      kept := kept + [ds[i]];
    }
    assert ds[..|ds|] == ds;
  }

  /** The declarations of the used Tasks, collected over the steps before they are merged. */
  datatype Collected = Collected(params: seq<ParamSpec>, workspaces: seq<Workspace>, results: seq<TaskResult>,
                                 sidecars: seq<Sidecar>, volumes: seq<Volume>)

  function Add(c: Collected, uses: Uses, t: TaskSpec): Collected {
    Collected(c.params + Unbound(t.params, BindingMap(uses.paramBindings)),
              c.workspaces + Unbound(t.workspaces, BindingMap(uses.workspaceBindings)),
              c.results + t.results, c.sidecars + t.sidecars, c.volumes + t.volumes)
  }

  /** Collected over a prefix of the group's steps; a step stands at its own index. */
  function Collect(steps: seq<GroupStep>, used: map<int, TaskSpec>): Collected {
    if steps == [] then Collected([], [], [], [], [])
    else
      var i := |steps| - 1;
      var before := Collect(steps[..i], used);
      if steps[i].uses.Some? && i in used then Add(before, steps[i].uses.value, used[i]) else before
  }

  // ---- Errors ----

  datatype ResolveError = UsesNotFound(step: string) | TemplateRejected | Clashing(conflict: Conflict)

  function StepError(spec: TaskGroupSpec, used: map<int, TaskSpec>, m: Templating, i: nat): Option<ResolveError>
    requires i < |spec.steps|
  {
    var step := spec.steps[i];
    if step.uses.Some? && i !in used then Some(UsesNotFound(step.step.name))
    else if !Accepted(m, if step.uses.Some? then used[i].stepTemplate
        else spec.stepTemplate) then Some(TemplateRejected)
    else None
  }

  /** The error of the first step, from `i` on, that cannot be inlined. */
  function StepsError(spec: TaskGroupSpec, used: map<int, TaskSpec>, m: Templating, i: nat): Option<ResolveError>
    requires i <= |spec.steps|
    decreases |spec.steps| - i
  {
    if i == |spec.steps| then None
    else match StepError(spec, used, m, i)
      case Some(e) => Some(e)
      case None => StepsError(spec, used, m, i + 1)
  }

  function AsError(c: Option<Conflict>): Option<ResolveError> {
    match c
    case None => None
    case Some(conflict) => Some(Clashing(conflict))
  }

  /** The first conflict, in the order in which the mergers run. */
  function MergeError(spec: TaskGroupSpec, c: Collected): Option<ResolveError> {
    var params := FirstConflict(spec.params, c.params, ParamClash);
    var workspaces := FirstConflict(spec.workspaces, c.workspaces, WorkspaceClash);
    var results := FirstConflict(spec.results, c.results, ResultClash);
    var sidecars := FirstConflict(spec.sidecars, c.sidecars, SidecarClash);
    var volumes := FirstConflict(spec.volumes, c.volumes, VolumeClash);
    AsError(if params.Some? then params
            else if workspaces.Some? then workspaces
            else if results.Some? then results
            else if sidecars.Some? then sidecars
            else volumes)
  }

  function CompileError(spec: TaskGroupSpec, used: map<int, TaskSpec>, m: Templating): Option<ResolveError> {
    match StepsError(spec, used, m, 0)
    case Some(e) => Some(e)
    case None => MergeError(spec, Collect(spec.steps, used))
  }

  // ---- The compiled spec ----

  /** The prefix of the inlined names: the step's own name, or one made from its index. */
  function StepPrefix(spec: TaskGroupSpec, i: nat): string
    requires i < |spec.steps|
  {
    if spec.steps[i].step.name == "" then "unamed-" + Decimal(i) else spec.steps[i].step.name
  }

  /** The output steps that step `i` of the group gives rise to. */
  ghost predicate BlockFor(spec: TaskGroupSpec, used: map<int, TaskSpec>, m: Templating, i: nat, block: seq<Step>)
    requires i < |spec.steps|
  {
    match spec.steps[i].uses
    case None => block == [Overlaid(m, spec.stepTemplate, spec.steps[i].step)]
    case Some(uses) =>
      i in used && exists inlined ::
        && StepsInlined(StepPrefix(spec, i), BindingMap(uses.paramBindings), BindingMap(uses.workspaceBindings),
                        used[i].steps, inlined)
        && OverlaidAll(m, used[i].stepTemplate, inlined, block)
  }

  ghost predicate OverlaidAll(m: Templating, template: Option<Container>, steps: seq<Step>, block: seq<Step>) {
    |block| == |steps| && forall j :: 0 <= j < |steps| ==> block[j] == Overlaid(m, template, steps[j])
  }

  function Flatten<T>(blocks: seq<seq<T>>): seq<T> {
    if blocks == [] then [] else Flatten(blocks[..|blocks| - 1]) + blocks[|blocks| - 1]
  }

  /** The blocks of the first `n` steps, in order. */
  ghost predicate Blocks(spec: TaskGroupSpec, used: map<int, TaskSpec>, m: Templating, n: nat, blocks: seq<seq<Step>>) {
    && n <= |spec.steps|
    && |blocks| == n
    && forall i :: 0 <= i < n ==> BlockFor(spec, used, m, i, blocks[i])
  }

  /** The declarations of the output: the group's own, then the used ones it does not declare. */
  function Declared(spec: TaskGroupSpec, used: map<int, TaskSpec>, steps: seq<Step>): TaskSpec {
    var c := Collect(spec.steps, used);
    TaskSpec(spec.description, spec.params + Kept(spec.params, c.params), steps,
             spec.workspaces + Kept(spec.workspaces, c.workspaces), spec.results + Kept(spec.results, c.results),
             spec.sidecars + Kept(spec.sidecars, c.sidecars), spec.volumes + Kept(spec.volumes, c.volumes), None)
  }

  ghost predicate Compiled(spec: TaskGroupSpec, used: map<int, TaskSpec>, m: Templating, out: TaskSpec) {
    && out == Declared(spec, used, out.steps)
    && exists blocks :: Blocks(spec, used, m, |spec.steps|, blocks) && out.steps == Flatten(blocks)
  }

  /** The TaskSpec under construction. */
  class TaskSpecObject {
    var description: string
    var params: seq<ParamSpec>
    var steps: seq<Step>
    var workspaces: seq<Workspace>
    var results: seq<TaskResult>
    var sidecars: seq<Sidecar>
    var volumes: seq<Volume>

    function Value(): TaskSpec
      reads this
    {
      TaskSpec(description, params, steps, workspaces, results, sidecars, volumes, None)
    }

    constructor (spec: TaskGroupSpec)
      ensures Value() ==
                TaskSpec(spec.description, spec.params, [], spec.workspaces, spec.results, spec.sidecars,
                    spec.volumes, None)
    {
      description, params, steps, workspaces := spec.description, spec.params, [], spec.workspaces;
      results, sidecars, volumes := spec.results, spec.sidecars, spec.volumes;
    }

    method MergeParams(used: seq<ParamSpec>) returns (err: Option<Conflict>)
      modifies this`params
      ensures err == FirstConflict(old(params), used, ParamClash)
      ensures params == if err.None? then old(params) + Kept(old(params), used) else old(params)
    {
      var merged;
      merged, err := MergeNamed(params, used, ParamClash);
      if err.None? { params := merged; }
    }

    method MergeWorkspaces(used: seq<Workspace>) returns (err: Option<Conflict>)
      modifies this`workspaces
      ensures err == FirstConflict(old(workspaces), used, WorkspaceClash)
      ensures workspaces == if err.None? then old(workspaces) + Kept(old(workspaces), used) else old(workspaces)
    {
      var merged;
      merged, err := MergeNamed(workspaces, used, WorkspaceClash);
      if err.None? { workspaces := merged; }
    }

    method MergeResults(used: seq<TaskResult>) returns (err: Option<Conflict>)
      modifies this`results
      ensures err == FirstConflict(old(results), used, ResultClash)
      ensures results == if err.None? then old(results) + Kept(old(results), used) else old(results)
    {
      var merged;
      merged, err := MergeNamed(results, used, ResultClash);
      if err.None? { results := merged; }
    }

    method MergeSidecars(used: seq<Sidecar>) returns (err: Option<Conflict>)
      modifies this`sidecars
      ensures err == FirstConflict(old(sidecars), used, SidecarClash)
      ensures sidecars == if err.None? then old(sidecars) + Kept(old(sidecars), used) else old(sidecars)
    {
      var merged;
      merged, err := MergeNamed(sidecars, used, SidecarClash);
      if err.None? { sidecars := merged; }
    }

    method MergeVolumes(used: seq<Volume>) returns (err: Option<Conflict>)
      modifies this`volumes
      ensures err == FirstConflict(old(volumes), used, VolumeClash)
      ensures volumes == if err.None? then old(volumes) + Kept(old(volumes), used) else old(volumes)
    {
      var merged;
      merged, err := MergeNamed(volumes, used, VolumeClash);
      if err.None? { volumes := merged; }
    }

    /** The group's declarations, before anything is merged. */
    ghost predicate Unmerged(spec: TaskGroupSpec)
      reads this
    {
      && params == spec.params && workspaces == spec.workspaces && results == spec.results
      && sidecars == spec.sidecars && volumes == spec.volumes
    }

    /** The mergers in their order; the first conflict ends the run. */
    method MergeAll(spec: TaskGroupSpec, c: Collected) returns (err: Option<ResolveError>)
      requires Unmerged(spec)
      modifies this`params, this`workspaces, this`results, this`sidecars, this`volumes
      ensures err == MergeError(spec, c)
      ensures err.None? ==>
        && params == spec.params + Kept(spec.params, c.params)
        && workspaces == spec.workspaces + Kept(spec.workspaces, c.workspaces)
        && results == spec.results + Kept(spec.results, c.results)
        && sidecars == spec.sidecars + Kept(spec.sidecars, c.sidecars)
        && volumes == spec.volumes + Kept(spec.volumes, c.volumes)
    {
      var conflict := MergeParams(c.params);
      if conflict.Some? { return Some(Clashing(conflict.value)); }
      conflict := MergeWorkspaces(c.workspaces);
      if conflict.Some? { return Some(Clashing(conflict.value)); }
      conflict := MergeResults(c.results);
      if conflict.Some? { return Some(Clashing(conflict.value)); }
      conflict := MergeSidecars(c.sidecars);
      if conflict.Some? { return Some(Clashing(conflict.value)); }
      conflict := MergeVolumes(c.volumes);
      if conflict.Some? { return Some(Clashing(conflict.value)); }
      err := None;
    }
  }

  /** The body of the loop over the group's steps: the block of step `i` and what it contributes. */
  method InlineGroupStep(spec: TaskGroupSpec, used: map<int, TaskSpec>, m: Templating, i: nat, c: Collected)
    returns (block: seq<Step>, c': Collected, err: Option<ResolveError>)
    requires i < |spec.steps| && c == Collect(spec.steps[..i], used)
    ensures err == StepError(spec, used, m, i)
    ensures err.None? ==> BlockFor(spec, used, m, i, block) && c' == Collect(spec.steps[..i + 1], used)
  {
    block, c' := [], c;
    var step := spec.steps[i];
    assert spec.steps[..i + 1][..i] == spec.steps[..i];
    if step.uses.Some? {
      var uses := step.uses.value;
      if i !in used { return block, c', Some(UsesNotFound(step.step.name)); }
      var t := used[i];
      var b := CollectBindings(uses.paramBindings);
      var wb := CollectBindings(uses.workspaceBindings);
      var params := CollectUnbound(t.params, b);
      var workspaces := CollectUnbound(t.workspaces, wb);
      c' := Collected(c.params + params, c.workspaces + workspaces, c.results + t.results,
                      c.sidecars + t.sidecars, c.volumes + t.volumes);
      var prefix := if step.step.name == "" then "unamed-" + Decimal(i) else step.step.name;
      var inlined := ResolveSteps(prefix, t, b, wb);
      var merged := MergeStepsWithStepTemplate(m, t.stepTemplate, inlined[..]);
      if merged.None? { return block, c', Some(TemplateRejected); }
      block := merged.value;
      assert OverlaidAll(m, t.stepTemplate, inlined[..], block);
    } else {
      var merged := MergeStepsWithStepTemplate(m, spec.stepTemplate, [step.step]);
      if merged.None? { return block, c', Some(TemplateRejected); }
      block := merged.value;
    }
    err := None;
  }

  /** `TaskSpec`: inline the steps in order, then merge what was collected on the way. */
  method ResolveTaskSpec(spec: TaskGroupSpec, used: map<int, TaskSpec>, m: Templating)
    returns (out: TaskSpecObject, err: Option<ResolveError>)
    ensures fresh(out)
    ensures err == CompileError(spec, used, m)
    ensures err.None? ==> Compiled(spec, used, m, out.Value())
  {
    out := new TaskSpecObject(spec);
    var c := Collected([], [], [], [], []);
    ghost var blocks: seq<seq<Step>> := [];
    for i := 0 to |spec.steps|
      invariant fresh(out)
      invariant out.description == spec.description && out.Unmerged(spec)
      invariant c == Collect(spec.steps[..i], used)
      invariant Blocks(spec, used, m, i, blocks) && out.steps == Flatten(blocks)
      invariant StepsError(spec, used, m, 0) == StepsError(spec, used, m, i)
    {
      var block;
      block, c, err := InlineGroupStep(spec, used, m, i, c);
      if err.Some? { return; }
      out.steps := out.steps + block;
      assert (blocks + [block])[..i] == blocks;
      blocks := blocks + [block];
    }
    assert spec.steps[..|spec.steps|] == spec.steps;
    err := out.MergeAll(spec, c);
  }
}
