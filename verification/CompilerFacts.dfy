/** What the compiler guarantees about every TaskGroup it accepts. */
module CompilerFacts {
  import opened Text
  import opened Substitution
  import opened Bindings
  import opened Meaning
  import opened Types
  import opened Merging
  import opened Names
  import opened Compiler

  // ---- Steps that cannot be inlined ----

  ghost predicate AllUsesSupplied(spec: TaskGroupSpec, used: map<int, TaskSpec>) {
    forall i :: 0 <= i < |spec.steps| && spec.steps[i].uses.Some? ==> i in used
  }

  lemma {:induction false} StepsErrorExactly(spec: TaskGroupSpec, used: map<int, TaskSpec>, m: Templating, i: nat)
    requires i <= |spec.steps|
    ensures StepsError(spec, used, m, i).None? <==>
              forall j :: i <= j < |spec.steps| ==> StepError(spec, used, m, j).None?
    decreases |spec.steps| - i
  {
    if i < |spec.steps| {
      StepsErrorExactly(spec, used, m, i + 1);
    }
  }

  /** The error is the first step's that cannot be inlined; conflicts come after all steps. */
  lemma {:induction false} FirstStepFails(spec: TaskGroupSpec, used: map<int, TaskSpec>, m: Templating, i: nat, j: nat)
    requires i <= j < |spec.steps| && StepError(spec, used, m, j).Some?
    requires forall l :: i <= l < j ==> StepError(spec, used, m, l).None?
    ensures StepsError(spec, used, m, i) == StepError(spec, used, m, j)
    decreases j - i
  {
    if i < j {
      FirstStepFails(spec, used, m, i + 1, j);
    }
  }

  // ---- What the output steps are ----

  /** The names bound by any step cannot be confused with reference syntax. */
  ghost predicate CleanSpec(spec: TaskGroupSpec) {
    forall i {:trigger spec.steps[i]} :: 0 <= i < |spec.steps| ==> CleanStep(spec.steps[i])
  }

  ghost predicate CleanStep(step: GroupStep) {
    step.uses.Some? ==>
      CleanNames(BindingMap(step.uses.value.paramBindings)) && CleanNames(BindingMap(step.uses.value.workspaceBindings))
  }

  /** How many output steps step `i` gives rise to. */
  function Width(spec: TaskGroupSpec, used: map<int, TaskSpec>, i: nat): nat
    requires i < |spec.steps|
  {
    if spec.steps[i].uses.None? then 1 else if i in used then |used[i].steps| else 0
  }

  /** Where the output steps of step `n` begin. */
  function Offset(spec: TaskGroupSpec, used: map<int, TaskSpec>, n: nat): nat
    requires n <= |spec.steps|
  {
    if n == 0 then 0 else Offset(spec, used, n - 1) + Width(spec, used, n - 1)
  }

  ghost predicate ListRewritten(b: map<string, string>, wb: map<string, string>, xs: seq<string>, ys: seq<string>) {
    |ys| == |xs| && forall i :: 0 <= i < |xs| ==> ys[i] == Rewrite(xs[i], b, wb)
  }

  /** Every text of a used step but its name is rewritten; the name is rewritten and prefixed. */
  ghost predicate IsRewritten(prefix: string, b: map<string, string>, wb: map<string, string>, s: Step, s': Step) {
    && s'.name == prefix + "-" + Rewrite(s.name, b, wb)
    && s'.image == Rewrite(s.image, b, wb)
    && s'.script == Rewrite(s.script, b, wb)
    && ListRewritten(b, wb, s.args, s'.args)
    && ListRewritten(b, wb, s.command, s'.command)
    && |s'.env| == |s.env|
    && (forall i :: 0 <= i < |s.env| ==> s'.env[i] == EnvVar(s.env[i].name, Rewrite(s.env[i].value, b, wb)))
    && ListRewritten(b, wb, s.texts, s'.texts)
    && s'.other == s.other
  }

  lemma RewrittenUniquely(prefix: string, b: map<string, string>, wb: map<string, string>, s: Step, x: Step, y: Step)
    requires IsRewritten(prefix, b, wb, s, x) && IsRewritten(prefix, b, wb, s, y)
    ensures x == y
  {
    assert x.args == y.args && x.command == y.command && x.env == y.env && x.texts == y.texts;
  }

  /** Output step `j` of step `i`, before anything is said about how it came about. */
  ghost predicate OutputStep(spec: TaskGroupSpec, used: map<int, TaskSpec>, m: Templating, i: nat, j: nat, s: Step)
    requires i < |spec.steps| && j < Width(spec, used, i)
  {
    match spec.steps[i].uses
    case None => s == Overlaid(m, spec.stepTemplate, spec.steps[i].step)
    case Some(uses) => exists r ::
      && IsRewritten(StepPrefix(spec, i), BindingMap(uses.paramBindings), BindingMap(uses.workspaceBindings),
          used[i].steps[j], r)
      && s == Overlaid(m, used[i].stepTemplate, r)
  }

  lemma TextIsRewritten(b: map<string, string>, wb: map<string, string>, t: string, mid: string, t': string)
    requires CleanNames(b) && CleanNames(wb)
    requires TextReplaced(RefTable(Renaming(PARAM_FORMS, b)), t, mid)
    requires TextReplaced(RefTable(Renaming(WORKSPACE_FORMS, wb)), mid, t')
    ensures t' == Rewrite(t, b, wb)
  {
    ReplacedIsEval(PARAM_FORMS, b, t, mid);
    ReplacedIsEval(WORKSPACE_FORMS, wb, mid, t');
  }

  lemma ReplacedIsEval(forms: set<Form>, b: map<string, string>, t: string, t': string)
    requires CleanNames(b) && TextReplaced(RefTable(Renaming(forms, b)), t, t')
    ensures t' == Eval(t, RefTable(Renaming(forms, b)))
  {
    var r := RefTable(Renaming(forms, b));
    assert CleanKeys(r) by { RenamingKeysClean(forms, b); }
    var pairs :| Lists(pairs, r) && t' == Replace(t, pairs);
    ReplaceIsEval(t, pairs, r);
  }

  lemma RenamingKeysClean(forms: set<Form>, b: map<string, string>)
    requires CleanNames(b)
    ensures CleanKeys(RefTable(Renaming(forms, b)))
  {
    RenamingIsClean(forms, b);
    var ren := Renaming(forms, b);
    forall k | k in RefTable(ren) ensures IsClean(k) {
      assert IsClean(ren[k]);
    }
  }

  lemma ListIsRewritten(b: map<string, string>, wb: map<string, string>, xs: seq<string>, mids: seq<string>,
                        ys: seq<string>)
    requires CleanNames(b) && CleanNames(wb)
    requires ListReplaced(RefTable(Renaming(PARAM_FORMS, b)), xs, mids)
    requires ListReplaced(RefTable(Renaming(WORKSPACE_FORMS, wb)), mids, ys)
    ensures ListRewritten(b, wb, xs, ys)
  {
    forall i | 0 <= i < |xs| ensures ys[i] == Rewrite(xs[i], b, wb) {
      TextIsRewritten(b, wb, xs[i], mids[i], ys[i]);
    }
  }

  lemma StepIsRewritten(prefix: string, b: map<string, string>, wb: map<string, string>, s: Step, s': Step)
    requires CleanNames(b) && CleanNames(wb) && StepInlined(prefix, b, wb, s, s')
    ensures IsRewritten(prefix, b, wb, s, s')
  {
    var P, W := RefTable(Renaming(PARAM_FORMS, b)), RefTable(Renaming(WORKSPACE_FORMS, wb));
    var mid, r :| StepReplaced(P, s, mid) && StepReplaced(W, mid, r) && s' == r.(name := prefix + "-" + r.name);
    TextIsRewritten(b, wb, s.name, mid.name, r.name);
    TextIsRewritten(b, wb, s.image, mid.image, r.image);
    TextIsRewritten(b, wb, s.script, mid.script, r.script);
    ListIsRewritten(b, wb, s.args, mid.args, r.args);
    ListIsRewritten(b, wb, s.command, mid.command, r.command);
    ListIsRewritten(b, wb, s.texts, mid.texts, r.texts);
    forall i | 0 <= i < |s.env| ensures r.env[i] == EnvVar(s.env[i].name, Rewrite(s.env[i].value, b, wb)) {
      TextIsRewritten(b, wb, s.env[i].value, mid.env[i].value, r.env[i].value);
    }
  }

  lemma BlockOutput(spec: TaskGroupSpec, used: map<int, TaskSpec>, m: Templating, i: nat, block: seq<Step>, j: nat)
    requires i < |spec.steps| && CleanSpec(spec) && BlockFor(spec, used, m, i, block)
    ensures |block| == Width(spec, used, i)
    ensures j < |block| ==> OutputStep(spec, used, m, i, j, block[j])
  {
    if spec.steps[i].uses.Some? {
      var uses := spec.steps[i].uses.value;
      var b, wb := BindingMap(uses.paramBindings), BindingMap(uses.workspaceBindings);
      var inlined :| StepsInlined(StepPrefix(spec, i), b, wb, used[i].steps, inlined)
        && OverlaidAll(m, used[i].stepTemplate, inlined, block);
      if j < |block| {
        assert CleanStep(spec.steps[i]);
        StepIsRewritten(StepPrefix(spec, i), b, wb, used[i].steps[j], inlined[j]);
      }
    }
  }

  ghost predicate Fits(spec: TaskGroupSpec, used: map<int, TaskSpec>, blocks: seq<seq<Step>>) {
    |blocks| <= |spec.steps| && forall i :: 0 <= i < |blocks| ==> |blocks[i]| == Width(spec, used, i)
  }

  lemma {:induction false} FlattenLength(spec: TaskGroupSpec, used: map<int, TaskSpec>, blocks: seq<seq<Step>>)
    requires Fits(spec, used, blocks)
    ensures |Flatten(blocks)| == Offset(spec, used, |blocks|)
  {
    if blocks != [] {
      FlattenLength(spec, used, blocks[..|blocks| - 1]);
    }
  }

  lemma {:induction false} FlattenAt(spec: TaskGroupSpec, used: map<int, TaskSpec>, blocks: seq<seq<Step>>, i: nat,
                                     j: nat)
    requires Fits(spec, used, blocks) && i < |blocks| && j < |blocks[i]|
    ensures Offset(spec, used, i) + j < |Flatten(blocks)|
    ensures Flatten(blocks)[Offset(spec, used, i) + j] == blocks[i][j]
  {
    var front := blocks[..|blocks| - 1];
    FlattenLength(spec, used, front);
    if i < |front| {
      FlattenAt(spec, used, front, i, j);
    }
  }

  lemma BlocksFit(spec: TaskGroupSpec, used: map<int, TaskSpec>, m: Templating, blocks: seq<seq<Step>>)
    requires CleanSpec(spec) && Blocks(spec, used, m, |spec.steps|, blocks)
    ensures Fits(spec, used, blocks)
  {
    forall i | 0 <= i < |blocks| ensures |blocks[i]| == Width(spec, used, i) {
      BlockOutput(spec, used, m, i, blocks[i], 0);
    }
  }

  /** The output steps are exactly the inlined steps in order: there are as many as the steps inline
      to, and each is the rewritten used step, or the group's own step, under its template. */
  lemma OutputSteps(spec: TaskGroupSpec, used: map<int, TaskSpec>, m: Templating, out: TaskSpec, i: nat, j: nat)
    requires CleanSpec(spec) && Compiled(spec, used, m, out)
    ensures |out.steps| == Offset(spec, used, |spec.steps|)
    ensures i < |spec.steps| && j < Width(spec, used, i) ==>
              Offset(spec, used, i) + j < |out.steps| &&
                  OutputStep(spec, used, m, i, j, out.steps[Offset(spec, used, i) + j])
  {
    var blocks :| Blocks(spec, used, m, |spec.steps|, blocks) && out.steps == Flatten(blocks);
    BlocksFit(spec, used, m, blocks);
    FlattenLength(spec, used, blocks);
    if i < |spec.steps| && j < Width(spec, used, i) {
      FlattenAt(spec, used, blocks, i, j);
      BlockOutput(spec, used, m, i, blocks[i], j);
    }
  }

  /** Every output position belongs to one step of the group. */
  lemma {:induction false} PositionOf(spec: TaskGroupSpec, used: map<int, TaskSpec>, n: nat, p: nat)
    returns (i: nat, j: nat)
    requires n <= |spec.steps| && p < Offset(spec, used, n)
    ensures i < n && j < Width(spec, used, i) && p == Offset(spec, used, i) + j
  {
    if p >= Offset(spec, used, n - 1) {
      i, j := n - 1, p - Offset(spec, used, n - 1);
    } else {
      i, j := PositionOf(spec, used, n - 1, p);
    }
  }

  lemma OutputStepUnique(spec: TaskGroupSpec, used: map<int, TaskSpec>, m: Templating, i: nat, j: nat, x: Step, y: Step)
    requires i < |spec.steps| && j < Width(spec, used, i)
    requires OutputStep(spec, used, m, i, j, x) && OutputStep(spec, used, m, i, j, y)
    ensures x == y
  {
    if spec.steps[i].uses.Some? {
      var uses := spec.steps[i].uses.value;
      var prefix, b, wb := StepPrefix(spec, i), BindingMap(uses.paramBindings), BindingMap(uses.workspaceBindings);
      var r :| IsRewritten(prefix, b, wb, used[i].steps[j], r) && x == Overlaid(m, used[i].stepTemplate, r);
      var r' :| IsRewritten(prefix, b, wb, used[i].steps[j], r') && y == Overlaid(m, used[i].stepTemplate, r');
      RewrittenUniquely(prefix, b, wb, used[i].steps[j], r, r');
    }
  }

  lemma SameAt(spec: TaskGroupSpec, used: map<int, TaskSpec>, m: Templating, out: TaskSpec, out': TaskSpec, p: nat)
    requires CleanSpec(spec) && Compiled(spec, used, m, out) && Compiled(spec, used, m, out')
    requires p < |out.steps| && p < |out'.steps|
    ensures out.steps[p] == out'.steps[p]
  {
    OutputSteps(spec, used, m, out, 0, 0);
    var i, j := PositionOf(spec, used, |spec.steps|, p);
    OutputSteps(spec, used, m, out, i, j);
    OutputSteps(spec, used, m, out', i, j);
    OutputStepUnique(spec, used, m, i, j, out.steps[p], out'.steps[p]);
  }

  /** The result does not depend on the order in which Go iterates its maps. */
  lemma CompiledUniquely(spec: TaskGroupSpec, used: map<int, TaskSpec>, m: Templating, out: TaskSpec, out': TaskSpec)
    requires CleanSpec(spec) && Compiled(spec, used, m, out) && Compiled(spec, used, m, out')
    ensures out == out'
  {
    OutputSteps(spec, used, m, out, 0, 0);
    OutputSteps(spec, used, m, out', 0, 0);
    forall p | 0 <= p < |out.steps| ensures out.steps[p] == out'.steps[p] {
      SameAt(spec, used, m, out, out', p);
    }
    assert out.steps == out'.steps;
  }

  // ---- Inlined steps ----

  /** What Tekton's template merge promises: fields set on the step win, the script is the step's,
      and every text comes from the step or from the template. */
  ghost predicate StepFieldsWin(m: Templating) {
    forall c, s ::
      && m.overlay(c, s).script == s.script
      && (s.name != "" ==> m.overlay(c, s).name == s.name)
      && (s.image != "" ==> m.overlay(c, s).image == s.image)
      && (s.args != [] ==> m.overlay(c, s).args == s.args)
      && (s.command != [] ==> m.overlay(c, s).command == s.command)
      && (forall t :: t in StepTexts(m.overlay(c, s)) ==> t in StepTexts(s) || t in ContainerTexts(c))
  }

  ghost function Members(xs: seq<string>): set<string> {
    set x | x in xs
  }

  ghost function EnvTexts(vars: seq<EnvVar>): set<string> {
    set e | e in vars :: e.value
  }

  ghost function StepTexts(s: Step): set<string> {
    {s.image, s.script} + Members(s.args) + Members(s.command) + EnvTexts(s.env) + Members(s.texts)
  }

  ghost function ContainerTexts(c: Container): set<string> {
    {c.image, ""} + Members(c.args) + Members(c.command) + EnvTexts(c.env) + Members(c.texts)
  }

  /** Step `j` of the Task used by step `i`. */
  predicate Inlines(spec: TaskGroupSpec, used: map<int, TaskSpec>, i: nat, j: nat) {
    i < |spec.steps| && spec.steps[i].uses.Some? && i in used && j < |used[i].steps|
  }

  function ParamBindings(step: GroupStep): map<string, string> {
    if step.uses.Some? then BindingMap(step.uses.value.paramBindings) else map[]
  }

  function WorkspaceBindings(step: GroupStep): map<string, string> {
    if step.uses.Some? then BindingMap(step.uses.value.workspaceBindings) else map[]
  }

  lemma InlinedStep(spec: TaskGroupSpec, used: map<int, TaskSpec>, m: Templating, out: TaskSpec, i: nat, j: nat)
    returns (r: Step)
    requires CleanSpec(spec) && Compiled(spec, used, m, out) && Inlines(spec, used, i, j)
    ensures IsRewritten(StepPrefix(spec, i), ParamBindings(spec.steps[i]), WorkspaceBindings(spec.steps[i]),
              used[i].steps[j], r)
    ensures Offset(spec, used, i) + j < |out.steps|
    ensures out.steps[Offset(spec, used, i) + j] == Overlaid(m, used[i].stepTemplate, r)
  {
    OutputSteps(spec, used, m, out, i, j);
    var s := out.steps[Offset(spec, used, i) + j];
    assert OutputStep(spec, used, m, i, j, s);
    r :| && IsRewritten(StepPrefix(spec, i), ParamBindings(spec.steps[i]), WorkspaceBindings(spec.steps[i]),
        used[i].steps[j], r)
         && s == Overlaid(m, used[i].stepTemplate, r);
  }

  /** The fields a step sets are as the step sets them. */
  ghost predicate FieldsKept(r: Step, s: Step) {
    && s.script == r.script
    && (r.name != "" ==> s.name == r.name)
    && (r.image != "" ==> s.image == r.image)
    && (r.args != [] ==> s.args == r.args)
    && (r.command != [] ==> s.command == r.command)
  }

  lemma OverlayKeeps(m: Templating, template: Option<Container>, r: Step)
    requires StepFieldsWin(m)
    ensures FieldsKept(r, Overlaid(m, template, r))
    ensures forall t :: t in StepTexts(Overlaid(m, template, r)) ==>
              t in StepTexts(r) || (template.Some? && t in ContainerTexts(template.value))
  {
  }

  /** The name of an inlined step: the prefix, a dash, and the rewritten name of the used step. */
  lemma CompiledName(spec: TaskGroupSpec, used: map<int, TaskSpec>, m: Templating, out: TaskSpec, i: nat, j: nat)
    requires StepFieldsWin(m) && CleanSpec(spec) && Compiled(spec, used, m, out) && Inlines(spec, used, i, j)
    ensures Offset(spec, used, i) + j < |out.steps|
    ensures out.steps[Offset(spec, used, i) + j].name == StepPrefix(spec, i) + "-" +
            Rewrite(used[i].steps[j].name, ParamBindings(spec.steps[i]), WorkspaceBindings(spec.steps[i]))
  {
    var r := InlinedStep(spec, used, m, out, i, j);
    OverlayKeeps(m, used[i].stepTemplate, r);
  }
}
