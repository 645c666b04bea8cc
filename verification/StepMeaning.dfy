/** What the compiled steps mean when the TaskRun is executed. */
module StepMeaning {
  import opened Text
  import opened Substitution
  import opened Bindings
  import opened Meaning
  import opened Arrays
  import opened Types
  import opened Names
  import opened Compiler
  import opened CompilerFacts

  /** `t'` under `r` says what `t` says under `c`. */
  ghost predicate TextMeans(t: string, c: map<string, string>, t': string, r: map<string, string>) {
    Eval(t', r) == Eval(t, c)
  }

  ghost predicate TextsMean(xs: seq<string>, c: map<string, string>, ys: seq<string>, r: map<string, string>) {
    |ys| == |xs| && forall i :: 0 <= i < |xs| ==> TextMeans(xs[i], c, ys[i], r)
  }

  /** The arguments a list stands for; arrays in it are expanded. */
  ghost function ArgValues(args: seq<string>, env: Environment): seq<string> {
    EvalArgs(args, RunTable(env), ArrayTable(env))
  }

  /** Everything of the step but its name: `s'` in the environment is `s` in the composed one. */
  ghost predicate StepMeans(s: Step, composed: Environment, s': Step, env: Environment) {
    && TextMeans(s.image, RunTable(composed), s'.image, RunTable(env))
    && TextMeans(s.script, RunTable(composed), s'.script, RunTable(env))
    && ArgValues(s'.args, env) == ArgValues(s.args, composed)
    && ArgValues(s'.command, env) == ArgValues(s.command, composed)
    && |s'.env| == |s.env|
    && (forall i :: 0 <= i < |s.env| ==> s'.env[i].name == s.env[i].name)
    && (forall i :: 0 <= i < |s.env| ==> TextMeans(s.env[i].value, RunTable(composed), s'.env[i].value, RunTable(env)))
    && TextsMean(s.texts, RunTable(composed), s'.texts, RunTable(env))
    && s'.other == s.other
  }

  /** Bound names the text refers to have texts as values, and it holds no legacy reference to a
      rebound param. */
  ghost predicate Meaningful(t: string, b: map<string, string>, wb: map<string, string>, h: Home, env: Environment) {
    Supplied(t, b, wb, h, env) && forall k :: k in References(t) ==> !Offends(k, b, h)
  }

  /** Bound names the argument refers to have values, and it is safe to rewrite. */
  ghost predicate MeaningfulArg(t: string, b: map<string, string>, wb: map<string, string>, h: Home, env: Environment) {
    ArgSupplied(t, b, wb, h, env) && ArgSafe(t, b, h)
  }

  ghost predicate MeaningfulStep(s: Step, b: map<string, string>, wb: map<string, string>, h: Home, env: Environment) {
    && Meaningful(s.image, b, wb, h, env) && Meaningful(s.script, b, wb, h, env)
    && (forall t :: t in s.args || t in s.command ==> MeaningfulArg(t, b, wb, h, env))
    && (forall e :: e in s.env ==> Meaningful(e.value, b, wb, h, env))
    && (forall t :: t in s.texts ==> Meaningful(t, b, wb, h, env))
  }

  lemma RewrittenTextMeans(t: string, b: map<string, string>, wb: map<string, string>, h: Home, env: Environment)
    requires CleanNames(b) && CleanNames(wb) && Meaningful(t, b, wb, h, env)
    ensures TextMeans(t, RunTable(Composed(env, b, wb, h)), Rewrite(t, b, wb), RunTable(env))
  {
    MeaningPreserved(t, b, wb, h, env);
  }

  lemma RewrittenArgMeans(t: string, b: map<string, string>, wb: map<string, string>, h: Home, env: Environment,
                          composed: Environment)
    requires PlainNames(b) && CleanNames(b) && CleanNames(wb) && PlainEnvironment(env)
    requires MeaningfulArg(t, b, wb, h, env) && composed == Composed(env, b, wb, h)
    ensures ArgValue(Rewrite(t, b, wb), env) == ArgValue(t, composed)
  {
    ArgMeaningPreserved(t, b, wb, h, env);
  }

  lemma RewrittenArgsMean(xs: seq<string>, ys: seq<string>, b: map<string, string>, wb: map<string, string>,
                          h: Home, env: Environment, composed: Environment)
    requires PlainNames(b) && CleanNames(b) && CleanNames(wb) && PlainEnvironment(env) &&
              composed == Composed(env, b, wb, h)
    requires ListRewritten(b, wb, xs, ys) && forall t :: t in xs ==> MeaningfulArg(t, b, wb, h, env)
    ensures ArgValues(ys, env) == ArgValues(xs, composed)
  {
    forall i | 0 <= i < |xs| ensures ArgValue(ys[i], env) == ArgValue(xs[i], composed) {
      RewrittenArgMeans(xs[i], b, wb, h, env, composed);
    }
    SameArgValues(xs, composed, ys, env);
  }

  lemma SameArgValues(xs: seq<string>, composed: Environment, ys: seq<string>, env: Environment)
    requires |xs| == |ys| && forall i :: 0 <= i < |xs| ==> ArgValue(ys[i], env) == ArgValue(xs[i], composed)
    ensures ArgValues(ys, env) == ArgValues(xs, composed)
  {
    SameArgs(xs, RunTable(composed), ArrayTable(composed), ys, RunTable(env), ArrayTable(env));
  }

  lemma RewrittenTextsMean(xs: seq<string>, ys: seq<string>, b: map<string, string>, wb: map<string, string>,
                           h: Home, env: Environment)
    requires CleanNames(b) && CleanNames(wb)
    requires ListRewritten(b, wb, xs, ys) && forall t :: t in xs ==> Meaningful(t, b, wb, h, env)
    ensures TextsMean(xs, RunTable(Composed(env, b, wb, h)), ys, RunTable(env))
  {
    forall i | 0 <= i < |xs| ensures TextMeans(xs[i], RunTable(Composed(env, b, wb, h)), ys[i], RunTable(env)) {
      RewrittenTextMeans(xs[i], b, wb, h, env);
    }
  }

  lemma RewrittenStepMeans(prefix: string, b: map<string, string>, wb: map<string, string>, s: Step, r: Step,
                           h: Home, env: Environment)
    requires PlainNames(b) && CleanNames(b) && CleanNames(wb) && PlainEnvironment(env)
    requires IsRewritten(prefix, b, wb, s, r) && MeaningfulStep(s, b, wb, h, env)
    ensures StepMeans(s, Composed(env, b, wb, h), r, env)
  {
    RewrittenTextMeans(s.image, b, wb, h, env);
    RewrittenTextMeans(s.script, b, wb, h, env);
    RewrittenArgsMean(s.args, r.args, b, wb, h, env, Composed(env, b, wb, h));
    RewrittenArgsMean(s.command, r.command, b, wb, h, env, Composed(env, b, wb, h));
    RewrittenTextsMean(s.texts, r.texts, b, wb, h, env);
    forall i | 0 <= i < |s.env|
      ensures TextMeans(s.env[i].value, RunTable(Composed(env, b, wb, h)), r.env[i].value, RunTable(env))
    {
      RewrittenTextMeans(s.env[i].value, b, wb, h, env);
    }
  }

  // ---- The used Task at home ----

  /** The container of the step at an index (`pod.StepName`). */
  function StepName(name: string, i: nat): string {
    "step-" + if name != "" then name else "unnamed-" + Decimal(i)
  }

  /** The containers that the steps of a used Task have in a TaskRun of the Task, and the ones they have in
      the TaskRun of the group.  A name that holds references is a different matter. */
  function HomeSteps(prefix: string, steps: seq<Step>): map<string, string> {
    if steps == [] then map[]
    else
      var i := |steps| - 1;
      var before := HomeSteps(prefix, steps[..i]);
      if IsClean(steps[i].name) then before[StepName(steps[i].name, i) := StepName(prefix + "-" + steps[i].name, i)]
      else before
  }

  /** The container of a step: its name, or its index if it has none, behind `step-`. */
  ghost predicate IsContainer(n: string, name: string, i: nat) {
    if name == "" then n == "step-unnamed-" + Decimal(i) else n == "step-" + name
  }

  lemma ContainerIs(n: string, name: string, i: nat)
    ensures IsContainer(n, name, i) <==> n == StepName(name, i)
  {
    assert "step-" + ("unnamed-" + Decimal(i)) == "step-unnamed-" + Decimal(i);
  }

  lemma RenamedIs(prefix: string, name: string, i: nat)
    ensures StepName(prefix + "-" + name, i) == "step-" + prefix + "-" + name
  {
    assert |prefix + "-" + name| > 0;
    assert "step-" + (prefix + "-" + name) == "step-" + prefix + "-" + name;
  }

  ghost predicate NamesContainer(steps: seq<Step>, j: int, n: string) {
    0 <= j < |steps| && IsClean(steps[j].name) && IsContainer(n, steps[j].name, j)
  }

  /** Step `j` is the last one with a plain name whose container is called `n`. */
  ghost predicate LastNames(steps: seq<Step>, j: int, n: string) {
    NamesContainer(steps, j, n) && forall l :: j < l < |steps| ==> !NamesContainer(steps, l, n)
  }

  lemma ContainersFront(steps: seq<Step>, n: string, i: nat)
    requires |steps| == i + 1
    ensures (exists j :: NamesContainer(steps, j, n)) <==>
            (exists j :: NamesContainer(steps[..i], j, n)) || NamesContainer(steps, i, n)
    ensures NamesContainer(steps, i, n) ==> forall j :: LastNames(steps, j, n) ==> j == i
    ensures !NamesContainer(steps, i, n) ==>
              forall j :: LastNames(steps, j, n) ==> LastNames(steps[..i], j, n) && steps[..i][j] == steps[j]
  {
    var front := steps[..i];
    assert forall j :: j != i ==> (NamesContainer(front, j, n) <==> NamesContainer(steps, j, n));
  }

  lemma HomeStepsLast(prefix: string, steps: seq<Step>, n: string, i: nat)
    requires |steps| == i + 1
    ensures NamesContainer(steps, i, n) ==>
              n in HomeSteps(prefix, steps) && HomeSteps(prefix, steps)[n] == "step-" + prefix + "-" + steps[i].name
    ensures !NamesContainer(steps, i, n) ==>
              (n in HomeSteps(prefix, steps) <==> n in HomeSteps(prefix, steps[..i]))
              && (n in HomeSteps(prefix, steps) ==>
                    HomeSteps(prefix, steps)[n] == HomeSteps(prefix, steps[..i])[n])
  {
    ContainerIs(n, steps[i].name, i);
    RenamedIs(prefix, steps[i].name, i);
  }

  /** The steps at home are the containers of all steps with plain names. */
  lemma {:induction false} HomeStepsExactly(prefix: string, steps: seq<Step>, n: string)
    ensures n in HomeSteps(prefix, steps) <==> exists j :: NamesContainer(steps, j, n)
  {
    if steps != [] {
      HomeStepsExactly(prefix, steps[..|steps| - 1], n);
      HomeStepsLast(prefix, steps, n, |steps| - 1);
      ContainersFront(steps, n, |steps| - 1);
    }
  }

  /** Each leads to the container of the renamed step; of several of one name the last counts. */
  lemma {:induction false} HomeStepLeads(prefix: string, steps: seq<Step>, n: string, j: nat)
    requires LastNames(steps, j, n)
    ensures n in HomeSteps(prefix, steps) && HomeSteps(prefix, steps)[n] == "step-" + prefix + "-" + steps[j].name
  {
    HomeStepsLast(prefix, steps, n, |steps| - 1);
    ContainersFront(steps, n, |steps| - 1);
    if j < |steps| - 1 {
      HomeStepLeads(prefix, steps[..|steps| - 1], n, j);
    }
  }

  /** A used Task speaks of its own steps; what else it means by its references, such as itself by
      `context.task.name` or its resources, is up to `h`. */
  ghost predicate IsHome(spec: TaskGroupSpec, used: map<int, TaskSpec>, i: nat, h: Home) {
    && i < |spec.steps| && spec.steps[i].uses.Some? && i in used
    && h.steps == HomeSteps(StepPrefix(spec, i), used[i].steps)
  }

  /** Every container of a used Task is called differently in the TaskRun of the group. */
  lemma {:induction false} HomeLeadsAway(prefix: string, steps: seq<Step>, n: string)
    requires n in HomeSteps(prefix, steps)
    ensures HomeSteps(prefix, steps)[n] != n
  {
    var i := |steps| - 1;
    if IsClean(steps[i].name) && n == StepName(steps[i].name, i) {
      RenamedContainer(prefix, steps[i].name, i);
    } else {
      HomeLeadsAway(prefix, steps[..i], n);
    }
  }

  lemma RenamedContainer(prefix: string, name: string, i: nat)
    ensures StepName(prefix + "-" + name, i) != StepName(name, i)
  {
    var s, s' := StepName(name, i), StepName(prefix + "-" + name, i);
    if name != "" {
      assert |s'| > |s|;
    } else {
      NoDash(i);
      assert s'[|s'| - 1] == '-';
      assert s[|s| - 1] == Decimal(i)[|Decimal(i)| - 1];
    }
  }

  /** An inlined step does in the TaskRun what it would do in a TaskRun of the used Task given the bound
      values, array arguments included, as long as it is meaningful: the output holds it under the used
      Task's template, which leaves the fields it sets alone. */
  lemma CompiledMeaning(spec: TaskGroupSpec, used: map<int, TaskSpec>, m: Templating, out: TaskSpec, i: nat, j: nat,
                        env: Environment, b: map<string, string>, wb: map<string, string>, h: Home)
    returns (r: Step)
    requires StepFieldsWin(m) && CleanSpec(spec) && Compiled(spec, used, m, out) && Inlines(spec, used, i, j)
    requires b == ParamBindings(spec.steps[i]) && wb == WorkspaceBindings(spec.steps[i]) && IsHome(spec, used, i, h)
    requires PlainNames(b) && PlainEnvironment(env) && MeaningfulStep(used[i].steps[j], b, wb, h, env)
    ensures StepMeans(used[i].steps[j], Composed(env, b, wb, h), r, env)
    ensures Offset(spec, used, i) + j < |out.steps|
    ensures out.steps[Offset(spec, used, i) + j] == Overlaid(m, used[i].stepTemplate, r)
    ensures FieldsKept(r, out.steps[Offset(spec, used, i) + j])
  {
    r := InlinedStep(spec, used, m, out, i, j);
    OverlayKeeps(m, used[i].stepTemplate, r);
    assert CleanStep(spec.steps[i]);
    RewrittenStepMeans(StepPrefix(spec, i), b, wb, used[i].steps[j], r, h, env);
  }

  // ---- References to the steps of the Task itself ----

  /** What Tekton replaces references to exit codes by (`ApplyStepExitCodePath`). */
  function ExitPaths(steps: seq<Step>): map<string, string> {
    if steps == [] then map[]
    else
      var i := |steps| - 1;
      var c := StepName(steps[i].name, i);
      ExitPaths(steps[..i])[c := ExitPath(c)]
  }

  lemma {:induction false} ExitPathsIn(steps: seq<Step>, c: string)
    ensures c in ExitPaths(steps) <==> exists p :: 0 <= p < |steps| && c == StepName(steps[p].name, p)
    ensures c in ExitPaths(steps) ==> ExitPaths(steps)[c] == ExitPath(c)
  {
    if steps != [] {
      ExitPathsIn(steps[..|steps| - 1], c);
    }
  }

  /** There is a file for the container of every step. */
  lemma ExitPathsExactly(steps: seq<Step>, c: string)
    ensures c in ExitPaths(steps) <==> exists p :: 0 <= p < |steps| && IsContainer(c, steps[p].name, p)
    ensures c in ExitPaths(steps) ==> ExitPaths(steps)[c] == "/tekton/steps/" + c + "/exitCode"
  {
    ExitPathsIn(steps, c);
    forall p | 0 <= p < |steps| ensures IsContainer(c, steps[p].name, p) <==> c == StepName(steps[p].name, p) {
      ContainerIs(c, steps[p].name, p);
    }
  }

  lemma {:induction false} HomeStepAt(prefix: string, steps: seq<Step>, n: string) returns (j: nat)
    requires n in HomeSteps(prefix, steps)
    ensures j < |steps| && IsClean(steps[j].name) && n == StepName(steps[j].name, j)
    ensures HomeSteps(prefix, steps)[n] == StepName(prefix + "-" + steps[j].name, j)
  {
    j := |steps| - 1;
    if !(IsClean(steps[j].name) && n == StepName(steps[j].name, j)) {
      j := HomeStepAt(prefix, steps[..|steps| - 1], n);
    }
  }

  lemma {:induction false} EvalClean(t: string, r: map<string, string>)
    requires IsClean(t)
    ensures Eval(t, r) == t
  {
    if t != "" {
      assert t[0] != '$';
      EvalNonRef(t, r);
      EvalClean(t[1..], r);
    }
  }

  lemma CleanNameStays(t: string, b: map<string, string>, wb: map<string, string>)
    requires IsClean(t)
    ensures Rewrite(t, b, wb) == t
  {
    EvalClean(t, RefTable(Renaming(PARAM_FORMS, b)));
    EvalClean(t, RefTable(Renaming(WORKSPACE_FORMS, wb)));
  }

  /** The containers the steps of a used Task get are containers of the output. */
  lemma HomeStepsThere(spec: TaskGroupSpec, used: map<int, TaskSpec>, m: Templating, out: TaskSpec, i: nat, h: Home,
                       n: string)
    requires StepFieldsWin(m) && CleanSpec(spec) && Compiled(spec, used, m, out)
    requires IsHome(spec, used, i, h) && n in h.steps
    ensures h.steps[n] in ExitPaths(out.steps)
  {
    var j := HomeStepAt(StepPrefix(spec, i), used[i].steps, n);
    CompiledName(spec, used, m, out, i, j);
    CleanNameStays(used[i].steps[j].name, ParamBindings(spec.steps[i]), WorkspaceBindings(spec.steps[i]));
    var p := Offset(spec, used, i) + j;
    assert StepName(out.steps[p].name, p) == h.steps[n];
    ExitPathsIn(out.steps, h.steps[n]);
  }

  predicate NoSlash(names: map<string, string>) {
    forall n :: n in names ==> '/' !in n && '/' !in names[n]
  }

  /** When params and workspaces a text refers to have values, the compiler sees to the steps. */
  lemma StepsSupplied(spec: TaskGroupSpec, used: map<int, TaskSpec>, m: Templating, out: TaskSpec, i: nat, h: Home,
                      t: string, b: map<string, string>, wb: map<string, string>, env: Environment)
    requires StepFieldsWin(m) && CleanSpec(spec) && Compiled(spec, used, m, out)
    requires IsHome(spec, used, i, h) && env.steps == ExitPaths(out.steps)
    requires Supplied(t, b, wb, Home(map[], map[]), env)
    ensures Supplied(t, b, wb, h, env)
  {
    forall n | n in h.steps ensures h.steps[n] in env.steps {
      HomeStepsThere(spec, used, m, out, i, h, n);
    }
    SuppliedWithSteps(t, b, wb, h, env);
  }

  lemma SuppliedWithSteps(t: string, b: map<string, string>, wb: map<string, string>, h: Home, env: Environment)
    requires Supplied(t, b, wb, Home(map[], map[]), env) && forall n :: n in h.steps ==> h.steps[n] in env.steps
    ensures Supplied(t, b, wb, h, env)
  {
    forall k | k in References(t) ensures KeySupplied(k, b, wb, h, env) {
      assert KeySupplied(k, b, wb, Home(map[], map[]), env);
    }
  }

  /** The prefix changes the name of every step of a used Task: a text in which a Task refers to the exit
      code of a step of its own never means in the TaskRun of the group what the Task means by it. */
  lemma OwnStepReferenceLost(spec: TaskGroupSpec, used: map<int, TaskSpec>, m: Templating, out: TaskSpec, i: nat,
                             h: Home,
                             t: string, b: map<string, string>, wb: map<string, string>, env: Environment, n: string)
    requires StepFieldsWin(m) && CleanSpec(spec) && Compiled(spec, used, m, out)
    requires IsHome(spec, used, i, h) && env.steps == ExitPaths(out.steps)
    requires b == ParamBindings(spec.steps[i]) && wb == WorkspaceBindings(spec.steps[i])
    requires Supplied(t, b, wb, Home(map[], map[]), env) && NoSlash(h.steps)
    requires forall k :: k in References(t) && Offends(k, b, h) ==> StepOffends(k, h)
    requires n in h.steps && KeyOf(ExitCode, n) in References(t)
    ensures !SameMeaning(t, b, wb, h, env)
  {
    assert CleanStep(spec.steps[i]);
    StepsSupplied(spec, used, m, out, i, h, t, b, wb, env);
    HomeLeadsAway(StepPrefix(spec, i), used[i].steps, n);
    ReadExact(KeyOf(ExitCode, n), ExitCode, n);
    forall c | c in env.steps ensures env.steps[c] == ExitPath(c) {
      ExitPathsIn(out.steps, c);
    }
    ExitCodeAlwaysLost(t, b, wb, h, env, KeyOf(ExitCode, n));
  }
}
