/** When compiled steps have the same name. */
module StepNames {
  import opened Text
  import opened Bindings
  import opened Meaning
  import opened Types
  import opened Names
  import opened Compiler
  import opened CompilerFacts
  import opened Declarations
  import opened Existence

  /** Two unnamed `uses` steps never produce the same step name, whatever the used Tasks call theirs. */
  lemma UnnamedStepsApart(spec: TaskGroupSpec, used: map<int, TaskSpec>, m: Templating, out: TaskSpec,
                          i: nat, j: nat, i': nat, j': nat)
    requires StepFieldsWin(m) && CleanSpec(spec) && Compiled(spec, used, m, out)
    requires Inlines(spec, used, i, j) && Inlines(spec, used, i', j') && i != i'
    requires spec.steps[i].step.name == "" && spec.steps[i'].step.name == ""
    ensures Offset(spec, used, i) + j < |out.steps| && Offset(spec, used, i') + j' < |out.steps|
    ensures out.steps[Offset(spec, used, i) + j].name != out.steps[Offset(spec, used, i') + j'].name
  {
    CompiledName(spec, used, m, out, i, j);
    CompiledName(spec, used, m, out, i', j');
    NumberedNamesApart(i, i',
      Rewrite(used[i].steps[j].name, ParamBindings(spec.steps[i]), WorkspaceBindings(spec.steps[i])),
      Rewrite(used[i'].steps[j'].name, ParamBindings(spec.steps[i']), WorkspaceBindings(spec.steps[i'])));
  }

  lemma NumberedNamesApart(i: nat, i': nat, x: string, y: string)
    requires i != i'
    ensures "unamed-" + Decimal(i) + "-" + x != "unamed-" + Decimal(i') + "-" + y
  {
    var a, b := Decimal(i) + "-" + x, Decimal(i') + "-" + y;
    assert "unamed-" + Decimal(i) + "-" + x == "unamed-" + a;
    assert "unamed-" + Decimal(i') + "-" + y == "unamed-" + b;
    if "unamed-" + a == "unamed-" + b {
      CutPrefix("unamed-", a, b);
      NumberedInjective(i, i', x, y);
    }
  }

  lemma CutPrefix(p: string, a: string, b: string)
    requires p + a == p + b
    ensures a == b
  {
    assert (p + a)[|p|..] == a && (p + b)[|p|..] == b;
  }

  /** Within one used Task, names that differ after rewriting stay different. */
  lemma InnerNamesStayApart(prefix: string, x: string, y: string)
    ensures prefix + "-" + x == prefix + "-" + y <==> x == y
  {
    if prefix + "-" + x == prefix + "-" + y {
      CutPrefix(prefix + "-", x, y);
    }
  }

  /** One name is the other continued by a dash and more, which in turn starts the other inner name. */
  ghost predicate Continues(p: string, x: string, q: string, y: string) {
    exists d :: q == p + "-" + d && x == d + "-" + y
  }

  ghost predicate NamesMeet(p: string, x: string, q: string, y: string) {
    (p == q && x == y) || Continues(p, x, q, y) || Continues(q, y, p, x)
  }

  lemma LongerContinues(p: string, x: string, q: string, y: string)
    requires p + "-" + x == q + "-" + y && |p| < |q|
    ensures Continues(p, x, q, y)
  {
    var s, d := p + "-" + x, q[|p| + 1..];
    assert p == s[..|p|] && s[|p|] == '-' && x == s[|p| + 1..];
    assert q == s[..|q|] && s[|q|] == '-' && y == s[|q| + 1..];
    assert q == p + "-" + d;
    assert x == s[|p| + 1..|q|] + "-" + y;
    assert d == s[|p| + 1..|q|];
  }

  lemma ContinuesMeets(p: string, x: string, q: string, y: string)
    requires Continues(p, x, q, y)
    ensures p + "-" + x == q + "-" + y
  {
    var d :| q == p + "-" + d && x == d + "-" + y;
    assert p + "-" + (d + "-" + y) == (p + "-" + d) + "-" + y;
  }

  /** Exactly when a prefix, a dash and an inner name give the same text as others do. */
  lemma DashedMeet(p: string, x: string, q: string, y: string)
    ensures p + "-" + x == q + "-" + y <==> NamesMeet(p, x, q, y)
  {
    if p + "-" + x == q + "-" + y {
      if |p| < |q| {
        LongerContinues(p, x, q, y);
      } else if |q| < |p| {
        LongerContinues(q, y, p, x);
      } else {
        assert p == (p + "-" + x)[..|p|] && q == (q + "-" + y)[..|q|];
        CutPrefix(p + "-", x, y);
      }
    }
    if Continues(p, x, q, y) { ContinuesMeets(p, x, q, y); }
    if Continues(q, y, p, x) { ContinuesMeets(q, y, p, x); }
  }

  /** Exactly when two inlined output steps have the same name. */
  lemma NamedStepsCanMeet(spec: TaskGroupSpec, used: map<int, TaskSpec>, m: Templating, out: TaskSpec,
                          i: nat, j: nat, i': nat, j': nat)
    requires StepFieldsWin(m) && CleanSpec(spec) && Compiled(spec, used, m, out)
    requires Inlines(spec, used, i, j) && Inlines(spec, used, i', j')
    ensures Offset(spec, used, i) + j < |out.steps| && Offset(spec, used, i') + j' < |out.steps|
    ensures out.steps[Offset(spec, used, i) + j].name == out.steps[Offset(spec, used, i') + j'].name <==>
            NamesMeet(StepPrefix(spec, i), InnerName(spec, used, i, j), StepPrefix(spec, i'), InnerName(spec, used,
                i', j'))
  {
    CompiledName(spec, used, m, out, i, j);
    CompiledName(spec, used, m, out, i', j');
    DashedMeet(StepPrefix(spec, i), InnerName(spec, used, i, j), StepPrefix(spec, i'), InnerName(spec, used, i', j'));
  }

  /** The rewritten name of a used step. */
  ghost function InnerName(spec: TaskGroupSpec, used: map<int, TaskSpec>, i: nat, j: nat): string
    requires Inlines(spec, used, i, j)
  {
    Rewrite(used[i].steps[j].name, ParamBindings(spec.steps[i]), WorkspaceBindings(spec.steps[i]))
  }

  // ---- TaskGroups with two steps of one name ----

  function Named(name: string): Step {
    Step(name, "image", "", [], [], [], [], "")
  }

  function TaskWith(name: string): TaskSpec {
    TaskSpec("", [], [Named(name)], [], [], [], [], None)
  }

  /** Two steps that use a Task each, without bindings. */
  function TwoUses(p: string, q: string): TaskGroupSpec {
    TaskGroupSpec("", [], [GroupStep(Named(p), Some(Uses("t", [], []))), GroupStep(Named(q), Some(Uses("u", [], [])))],
                  [], [], [], [], None)
  }

  function TwoTasks(x: string, y: string): map<int, TaskSpec> {
    map[0 := TaskWith(x), 1 := TaskWith(y)]
  }

  lemma TwoUsesCompile(p: string, x: string, q: string, y: string, m: Templating)
    ensures CompileError(TwoUses(p, q), TwoTasks(x, y), m) == None
  {
    BareCompiles(TwoUses(p, q), TwoTasks(x, y), m);
  }

  lemma UnboundNameStays(x: string)
    ensures Rewrite(x, map[], map[]) == x
  {
    assert RefTable(Renaming(PARAM_FORMS, map[])) == map[];
    assert RefTable(Renaming(WORKSPACE_FORMS, map[])) == map[];
    EvalNothing(x);
  }

  /** Two used steps and nothing else, with these inner names. */
  ghost predicate TwoInlined(spec: TaskGroupSpec, used: map<int, TaskSpec>, x: string, y: string) {
    && CleanSpec(spec) && |spec.steps| == 2 && Inlines(spec, used, 0, 0) && Inlines(spec, used, 1, 0)
    && Offset(spec, used, 1) == 1 && Offset(spec, used, 2) == 2
    && InnerName(spec, used, 0, 0) == x && InnerName(spec, used, 1, 0) == y
  }

  lemma TwoUsesInlined(p: string, x: string, q: string, y: string)
    ensures TwoInlined(TwoUses(p, q), TwoTasks(x, y), x, y)
  {
    var spec, used := TwoUses(p, q), TwoTasks(x, y);
    UnboundNameStays(x);
    UnboundNameStays(y);
    assert BindingMap([]) == map[];
    assert Width(spec, used, 0) == 1 && Width(spec, used, 1) == 1;
    assert Offset(spec, used, 1) == 1;
  }

  lemma InlinedMeet(spec: TaskGroupSpec, used: map<int, TaskSpec>, x: string, y: string, m: Templating, out: TaskSpec)
    requires StepFieldsWin(m) && TwoInlined(spec, used, x, y) && Compiled(spec, used, m, out)
    requires NamesMeet(StepPrefix(spec, 0), x, StepPrefix(spec, 1), y)
    ensures |out.steps| == 2 && out.steps[0].name == out.steps[1].name
  {
    OutputSteps(spec, used, m, out, 0, 0);
    NamedStepsCanMeet(spec, used, m, out, 0, 0, 1, 0);
  }

  /** Whenever names can meet, there is a TaskGroup that compiles to two steps of the same name. */
  lemma NamesCollide(p: string, x: string, q: string, y: string, m: Templating) returns (out: TaskSpec)
    requires StepFieldsWin(m) && NamesMeet(StepPrefix(TwoUses(p, q), 0), x, StepPrefix(TwoUses(p, q), 1), y)
    ensures CompileError(TwoUses(p, q), TwoTasks(x, y), m) == None
    ensures Compiled(TwoUses(p, q), TwoTasks(x, y), m, out)
    ensures |out.steps| == 2 && out.steps[0].name == out.steps[1].name
  {
    TwoUsesCompile(p, x, q, y, m);
    out := CompiledExists(TwoUses(p, q), TwoTasks(x, y), m);
    TwoUsesInlined(p, x, q, y);
    InlinedMeet(TwoUses(p, q), TwoTasks(x, y), x, y, m, out);
  }

  lemma ExampleNamesMeet()
    ensures NamesMeet(StepPrefix(TwoUses("a", "a-b"), 0), "b-c", StepPrefix(TwoUses("a", "a-b"), 1), "c")
    ensures NamesMeet(StepPrefix(TwoUses("", "unamed-0"), 0), "c", StepPrefix(TwoUses("", "unamed-0"), 1), "c")
  {
    assert "a-b" == "a" + "-" + "b" && "b-c" == "b" + "-" + "c";
    assert Decimal(0) == "0" && "unamed-" + "0" == "unamed-0";
  }

  /** For example with the step names `a` and `a-b`, or with an unnamed step beside one that is called what
      the compiler calls the unnamed one. */
  lemma CollidingGroups(m: Templating) returns (named: TaskSpec, unnamed: TaskSpec)
    requires StepFieldsWin(m)
    ensures Compiled(TwoUses("a", "a-b"), TwoTasks("b-c", "c"), m, named)
    ensures |named.steps| == 2 && named.steps[0].name == named.steps[1].name
    ensures Compiled(TwoUses("", "unamed-0"), TwoTasks("c", "c"), m, unnamed)
    ensures |unnamed.steps| == 2 && unnamed.steps[0].name == unnamed.steps[1].name
  {
    ExampleNamesMeet();
    named := NamesCollide("a", "b-c", "a-b", "c", m);
    unnamed := NamesCollide("", "c", "unamed-0", "c", m);
  }
}
