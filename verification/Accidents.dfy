/** Runs of the system, from an initial state on, in which things go wrong: what the conditions of the
    safety results exclude does happen. */
module Accidents {
  import opened Text
  import opened Types
  import opened RunModel
  import opened Protocol
  import opened ProtocolFacts
  import opened Convergence
  import opened Verdicts
  import opened Endings
  import opened Compiler
  import opened CompilerFacts
  import opened Declarations
  import opened Existence
  import opened Validation
  import opened Reconciler
  import opened Gate

  /** The Run can get a TaskRun. */
  ghost predicate Starts(run: Run, w: World, compiled: TaskSpec) {
    && Proceeds(PreProcess(run), w) && Lawful(w) && run.status.taskRun.None?
    && w.creatable(Fetch(PreProcess(run), w).value.spec) && w.compiles(Fetch(PreProcess(run), w).value.spec, compiled)
  }

  function Initially(n: string, run: Run): Cluster {
    Cluster(map[n := run], map[], {}, map[], map[], {}, map[])
  }

  ghost predicate IsStep(s: Cluster, a: Action, s': Cluster) {
    Enabled(s, a) && s' == Next(s, a)
  }

  lemma OneStep(s: Cluster, a: Action, s': Cluster)
    requires IsStep(s, a, s')
    ensures Path([s, s'], [a])
  {
    assert StepAt([s, s'], [a], 0);
  }

  lemma OneMoreStep(states: seq<Cluster>, actions: seq<Action>, a: Action, s': Cluster)
    requires Path(states, actions) && IsStep(states[|actions|], a, s')
    ensures Path(states + [s'], actions + [a])
  {
    var states', actions' := states + [s'], actions + [a];
    forall i | 0 <= i < |actions'| ensures StepAt(states', actions', i) {
      if i < |actions| {
        assert StepAt(states, actions, i);
        assert states'[i] == states[i] && states'[i + 1] == states[i + 1] && actions'[i] == actions[i];
      } else {
        assert states'[i] == states[|actions|] && states'[i + 1] == s' && actions'[i] == a;
      }
    }
  }

  /** Three steps in a row. */
  lemma ThreeSteps(s0: Cluster, a0: Action, a1: Action, a2: Action, s1: Cluster, s2: Cluster, s3: Cluster)
    requires IsStep(s0, a0, s1) && IsStep(s1, a1, s2) && IsStep(s2, a2, s3)
    ensures Path([s0, s1, s2, s3], [a0, a1, a2])
  {
    OneStep(s0, a0, s1);
    OneMoreStep([s0, s1], [a0], a1, s2);
    assert [s0, s1] + [s2] == [s0, s1, s2] && [a0] + [a1] == [a0, a1];
    OneMoreStep([s0, s1, s2], [a0, a1], a2, s3);
    assert [s0, s1, s2] + [s3] == [s0, s1, s2, s3] && [a0, a1] + [a2] == [a0, a1, a2];
  }

  /** The lister has an early copy of the Run and no TaskRun yet. */
  ghost predicate Behind(s: Cluster, n: string, run: Run) {
    n in s.runs && n in s.runCache && s.runCache[n] == run && run.name == n && s.taskRunCache == map[]
  }

  lemma FirstSync(n: string, run: Run)
    requires FreshRun(n, run)
    ensures Init(Initially(n, run)) && Enabled(Initially(n, run), SyncRun(n))
    ensures var s := Next(Initially(n, run), SyncRun(n)); Behind(s, n, run) && s.ever == map[]
  {
  }

  /** A reconciliation that is behind makes a TaskRun. */
  lemma BehindCreates(s: Cluster, n: string, run: Run, w: World, name: string, compiled: TaskSpec, written: bool)
    requires Behind(s, n, run) && Starts(run, w, compiled) && name !in s.ever
    ensures VerdictAt(s, n, w).Creates? && Enabled(s, ReconcileRun(n, w, name, compiled, written))
    ensures var s' := AfterReconcile(s, n, w, name, compiled, written);
      && Behind(s', n, run) && Owned(s'.ever, n, name) && Grows(s.ever, s'.ever) && s'.ever.Keys == s.ever.Keys + {name}
      && (written ==> s'.runs[n].status.condition == Unknown("Running"))
  {
    assert Visible(s, n) == map[];
    CreatesExactly(View(s, n), map[], w);
    ProceedsVerdict(View(s, n), map[], w);
    ReconciledConcludes(View(s, n), map[], w);
    CreatedBehind(s, n, run, w, name, compiled, written, VerdictAt(s, n, w), ResultAt(s, n, w));
  }

  lemma CreatedBehind(s: Cluster, n: string, run: Run, w: World, name: string, compiled: TaskSpec, written: bool,
                      v: Verdict, r: Run)
    requires Behind(s, n, run) && name !in s.ever && run.status.taskRun.None?
    requires Concludes(View(s, n), Visible(s, n), w, v, r) && v.Creates?
    ensures var s' := Effect(s, n, w, name, compiled, written, v, r);
      && Behind(s', n, run) && Owned(s'.ever, n, name) && Grows(s.ever, s'.ever) && s'.ever.Keys == s.ever.Keys + {name}
      && (written ==> s'.runs[n].status.condition == Unknown("Running"))
  {
    assert r.name == n && r.status.taskRun == Some(NO_STATUS) && r.status.condition == Unknown("Running");
    CreatedOwned(s.ever, n, v, name, r, compiled);
    WrittenOver(s.runs, s.runCache, v, r, w, run, written, n);
  }

  lemma CreatedOwned(ever: map<string, TaskRun>, n: string, v: Verdict, name: string, r: Run, compiled: TaskSpec)
    requires v.Creates? && name !in ever && r.name == n
    ensures var ever' := TaskRunsAfter(ever, v, name, r, compiled);
      Owned(ever', n, name) && Grows(ever, ever') && ever'.Keys == ever.Keys + {name}
  {
  }

  /** What `AtMostOneExactly` excludes: the status write of the first reconciliation gets lost, the
      listers do not catch up, and the second one makes a second TaskRun. */
  lemma TwoTaskRuns(n: string, run: Run, w: World, compiled: TaskSpec, t: string, u: string)
    returns (states: seq<Cluster>, actions: seq<Action>)
    requires FreshRun(n, run) && Starts(run, w, compiled) && t != u
    ensures Path(states, actions) && states[0] == Initially(n, run) && Init(states[0])
    ensures !AtMostOne(states[|states| - 1].ever)
  {
    var s0, a0 := Initially(n, run), SyncRun(n);
    var a1, a2 := ReconcileRun(n, w, t, compiled, false), ReconcileRun(n, w, u, compiled, false);
    FirstSync(n, run);
    var s1 := Next(s0, a0);
    BehindCreates(s1, n, run, w, t, compiled, false);
    var s2 := AfterReconcile(s1, n, w, t, compiled, false);
    BehindCreates(s2, n, run, w, u, compiled, false);
    var s3 := AfterReconcile(s2, n, w, u, compiled, false);
    ThreeSteps(s0, a0, a1, a2, s1, s2, s3);
    states, actions := [s0, s1, s2, s3], [a0, a1, a2];
    assert Owned(s3.ever, n, t) && Owned(s3.ever, n, u);
  }

  lemma UnfetchedVerdict(run: Run, listed: map<string, TaskRun>, w: World)
    requires RefersToGroup(run) && run.status.condition.Unknown? && Fetch(run, w).None?
    ensures VerdictOn(PreProcess(run), listed, w) == Unfetched
  {
    var started := Start(PreProcess(run));
    assert RefersToGroup(started) && !IsDone(started) && Fetch(started, w) == None;
  }

  /** A reconciliation that cannot fetch the TaskGroup ends the Run. */
  lemma UnfetchedEnds(s: Cluster, n: string, run: Run, w: World, name: string, compiled: TaskSpec)
    requires Behind(s, n, run) && Lawful(w) && name !in s.ever
    requires RefersToGroup(run) && run.status.condition.Unknown? && Fetch(run, w).None?
    ensures Enabled(s, ReconcileRun(n, w, name, compiled, true))
    ensures var s' := AfterReconcile(s, n, w, name, compiled, true);
      Behind(s', n, run) && s'.ever == s.ever && Done(s', n)
  {
    UnfetchedVerdict(run, Visible(s, n), w);
    ReconciledConcludes(View(s, n), Visible(s, n), w);
    EndedBehind(s, n, run, w, name, compiled, VerdictAt(s, n, w), ResultAt(s, n, w));
  }

  lemma EndedBehind(s: Cluster, n: string, run: Run, w: World, name: string, compiled: TaskSpec, v: Verdict, r: Run)
    requires Behind(s, n, run) && run.status.condition.Unknown?
    requires Concludes(View(s, n), Visible(s, n), w, v, r) && v.Unfetched?
    ensures var s' := Effect(s, n, w, name, compiled, true, v, r);
      Behind(s', n, run) && s'.ever == s.ever && Done(s', n)
  {
    WrittenOver(s.runs, s.runCache, v, r, w, run, true, n);
  }

  /** Without the conditions of `StaysDoneExactly`: a TaskGroup that cannot be fetched ends the Run, the
      retry reads an old copy, finds the TaskGroup, and the Run that was done is running. */
  lemma DoneThenRunning(n: string, run: Run, w0: World, w: World, compiled: TaskSpec, t: string)
    returns (states: seq<Cluster>, actions: seq<Action>, i: nat)
    requires FreshRun(n, run) && Starts(run, w, compiled) && Lawful(w0) && Fetch(run, w0).None?
    ensures Path(states, actions) && states[0] == Initially(n, run) && Init(states[0])
    ensures i < |states| - 1 && Done(states[i], n)
    ensures n in states[|states| - 1].runs && states[|states| - 1].runs[n].status.condition == Unknown("Running")
  {
    var s0, a0 := Initially(n, run), SyncRun(n);
    var a1, a2 := ReconcileRun(n, w0, t, compiled, true), ReconcileRun(n, w, t, compiled, true);
    FirstSync(n, run);
    var s1 := Next(s0, a0);
    var s2, s3 := EndsThenRuns(s1, n, run, w0, w, compiled, t);
    ThreeSteps(s0, a0, a1, a2, s1, s2, s3);
    states, actions, i := [s0, s1, s2, s3], [a0, a1, a2], 2;
  }

  lemma EndsThenRuns(s: Cluster, n: string, run: Run, w0: World, w: World, compiled: TaskSpec, t: string)
    returns (s1: Cluster, s2: Cluster)
    requires Behind(s, n, run) && s.ever == map[] && FreshRun(n, run)
    requires Starts(run, w, compiled) && Lawful(w0) && Fetch(run, w0).None?
    ensures IsStep(s, ReconcileRun(n, w0, t, compiled, true), s1) && Done(s1, n)
    ensures IsStep(s1, ReconcileRun(n, w, t, compiled, true), s2)
    ensures n in s2.runs && s2.runs[n].status.condition == Unknown("Running")
  {
    s1 := BehindEnds(s, n, run, w0, t, compiled);
    s2 := BehindRuns(s1, n, run, w, t, compiled);
  }

  lemma BehindEnds(s: Cluster, n: string, run: Run, w: World, name: string, compiled: TaskSpec) returns (s': Cluster)
    requires Behind(s, n, run) && Lawful(w) && name !in s.ever
    requires RefersToGroup(run) && run.status.condition.Unknown? && Fetch(run, w).None?
    ensures IsStep(s, ReconcileRun(n, w, name, compiled, true), s')
    ensures Behind(s', n, run) && s'.ever == s.ever && Done(s', n)
  {
    UnfetchedEnds(s, n, run, w, name, compiled);
    s' := AfterReconcile(s, n, w, name, compiled, true);
  }

  lemma BehindRuns(s: Cluster, n: string, run: Run, w: World, name: string, compiled: TaskSpec) returns (s': Cluster)
    requires Behind(s, n, run) && Starts(run, w, compiled) && name !in s.ever
    ensures IsStep(s, ReconcileRun(n, w, name, compiled, true), s')
    ensures n in s'.runs && s'.runs[n].status.condition == Unknown("Running")
  {
    BehindCreates(s, n, run, w, name, compiled, true);
    s' := AfterReconcile(s, n, w, name, compiled, true);
  }

  // ---- With a backend ----

  const ONE_STEP := TaskGroupSpec("", [], [GroupStep(Step("s", "i", "", [], [], [], [], ""), None)],
                                  [], [], [], [], None)

  /** A backend in which everything works, with these TaskGroups. */
  function Working(groups: map<string, TaskGroup>): Backend {
    Backend(groups, map[], Templating(c => true, (c, s) => s),
            Validators(x => [], x => [], (s, x) => [], s => [], x => []), false, false, false, false)
  }

  lemma OneStepValid(groups: map<string, TaskGroup>)
    ensures Valid(Working(groups).validators, ONE_STEP)
  {
  }

  lemma OneStepCompiles(groups: map<string, TaskGroup>) returns (compiled: TaskSpec)
    ensures Creatable(ONE_STEP, Working(groups)) && CompiledIn(ONE_STEP, Working(groups), compiled)
  {
    var used: map<int, TaskSpec> := map[];
    assert UsedTasks(ONE_STEP.steps[..0], map[]) == Some(used);
    assert UsedTasks(ONE_STEP.steps, map[]) == Some(used);
    BareCompiles(ONE_STEP, used, Working(groups).templating);
    compiled := CompiledExists(ONE_STEP, used, Working(groups).templating);
  }

  /** There are Runs and backends to which both apply: the controller can have these runs. */
  lemma SomeRunStarts() returns (run: Run, before: Backend, backend: Backend, compiled: TaskSpec)
    ensures FreshRun("r", run) && Starts(run, AsWorld(backend), compiled)
    ensures Lawful(AsWorld(before)) && Fetch(run, AsWorld(before)).None?
  {
    run := Run("r", Some(GroupRef(API_VERSION, KIND, "g")), None, false, 1, map[], map[],
               RunStatus(false, Unknown(""), 0, None, None));
    var groups := map["g" := TaskGroup("g", map[], map[], ONE_STEP)];
    before, backend := Working(map[]), Working(groups);
    BackendIsLawful(before);
    BackendIsLawful(backend);
    OneStepValid(groups);
    compiled := OneStepCompiles(groups);
    assert Fetch(PreProcess(run), AsWorld(backend)) == Some(groups["g"]);
  }
}
