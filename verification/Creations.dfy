/** Exactly when a Run gets a second TaskRun. */
module Creations {
  import opened Text
  import opened Types
  import opened RunModel
  import opened Protocol
  import opened ProtocolFacts
  import opened Verdicts

  /** A reconciliation of a Run that has had a TaskRun, which sees it neither in the listing nor on record,
      goes on and can make one. */
  ghost predicate MakesSecond(s: Cluster, a: Action) {
    && a.ReconcileRun? && a.run in s.runCache && HasTaskRun(s.ever, a.run) && !Sees(s, a.run)
    && Proceeds(View(s, a.run), a.world) && a.world.creatable(Fetch(View(s, a.run), a.world).value.spec)
  }

  lemma CreatesAsSecond(s: Cluster, n: string, w: World)
    requires n in s.runCache
    ensures VerdictAt(s, n, w).Creates? <==>
            !Sees(s, n) && Proceeds(View(s, n), w) && w.creatable(Fetch(View(s, n), w).value.spec)
  {
    CreatesExactly(View(s, n), Visible(s, n), w);
  }

  /** A step keeps TaskRuns apart if and only if it is not such a reconciliation. */
  lemma SecondExactly(s: Cluster, a: Action)
    requires Inv(s) && Enabled(s, a) && AtMostOne(s.ever)
    ensures AtMostOne(Next(s, a).ever) <==> !MakesSecond(s, a)
  {
    if a.ReconcileRun? {
      ReconcileSecond(s, a.run, a.world, a.name, a.compiled, a.written);
    } else {
      OtherStepsStayOne(s, a);
    }
  }

  lemma ReconcileSecond(s: Cluster, n: string, w: World, name: string, compiled: TaskSpec, written: bool)
    requires Inv(s) && Enabled(s, ReconcileRun(n, w, name, compiled, written)) && AtMostOne(s.ever)
    ensures AtMostOne(AfterReconcile(s, n, w, name, compiled, written).ever) <==>
            !MakesSecond(s, ReconcileRun(n, w, name, compiled, written))
  {
    CreatesAsSecond(s, n, w);
    if MakesSecond(s, ReconcileRun(n, w, name, compiled, written)) {
      BlindCreatesSecond(s, n, w, name, compiled, written);
    } else {
      EnabledConcludes(s, n, w, name, compiled, written);
      ViewSound(s, n);
      TaskRunsStayOne(s.ever, n, VerdictAt(s, n, w), name, ResultAt(s, n, w), compiled);
    }
  }

  /** Two TaskRuns of a Run stay two. */
  lemma ManyStayMany(ever: map<string, TaskRun>, ever': map<string, TaskRun>)
    requires Grows(ever, ever') && AtMostOne(ever')
    ensures AtMostOne(ever)
  {
    forall n, t, u | Owned(ever, n, t) && Owned(ever, n, u) ensures t == u {
      assert TaskRunLater(ever[t], ever'[t]) && TaskRunLater(ever[u], ever'[u]);
      assert Owned(ever', n, t) && Owned(ever', n, u);
    }
  }

  ghost predicate NoSecond(states: seq<Cluster>, actions: seq<Action>, i: nat) {
    |states| == |actions| + 1 && i <= |actions| && forall k :: 0 <= k < i ==> !MakesSecond(states[k], actions[k])
  }

  lemma NoSecondStep(states: seq<Cluster>, actions: seq<Action>, i: nat)
    requires |states| == |actions| + 1 && i < |actions|
    ensures NoSecond(states, actions, i + 1) <==> NoSecond(states, actions, i) && !MakesSecond(states[i], actions[i])
  {
  }

  /** Over whole runs, with stale listers and lost status writes: no Run ever has had two TaskRuns if and
      only if no such reconciliation has happened. */
  lemma {:induction false} AtMostOneExactly(states: seq<Cluster>, actions: seq<Action>, i: nat)
    requires Path(states, actions) && Init(states[0]) && i < |states|
    ensures AtMostOne(states[i].ever) <==> NoSecond(states, actions, i)
  {
    if i > 0 {
      AtMostOneExactly(states, actions, i - 1);
      NoSecondStep(states, actions, i - 1);
      ReachableInv(states, actions, i - 1);
      assert StepAt(states, actions, i - 1);
      StepGrows(states[i - 1], actions[i - 1]);
      if AtMostOne(states[i].ever) {
        ManyStayMany(states[i - 1].ever, states[i].ever);
      }
      if AtMostOne(states[i - 1].ever) {
        SecondExactly(states[i - 1], actions[i - 1]);
      }
    }
  }

  /** A reconciliation sees an earlier creation through the listing or the record. */
  ghost predicate Guarded(s: Cluster, a: Action) {
    a.ReconcileRun? && HasTaskRun(s.ever, a.run) ==> Sees(s, a.run)
  }

  /** In particular at most one TaskRun is ever created for a Run as long as each reconciliation sees an
      earlier creation through at least one channel. */
  lemma AtMostOneEver(states: seq<Cluster>, actions: seq<Action>, i: nat)
    requires Path(states, actions) && Init(states[0]) && i < |states|
    requires forall k :: 0 <= k < i ==> Guarded(states[k], actions[k])
    ensures AtMostOne(states[i].ever)
  {
    AtMostOneExactly(states, actions, i);
  }

  /** As long as no second TaskRun is made, a Run never counts as succeeded at one time and as Failed at
      another. */
  lemma NeverBothWays(states: seq<Cluster>, actions: seq<Action>, i: nat, j: nat, n: string)
    requires Path(states, actions) && Init(states[0])
    requires i < |states| && j < |states| && n in states[i].runs && n in states[j].runs
    requires NoSecond(states, actions, if i < j then j else i)
    ensures !(states[i].runs[n].status.condition.True? && states[j].runs[n].status.condition == False("Failed"))
  {
    if states[i].runs[n].status.condition.True? && states[j].runs[n].status.condition == False("Failed") {
      EndsOnEvidence(states, actions, i, n);
      EndsOnEvidence(states, actions, j, n);
      var k := if i < j then j else i;
      GrowsAlong(states, actions, i, k);
      GrowsAlong(states, actions, j, k);
      FinishedLater(states[i].ever, states[k].ever, n, true);
      FinishedLater(states[j].ever, states[k].ever, n, false);
      AtMostOneExactly(states, actions, k);
    }
  }
}
