/** Exactly when a reconciliation ends a Run, makes a TaskRun or cancels one, and what goes wrong
    outside the conditions under which whole runs are safe. */
module Verdicts {
  import opened Text
  import opened Types
  import opened RunModel
  import opened Protocol
  import opened ProtocolFacts
  import opened Convergence

  /** The Run is one of a TaskGroup, is not done, and its TaskGroup is there and valid. */
  ghost predicate Proceeds(run: Run, w: World) {
    && RefersToGroup(run) && run.status.condition.Unknown?
    && Fetch(run, w).Some? && w.valid(Fetch(run, w).value.spec) && !w.listFails
  }

  lemma ProceedsVerdict(run: Run, listed: map<string, TaskRun>, w: World)
    ensures var v := VerdictOn(run, listed, w);
      Proceeds(run, w) <==> NamesTaskRun(v) || v.Ambiguous? || v.Recorded? || v.Creates? || v.Uncreatable?
    ensures Proceeds(run, w) ==> GroupOf(VerdictOn(run, listed, w)) == Fetch(run, w)
  {
    StartConcludes(run, listed, w);
    if Fetch(run, w).Some? {
      SoleConcludes(Start(run), Fetch(run, w).value, listed, w);
      ValidVerdictGroup(Start(run), Fetch(run, w).value, listed, w);
    }
  }

  lemma CompletedNames(run: Run, listed: map<string, TaskRun>, w: World)
    requires VerdictOn(run, listed, w).Completed?
    ensures var v := VerdictOn(run, listed, w);
      Proceeds(run, w) && listed.Keys == {v.name} && listed[v.name] == v.taskRun && v.taskRun.status.Finished?
  {
    ReconciledConcludes(run, listed, w);
    ProceedsVerdict(run, listed, w);
    SoleMap(listed, VerdictOn(run, listed, w).name);
  }

  lemma ConditionsExactly(run: Run, listed: map<string, TaskRun>, w: World)
    requires run.status.condition.Unknown?
    ensures var v, c := VerdictOn(run, listed, w), Reconciled(run, listed, w).status.condition;
      && (c.True? <==> v.Completed? && v.taskRun.status == Finished(true))
      && (c == False("Failed") <==> v.Completed? && v.taskRun.status != Finished(true))
  {
    ReconciledConcludes(run, listed, w);
    StartConcludes(run, listed, w);
  }

  /** The only visible TaskRun of the Run has ended, this way. */
  ghost predicate SoleEnded(listed: map<string, TaskRun>, success: bool) {
    exists t :: t in listed && listed.Keys == {t} && listed[t].status == Finished(success)
  }

  /** A Run that is not done succeeds, or fails with reason Failed, exactly when a single TaskRun with
      its label is visible and has ended that way. */
  lemma EndsExactly(run: Run, listed: map<string, TaskRun>, w: World)
    requires run.status.condition.Unknown?
    ensures Reconciled(run, listed, w).status.condition.True? <==> Proceeds(run, w) && SoleEnded(listed, true)
    ensures Reconciled(run, listed, w).status.condition == False("Failed") <==>
              Proceeds(run, w) && SoleEnded(listed, false)
  {
    ConditionsExactly(run, listed, w);
    var v := VerdictOn(run, listed, w);
    if v.Completed? {
      CompletedNames(run, listed, w);
    } else if Proceeds(run, w) && (SoleEnded(listed, true) || SoleEnded(listed, false)) {
      var t :| t in listed && listed.Keys == {t} && listed[t].status.Finished?;
      SoleVerdict(run, listed, w, t);
    }
  }

  /** A single visible TaskRun decides. */
  lemma SoleVerdict(run: Run, listed: map<string, TaskRun>, w: World, t: string)
    requires Proceeds(run, w) && listed.Keys == {t}
    ensures VerdictOn(run, listed, w) == DecideSole(Start(run), Fetch(run, w).value, t, listed[t], w)
  {
    assert |listed| == |listed.Keys| == 1;
    StartConcludes(run, listed, w);
    var g := Fetch(run, w).value;
    assert DecideListed(Start(run), g, listed, w) == Some(DecideSole(Start(run), g, t, listed[t], w));
  }

  /** A TaskRun is created exactly when none is visible, none is on record, and one can be made. */
  lemma CreatesExactly(run: Run, listed: map<string, TaskRun>, w: World)
    ensures VerdictOn(run, listed, w).Creates? <==>
      Proceeds(run, w) && |listed| == 0 && run.status.taskRun.None? && w.creatable(Fetch(run, w).value.spec)
  {
    ReconciledConcludes(run, listed, w);
    ProceedsVerdict(run, listed, w);
    StartConcludes(run, listed, w);
  }

  /** A cancelled Run with one unfinished TaskRun: after a round the TaskRun is cancelled, and if it
      already was, nothing is sent. */
  lemma CancelReachesTaskRun(s: Cluster, n: string, w: World, t: string, name: string, compiled: TaskSpec)
    requires n in s.runs && s.runs[n].name == n && s.runs[n].cancelled && Healthy(w)
    requires Proceeds(PreProcess(s.runs[n]), w) && t in s.ever && s.ever[t].status.Unfinished?
    requires OfRun(s, s.runs[n]) == map[t := s.ever[t]]
    ensures var s' := Round(s, n, w, name, compiled); t in s'.ever && s'.ever[t].cancelled
    ensures s.ever[t].cancelled ==> Round(s, n, w, name, compiled).sent == s.sent
  {
    var run, listed := PreProcess(s.runs[n]), OfRun(s, s.runs[n]);
    assert listed.Keys == {t};
    SoleVerdict(run, listed, w, t);
    RoundIs(s, n, w, name, compiled, VerdictOn(run, listed, w), Reconciled(run, listed, w));
  }

  // ---- Outside the guard ----

  /** A reconciliation that sees no earlier TaskRun, and can
      make one, makes a second. */
  lemma BlindCreatesSecond(s: Cluster, n: string, w: World, name: string, compiled: TaskSpec, written: bool)
    requires Inv(s) && Enabled(s, ReconcileRun(n, w, name, compiled, written)) && HasTaskRun(s.ever, n)
    requires !Sees(s, n) && Proceeds(View(s, n), w) && w.creatable(Fetch(View(s, n), w).value.spec)
    ensures !AtMostOne(AfterReconcile(s, n, w, name, compiled, written).ever)
  {
    CreatesExactly(View(s, n), Visible(s, n), w);
    EnabledConcludes(s, n, w, name, compiled, written);
    var t :| Owned(s.ever, n, t);
    SecondOwned(s.ever, VerdictAt(s, n, w), name, ResultAt(s, n, w), compiled, n, t);
  }

  lemma SecondOwned(ever: map<string, TaskRun>, v: Verdict, name: string, r: Run, compiled: TaskSpec, n: string,
                    t: string)
    requires v.Creates? && name !in ever && r.name == n && Owned(ever, n, t)
    ensures !AtMostOne(TaskRunsAfter(ever, v, name, r, compiled))
  {
    var ever' := TaskRunsAfter(ever, v, name, r, compiled);
    assert Owned(ever', n, t) && Owned(ever', n, name) && t != name;
  }

  /** A reconciliation that reads an old copy can take back the end of a Run: its status write
      replaces the whole status. */
  lemma StaleReadReopens(s: Cluster, n: string, w: World, name: string, compiled: TaskSpec, v: Verdict, r: Run)
    requires Inv(s) && Concluded(s, n, w, name, v, r) && (v.Recorded? || v.Running?)
    requires n in s.runs && !s.runs[n].status.condition.Unknown?
    requires s.runCache[n].status.condition != Unknown("Running")
    ensures var s' := Effect(s, n, w, name, compiled, true, v, r);
      n in s'.runs && s'.runs[n].status.condition == Unknown("Running")
  {
    assert r.name == n by { ViewSound(s, n); }
    RunningResult(View(s, n), Visible(s, n), w, v, r);
    WholeStatusWritten(s.runs, s.runCache, v, r, w, s.runCache[n], n);
  }

  lemma RunningResult(run: Run, listed: map<string, TaskRun>, w: World, v: Verdict, r: Run)
    requires Concludes(run, listed, w, v, r) && (v.Recorded? || v.Running?)
    ensures r.status.condition == Unknown("Running")
  {
  }

  lemma WholeStatusWritten(runs: map<string, Run>, lister: map<string, Run>, v: Verdict, r: Run, w: World,
                           cached: Run, n: string)
    requires n in runs && r.name == n && r.status.condition != cached.status.condition
    ensures var runs' := WriteStatus(RunsAfter(runs, lister, v, r, w), cached, r, true);
      n in runs' && runs'[n].status == PostProcess(r).status
  {
  }

  /** Editing a Run that is done, for example to cancel it, opens it again: without a TaskRun it may
      even get its first one. */
  lemma EditReopens(run: Run, w: World)
    requires !run.status.condition.Unknown? && run.status.taskRun.None?
    requires Proceeds(run.(status := run.status.(condition := Unknown("NewObservedGenFailure"))), w)
    requires w.creatable(Fetch(run, w).value.spec)
    ensures VerdictOn(PreProcess(run), map[], w).Creates? <==> run.status.observedGeneration != run.generation
  {
    CreatesExactly(PreProcess(run), map[], w);
  }

  /** A Run whose recorded TaskRun has been deleted stays Running: nothing is left to do. */
  lemma DeletedLeavesRunning(s: Cluster, n: string, w: World, g: TaskGroup)
    requires n in s.runs && s.runs[n].name == n && s.runs[n].status.observedGeneration == s.runs[n].generation
    requires Loaded(s.runs[n], g, w) && Healthy(w) && OfRun(s, s.runs[n]) == map[]
    requires s.runs[n].status.taskRun.Some? && s.runs[n].status.condition == Unknown("Running")
    ensures Quiet(s, n, w)
  {
    RecordedIsFixed(s.runs[n], g, OfRun(s, s.runs[n]), w);
  }
}
