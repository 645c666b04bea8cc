/** Exactly when a reconciliation takes back the end of a Run, or the TaskGroup stored with it. */
module Endings {
  import opened Text
  import opened Types
  import opened RunModel
  import opened Protocol
  import opened ProtocolFacts
  import opened Convergence
  import opened Verdicts

  // ---- A Run that is not done ----

  /** The only visible TaskRun has not ended. */
  ghost predicate SoleUnfinished(listed: map<string, TaskRun>) {
    exists t :: t in listed && listed.Keys == {t} && listed[t].status.Unfinished?
  }

  /** A Run that is not done is not done after the reconciliation either: it is not one of a TaskGroup,
      or its TaskGroup is there and valid, and there is a TaskRun to wait for or to make. */
  ghost predicate GoesOn(run: Run, listed: map<string, TaskRun>, w: World) {
    RefersToGroup(run) ==>
      && Fetch(run, w).Some? && w.valid(Fetch(run, w).value.spec)
      && (w.listFails || |listed| > 1 || SoleUnfinished(listed)
          || (|listed| == 0 && (run.status.taskRun.Some? || w.creatable(Fetch(run, w).value.spec))))
  }

  /** The verdicts that end a Run. */
  predicate Ends(v: Verdict) {
    v.Unfetched? || v.Rejected? || v.Uncreatable? || v.Completed?
  }

  lemma ListedOne(listed: map<string, TaskRun>) returns (t: string)
    requires |listed| == 1
    ensures t in listed && listed.Keys == {t}
  {
    assert listed.Keys != {};
    t :| t in listed;
    SoleMap(listed, t);
  }

  lemma ValidGoesOn(run: Run, g: TaskGroup, listed: map<string, TaskRun>, w: World)
    ensures var v := DecideValid(run, g, listed, w);
      !Ends(v) <==> w.listFails || |listed| > 1 || SoleUnfinished(listed)
                    || (|listed| == 0 && (run.status.taskRun.Some? || w.creatable(g.spec)))
    ensures !DecideValid(run, g, listed, w).Foreign? && !DecideValid(run, g, listed, w).AlreadyDone?
  {
    if !w.listFails && |listed| == 1 {
      var t := ListedOne(listed);
      assert DecideListed(run, g, listed, w) == Some(DecideSole(run, g, t, listed[t], w));
      assert SoleUnfinished(listed) <==> listed[t].status.Unfinished?;
    } else {
      assert SoleUnfinished(listed) ==> |listed| == |listed.Keys| == 1;
    }
  }

  lemma GoesOnVerdict(run: Run, listed: map<string, TaskRun>, w: World)
    requires run.status.condition.Unknown?
    ensures GoesOn(run, listed, w) <==> !Ends(VerdictOn(run, listed, w))
  {
    StartConcludes(run, listed, w);
    if Fetch(run, w).Some? {
      ValidGoesOn(Start(run), Fetch(run, w).value, listed, w);
    }
  }

  lemma GoesOnExactly(run: Run, listed: map<string, TaskRun>, w: World)
    requires run.status.condition.Unknown?
    ensures GoesOn(run, listed, w) <==> Reconciled(run, listed, w).status.condition.Unknown?
  {
    GoesOnVerdict(run, listed, w);
    ReconciledConcludes(run, listed, w);
    StartConcludes(run, listed, w);
  }

  /** The status of a Run already says what a reconciliation that goes on would write. */
  ghost predicate UpToDate(run: Run, listed: map<string, TaskRun>, w: World) {
    RefersToGroup(run) ==>
        run.status.started && run.status.storedSpec.Some? && (ListingUnclear(listed, w) || Tracks(run, listed, w))
  }

  predicate ListingUnclear(listed: map<string, TaskRun>, w: World) {
    w.listFails || |listed| > 1
  }

  /** A cancellation has to be sent, and that fails. */
  ghost predicate CancelStuck(run: Run, listed: map<string, TaskRun>, w: World) {
    run.cancelled && w.cancelFails && exists t :: t in listed && !listed[t].cancelled
  }

  ghost predicate Tracks(run: Run, listed: map<string, TaskRun>, w: World) {
    && run.status.taskRun.Some?
    && (forall t :: t in listed ==> run.status.taskRun == Some(listed[t].status))
    && (run.status.condition == Unknown("Running") || CancelStuck(run, listed, w))
  }

  lemma SoleUpToDate(run: Run, g: TaskGroup, listed: map<string, TaskRun>, w: World, t: string)
    requires RefersToGroup(run) && run.status.started && run.status.condition.Unknown?
    requires Fetch(run, w) == Some(g) && w.valid(g.spec) && !ListingUnclear(listed, w)
    requires listed.Keys == {t} && listed[t].status.Unfinished?
    ensures Reconciled(run, listed, w).status == run.status <==> run.status.storedSpec.Some? && Tracks(run, listed, w)
  {
    assert |listed| == |listed.Keys| == 1;
    assert DecideListed(run, g, listed, w) == Some(DecideSole(run, g, t, listed[t], w));
    assert CancelStuck(run, listed, w) <==> run.cancelled && w.cancelFails && !listed[t].cancelled;
  }

  lemma NoneUpToDate(run: Run, g: TaskGroup, listed: map<string, TaskRun>, w: World)
    requires RefersToGroup(run) && run.status.started && run.status.condition.Unknown?
    requires Fetch(run, w) == Some(g) && w.valid(g.spec) && !ListingUnclear(listed, w) && |listed| == 0
    requires run.status.taskRun.Some? || w.creatable(g.spec)
    ensures Reconciled(run, listed, w).status == run.status <==> run.status.storedSpec.Some? && Tracks(run, listed, w)
  {
    assert forall t :: t in listed ==> t in listed.Keys;
    assert listed.Keys == {};
  }

  lemma UnclearUpToDate(run: Run, g: TaskGroup, listed: map<string, TaskRun>, w: World)
    requires RefersToGroup(run) && run.status.started && run.status.condition.Unknown?
    requires Fetch(run, w) == Some(g) && w.valid(g.spec) && ListingUnclear(listed, w)
    ensures Reconciled(run, listed, w).status == run.status <==> run.status.storedSpec.Some?
  {
  }

  lemma UpToDateExactly(run: Run, listed: map<string, TaskRun>, w: World)
    requires run.status.condition.Unknown? && GoesOn(run, listed, w)
    ensures Reconciled(run, listed, w).status == run.status <==> UpToDate(run, listed, w)
  {
    if RefersToGroup(run) {
      if run.status.started {
        var g := Fetch(run, w).value;
        if ListingUnclear(listed, w) {
          UnclearUpToDate(run, g, listed, w);
        } else if |listed| == 0 {
          NoneUpToDate(run, g, listed, w);
        } else {
          var t := ListedOne(listed);
          SoleUpToDate(run, g, listed, w, t);
        }
      } else {
        GoesOnVerdict(run, listed, w);
        ReconciledConcludes(run, listed, w);
      }
    }
  }

  // ---- Taking back the end of a Run ----

  ghost predicate Done(s: Cluster, n: string) {
    n in s.runs && !s.runs[n].status.condition.Unknown?
  }

  predicate Observed(run: Run) {
    run.status.observedGeneration == run.generation
  }

  /** What takes back the end of a Run: its status is written; the copy that is read is not done, or not
      on its own generation; the copy goes on; and what it says has to be updated. */
  ghost predicate TakesBack(cached: Run, listed: map<string, TaskRun>, w: World, written: bool) {
    && written
    && (cached.status.condition.Unknown? || !Observed(cached))
    && GoesOn(PreProcess(cached), listed, w)
    && (!Observed(cached) || !UpToDate(cached, listed, w))
  }

  ghost predicate Reopens(s: Cluster, a: Action, n: string) {
    a.ReconcileRun? && a.run == n && n in s.runCache && TakesBack(s.runCache[n], Visible(s, n), a.world, a.written)
  }

  /** Whether the result of a reconciliation says anything new, for a copy that goes on. */
  lemma SaysNew(cached: Run, listed: map<string, TaskRun>, w: World)
    requires PreProcess(cached).status.condition.Unknown? && GoesOn(PreProcess(cached), listed, w)
    ensures PostProcess(Reconciled(PreProcess(cached), listed, w)).status != cached.status
            <==> !Observed(cached) || !UpToDate(cached, listed, w)
  {
    var r := Reconciled(PreProcess(cached), listed, w);
    ReconciledConcludes(PreProcess(cached), listed, w);
    if Observed(cached) {
      UpToDateExactly(cached, listed, w);
      assert PostProcess(r).status == r.status;
    }
  }

  lemma WrittenOver(runs: map<string, Run>, lister: map<string, Run>, v: Verdict, r: Run, w: World, cached: Run,
                    written: bool, n: string)
    requires n in runs && r.name == n
    ensures var runs' := WriteStatus(RunsAfter(runs, lister, v, r, w), cached, r, written);
      && n in runs'
      && runs'[n].status == if written &&
          PostProcess(r).status != cached.status then PostProcess(r).status else runs[n].status
  {
  }

  lemma ResultTakesBack(cached: Run, listed: map<string, TaskRun>, w: World, written: bool, r: Run)
    requires PreProcess(cached).status.condition.Unknown? && r == Reconciled(PreProcess(cached), listed, w)
    ensures TakesBack(cached, listed, w, written) <==>
            written && PostProcess(r).status != cached.status && PostProcess(r).status.condition.Unknown?
  {
    GoesOnExactly(PreProcess(cached), listed, w);
    if GoesOn(PreProcess(cached), listed, w) {
      SaysNew(cached, listed, w);
    }
  }

  lemma ReconcileReopens(s: Cluster, n: string, w: World, name: string, compiled: TaskSpec, written: bool, v: Verdict,
                         r: Run)
    requires Inv(s) && Concluded(s, n, w, name, v, r) && Done(s, n) && r == ResultAt(s, n, w)
    ensures var s' := Effect(s, n, w, name, compiled, written, v, r);
      n in s'.runs && (s'.runs[n].status.condition.Unknown? <==> TakesBack(s.runCache[n], Visible(s, n), w, written))
  {
    var cached, listed := s.runCache[n], Visible(s, n);
    assert r.name == n by { ViewSound(s, n); }
    if PreProcess(cached).status.condition.Unknown? {
      WrittenOver(s.runs, s.runCache, v, r, w, cached, written, n);
      ResultTakesBack(cached, listed, w, written, r);
    } else {
      DoneUntouched(s, n, w, name, compiled, written, v, r);
    }
  }

  /** A step takes back the end of a Run if and only if it is a reconciliation of the Run under exactly
      these conditions, all of which can be told before it. */
  lemma ReopensExactly(s: Cluster, a: Action, n: string)
    requires Inv(s) && Enabled(s, a) && Done(s, n)
    ensures Done(Next(s, a), n) <==> !Reopens(s, a, n)
  {
    if About(a, n) {
      if a.ReconcileRun? {
        EnabledConcludes(s, n, a.world, a.name, a.compiled, a.written);
        ReconcileReopens(s, n, a.world, a.name, a.compiled, a.written, VerdictAt(s, n, a.world), ResultAt(s, n,
            a.world));
      } else {
        EditLeaves(s, n, a.edited);
      }
    } else {
      OthersLeave(s, a, n);
    }
  }

  lemma StepReopens(states: seq<Cluster>, actions: seq<Action>, i: nat, n: string)
    requires Path(states, actions) && Init(states[0]) && i < |actions| && Done(states[i], n)
    ensures Done(states[i + 1], n) <==> !Reopens(states[i], actions[i], n)
  {
    ReachableInv(states, actions, i);
    assert StepAt(states, actions, i);
    ReopensExactly(states[i], actions[i], n);
  }

  /** Over whole runs: a Run that is done stays done exactly as long as no such reconciliation happens. */
  lemma {:induction false} StaysDoneExactly(states: seq<Cluster>, actions: seq<Action>, i: nat, j: nat, n: string)
    requires Path(states, actions) && Init(states[0]) && i <= j < |states| && Done(states[i], n)
    ensures (forall k :: i <= k <= j ==> Done(states[k], n)) <==>
              (forall k :: i <= k < j ==> !Reopens(states[k], actions[k], n))
  {
    if i < j {
      StaysDoneExactly(states, actions, i, j - 1, n);
      if forall k :: i <= k <= j - 1 ==> Done(states[k], n) {
        StepReopens(states, actions, j - 1, n);
      }
    }
  }

  // ---- Taking back the stored TaskGroup ----

  /** The TaskGroup a reconciliation of a copy without a stored one leaves on record. */
  function StoredBy(cached: Run, w: World): Option<TaskGroupSpec> {
    if RefersToGroup(cached) && Fetch(cached, w).Some? then Some(Fetch(cached, w).value.spec) else None
  }

  lemma StoredSpecOf(run: Run, listed: map<string, TaskRun>, w: World)
    requires run.status.condition.Unknown? && run.status.storedSpec == None
    ensures Reconciled(run, listed, w).status.storedSpec == StoredBy(run, w)
    ensures RefersToGroup(run) && Fetch(run, w).None? ==> !Reconciled(run, listed, w).status.condition.Unknown?
  {
    if RefersToGroup(run) && Fetch(run, w).Some? {
      var g := Fetch(run, w).value;
      ValidVerdictGroup(Start(run), g, listed, w);
      assert GroupOf(VerdictOn(run, listed, w)) == Some(g);
    }
  }

  lemma StoredResult(cached: Run, listed: map<string, TaskRun>, w: World, r: Run)
    requires PreProcess(cached).status.condition.Unknown? && cached.status.storedSpec == None
    requires r == Reconciled(PreProcess(cached), listed, w)
    ensures PostProcess(r).status.storedSpec == StoredBy(cached, w)
    ensures PostProcess(r).status != cached.status <==> RefersToGroup(cached) || !Observed(cached)
  {
    StoredSpecOf(PreProcess(cached), listed, w);
    StoredBySame(cached, w);
    GenerationsKept(PreProcess(cached), listed, w);
  }

  lemma GenerationsKept(run: Run, listed: map<string, TaskRun>, w: World)
    ensures var r := Reconciled(run, listed, w);
      r.generation == run.generation && (!RefersToGroup(run) ==> r == run)
  {
    ReconciledConcludes(run, listed, w);
  }

  lemma StoredBySame(cached: Run, w: World)
    ensures StoredBy(PreProcess(cached), w) == StoredBy(cached, w)
  {
  }

  /** A stored TaskGroup is lost to a reconciliation that reads a copy without one, if and only if that
      is written, the copy is not done or not on its own generation, and it brings another TaskGroup or
      none. */
  lemma StoredLostExactly(s: Cluster, n: string, w: World, name: string, compiled: TaskSpec, written: bool)
    requires Inv(s) && Enabled(s, ReconcileRun(n, w, name, compiled, written))
    requires n in s.runs && s.runs[n].status.storedSpec.Some? && s.runCache[n].status.storedSpec == None
    ensures var s' := AfterReconcile(s, n, w, name, compiled, written); var cached := s.runCache[n];
      n in s'.runs && (s'.runs[n].status.storedSpec != s.runs[n].status.storedSpec <==>
        && written
        && (cached.status.condition.Unknown? || !Observed(cached))
        && (RefersToGroup(cached) || !Observed(cached))
        && StoredBy(cached, w) != s.runs[n].status.storedSpec)
  {
    EnabledConcludes(s, n, w, name, compiled, written);
    StoredStep(s, n, w, name, compiled, written, VerdictAt(s, n, w), ResultAt(s, n, w));
  }

  lemma StoredOver(runs: map<string, Run>, lister: map<string, Run>, v: Verdict, r: Run, w: World, cached: Run,
                   listed: map<string, TaskRun>, written: bool, n: string)
    requires PreProcess(cached).status.condition.Unknown? && cached.status.storedSpec == None
    requires r == Reconciled(PreProcess(cached), listed, w) && n in runs && r.name == n
    ensures var runs' := WriteStatus(RunsAfter(runs, lister, v, r, w), cached, r, written);
      && n in runs'
      && runs'[n].status.storedSpec == if written &&
          (RefersToGroup(cached) || !Observed(cached)) then StoredBy(cached, w)
                                       else runs[n].status.storedSpec
  {
    StoredResult(cached, listed, w, r);
    WrittenOver(runs, lister, v, r, w, cached, written, n);
  }

  lemma StoredStep(s: Cluster, n: string, w: World, name: string, compiled: TaskSpec, written: bool, v: Verdict, r: Run)
    requires Inv(s) && Concluded(s, n, w, name, v, r) && r == ResultAt(s, n, w)
    requires n in s.runs && s.runCache[n].status.storedSpec == None
    ensures var s' := Effect(s, n, w, name, compiled, written, v, r); var cached := s.runCache[n];
      && n in s'.runs
      && s'.runs[n].status.storedSpec ==
           if written && PreProcess(cached).status.condition.Unknown? && (RefersToGroup(cached) || !Observed(cached))
           then StoredBy(cached, w) else s.runs[n].status.storedSpec
  {
    var cached := s.runCache[n];
    assert r.name == n by { ViewSound(s, n); }
    if PreProcess(cached).status.condition.Unknown? {
      StoredOver(s.runs, s.runCache, v, r, w, cached, Visible(s, n), written, n);
    } else {
      DoneUntouched(s, n, w, name, compiled, written, v, r);
    }
  }
}
