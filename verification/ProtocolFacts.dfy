/** What holds over whole runs of the system. */
module ProtocolFacts {
  import opened Text
  import opened Types
  import opened RunModel
  import opened Protocol

  // ---- A Run ends only on evidence ----

  /** However stale the listers and whichever writes get lost: a Run counts as succeeded, or as failed
      with reason Failed, only if a TaskRun made for it has ended that way. */
  lemma EndsOnEvidence(states: seq<Cluster>, actions: seq<Action>, i: nat, n: string)
    requires Path(states, actions) && Init(states[0]) && i < |states| && n in states[i].runs
    ensures states[i].runs[n].status.condition.True? ==> HasFinished(states[i].ever, n, true)
    ensures states[i].runs[n].status.condition == False("Failed") ==> HasFinished(states[i].ever, n, false)
    ensures states[i].runs[n].status.taskRun.Some? ==> HasTaskRun(states[i].ever, n)
  {
    ReachableInv(states, actions, i);
  }

  /** The controller cancels a TaskRun only if its Run was cancelled. */
  lemma CancelsOnRequest(states: seq<Cluster>, actions: seq<Action>, i: nat, t: string)
    requires Path(states, actions) && Init(states[0]) && i < |states| && t in states[i].sent
    ensures t in states[i].ever && states[i].ever[t].owner in states[i].runs
    ensures states[i].runs[states[i].ever[t].owner].cancelled
  {
    ReachableInv(states, actions, i);
  }

  /** Every TaskRun runs what a TaskGroup with steps, and with a name for each Task it uses, compiled
      to in the world of the reconciliation that made the TaskRun. */
  lemma MadeFromGated(states: seq<Cluster>, actions: seq<Action>, i: nat, t: string) returns (k: nat)
    requires Path(states, actions) && Init(states[0]) && i < |states| && t in states[i].ever
    ensures t in states[i].origin && MadeFrom(states[i].origin[t], states[i].ever[t].spec)
    ensures k < i && actions[k].ReconcileRun? && actions[k].name == t
    ensures states[i].origin[t].world == actions[k].world
    ensures Creates(states[k], actions[k]) && states[i].ever[t].owner == actions[k].run
  {
    ReachableInv(states, actions, i);
    assert TaskRunSound(states[i], t);
    k := MadeBy(states, actions, i, t);
  }

  ghost predicate Creates(s: Cluster, a: Action) {
    a.ReconcileRun? && a.run in s.runCache && VerdictAt(s, a.run, a.world).Creates?
  }

  lemma {:induction false} MadeBy(states: seq<Cluster>, actions: seq<Action>, i: nat, t: string) returns (k: nat)
    requires Path(states, actions) && Init(states[0]) && i < |states| && t in states[i].ever
    ensures k < i && Creates(states[k], actions[k]) && actions[k].name == t && t in states[i].origin
    ensures states[i].origin[t].world == actions[k].world && states[i].ever[t].owner == actions[k].run
  {
    assert StepAt(states, actions, i - 1);
    ReachableInv(states, actions, i - 1);
    if t in states[i - 1].ever {
      k := MadeBy(states, actions, i - 1, t);
      OriginStays(states[i - 1], actions[i - 1], t);
    } else {
      k := i - 1;
      OriginSet(states[k], actions[k], t);
    }
  }

  lemma OriginStays(s: Cluster, a: Action, t: string)
    requires Inv(s) && Enabled(s, a) && t in s.ever && t in s.origin
    ensures t in Next(s, a).origin && Next(s, a).origin[t] == s.origin[t]
    ensures t in Next(s, a).ever && Next(s, a).ever[t].owner == s.ever[t].owner
  {
    StepGrows(s, a);
  }

  lemma OriginSet(s: Cluster, a: Action, t: string)
    requires Inv(s) && Enabled(s, a) && t !in s.ever && t in Next(s, a).ever
    ensures Creates(s, a) && a.name == t && t in Next(s, a).origin
    ensures Next(s, a).origin[t].world == a.world && Next(s, a).ever[t].owner == a.run
  {
    if a.ReconcileRun? {
      EnabledConcludes(s, a.run, a.world, a.name, a.compiled, a.written);
      ViewSound(s, a.run);
      CreatedOrigin(s, a.run, a.world, a.name, a.compiled, a.written, VerdictAt(s, a.run, a.world),
                    ResultAt(s, a.run, a.world), t);
    }
  }

  lemma CreatedOrigin(s: Cluster, n: string, w: World, name: string, compiled: TaskSpec, written: bool, v: Verdict,
                      r: Run, t: string)
    requires n in s.runCache && r.name == n && t !in s.ever
    requires t in Effect(s, n, w, name, compiled, written, v, r).ever
    ensures var s' := Effect(s, n, w, name, compiled, written, v, r);
      v.Creates? && name == t && t in s'.origin && s'.origin[t].world == w && s'.ever[t].owner == n
  {
  }

  // ---- At most one TaskRun ----

  /** An earlier creation is seen: the TaskRun is listed, or its status is on record. */
  ghost predicate Sees(s: Cluster, n: string) {
    n in s.runCache && (|Visible(s, n)| > 0 || s.runCache[n].status.taskRun.Some?)
  }

  ghost predicate AtMostOne(ever: map<string, TaskRun>) {
    forall n, t, u :: Owned(ever, n, t) && Owned(ever, n, u) ==> t == u
  }

  lemma TaskRunsStayOne(ever: map<string, TaskRun>, n: string, v: Verdict, name: string, r: Run, compiled: TaskSpec)
    requires AtMostOne(ever) && name !in ever && r.name == n
    requires v.Creates? ==> !HasTaskRun(ever, n)
    ensures AtMostOne(TaskRunsAfter(ever, v, name, r, compiled))
  {
    var ever' := TaskRunsAfter(ever, v, name, r, compiled);
    forall m, t, u | Owned(ever', m, t) && Owned(ever', m, u) ensures t == u {
      assert t != name ==> Owned(ever, m, t);
      assert u != name ==> Owned(ever, m, u);
    }
  }

  lemma OtherStepsStayOne(s: Cluster, a: Action)
    requires Enabled(s, a) && !a.ReconcileRun? && AtMostOne(s.ever)
    ensures AtMostOne(Next(s, a).ever)
  {
    forall m, t, u | Owned(Next(s, a).ever, m, t) && Owned(Next(s, a).ever, m, u) ensures t == u {
      assert Owned(s.ever, m, t) && Owned(s.ever, m, u);
    }
  }

  lemma {:induction false} GrowsAlong(states: seq<Cluster>, actions: seq<Action>, i: nat, j: nat)
    requires Path(states, actions) && i <= j < |states|
    ensures Grows(states[i].ever, states[j].ever)
  {
    if i < j {
      GrowsAlong(states, actions, i, j - 1);
      assert StepAt(states, actions, j - 1);
      StepGrows(states[j - 1], actions[j - 1]);
      GrowsTwice(states[i].ever, states[j - 1].ever, states[j].ever);
    }
  }

  lemma GrowsTwice(a: map<string, TaskRun>, b: map<string, TaskRun>, c: map<string, TaskRun>)
    requires Grows(a, b) && Grows(b, c)
    ensures Grows(a, c)
  {
    forall t | t in a ensures t in c && TaskRunLater(a[t], c[t]) {
      assert TaskRunLater(a[t], b[t]) && TaskRunLater(b[t], c[t]);
    }
  }

  lemma FinishedLater(ever: map<string, TaskRun>, ever': map<string, TaskRun>, n: string, success: bool)
    requires Grows(ever, ever') && HasFinished(ever, n, success)
    ensures HasFinished(ever', n, success)
  {
    var t :| Owned(ever, n, t) && ever[t].status == Finished(success);
    assert TaskRunLater(ever[t], ever'[t]) && Owned(ever', n, t);
  }

  // ---- Steps that are not about a Run ----

  ghost predicate SameTaskRuns(ever: map<string, TaskRun>, ever': map<string, TaskRun>, n: string) {
    forall t :: Owned(ever', n, t) <==> Owned(ever, n, t)
  }

  ghost predicate SameSent(s: Cluster, s': Cluster, n: string) {
    forall t :: Owned(s.ever, n, t) ==> (t in s'.sent <==> t in s.sent)
  }

  predicate About(a: Action, n: string) {
    (a.ReconcileRun? || a.EditRun?) && a.run == n
  }

  lemma RunsElsewhere(runs: map<string, Run>, lister: map<string, Run>, v: Verdict, r: Run, w: World, cached: Run,
                      written: bool, n: string)
    requires r.name != n && n in runs
    ensures var runs' := WriteStatus(RunsAfter(runs, lister, v, r, w), cached, r, written);
      n in runs' && runs'[n] == runs[n]
  {
  }

  lemma TaskRunsElsewhere(ever: map<string, TaskRun>, v: Verdict, name: string, r: Run, compiled: TaskSpec, n: string)
    requires r.name != n && name !in ever
    ensures SameTaskRuns(ever, TaskRunsAfter(ever, v, name, r, compiled), n)
  {
  }

  lemma EffectElsewhere(s: Cluster, m: string, w: World, name: string, compiled: TaskSpec, written: bool, v: Verdict,
                        r: Run, n: string)
    requires Inv(s) && Concluded(s, m, w, name, v, r) && m != n && n in s.runs
    ensures var s' := Effect(s, m, w, name, compiled, written, v, r);
      && n in s'.runs && s'.runs[n] == s.runs[n] && s'.runCache == s.runCache
      && SameTaskRuns(s.ever, s'.ever, n) && SameSent(s, s', n)
  {
    assert r.name == m by { ViewSound(s, m); }
    RunsElsewhere(s.runs, s.runCache, v, r, w, s.runCache[m], written, n);
    TaskRunsElsewhere(s.ever, v, name, r, compiled, n);
    if v.Running? && v.cancel {
      VerdictOwned(s, m, w, name, v, r);
      SentElsewhere(s, Effect(s, m, w, name, compiled, written, v, r), m, v.name, n);
    }
  }

  lemma SentElsewhere(s: Cluster, s': Cluster, m: string, t: string, n: string)
    requires m != n && Owned(s.ever, m, t) && s'.sent == s.sent + {t}
    ensures SameSent(s, s', n)
  {
  }

  /** A step that neither reconciles nor cancels a Run leaves it and its TaskRuns to themselves. */
  lemma OthersLeave(s: Cluster, a: Action, n: string)
    requires Inv(s) && Enabled(s, a) && !About(a, n) && n in s.runs
    ensures n in Next(s, a).runs && Next(s, a).runs[n] == s.runs[n]
    ensures SameTaskRuns(s.ever, Next(s, a).ever, n) && SameSent(s, Next(s, a), n)
    ensures n in Next(s, a).runCache ==>
              (n in s.runCache && Next(s, a).runCache[n] == s.runCache[n]) || Next(s, a).runCache[n] == s.runs[n]
    ensures n in s.runCache ==> n in Next(s, a).runCache
  {
    if a.ReconcileRun? {
      EnabledConcludes(s, a.run, a.world, a.name, a.compiled, a.written);
      EffectElsewhere(s, a.run, a.world, a.name, a.compiled, a.written, VerdictAt(s, a.run, a.world), ResultAt(s,
          a.run, a.world), n);
    } else {
      OutsideLeaves(s, a, n);
    }
  }

  lemma OutsideLeaves(s: Cluster, a: Action, n: string)
    requires Enabled(s, a) && !a.ReconcileRun? && !About(a, n) && n in s.runs
    ensures var s' := Next(s, a);
      && n in s'.runs && s'.runs[n] == s.runs[n] && SameTaskRuns(s.ever, s'.ever, n) && SameSent(s, s', n)
      && (n in s'.runCache ==> (n in s.runCache && s'.runCache[n] == s.runCache[n]) || s'.runCache[n] == s.runs[n])
      && (n in s.runCache ==> n in s'.runCache)
  {
  }

  /** An edit leaves the status to itself, and everything else. */
  lemma EditLeaves(s: Cluster, n: string, edited: Run)
    requires Enabled(s, EditRun(n, edited))
    ensures var s' := Next(s, EditRun(n, edited));
      && n in s'.runs && s'.runs[n].status == s.runs[n].status && s'.ever == s.ever
      && s'.runCache == s.runCache && s'.sent == s.sent
  {
  }

  // ---- Once on record, never created again ----

  /** The TaskRun's status is on record, on the server and in the lister. */
  ghost predicate OnRecord(s: Cluster, n: string) {
    && n in s.runs && s.runs[n].status.taskRun.Some?
    && n in s.runCache && s.runCache[n].status.taskRun.Some?
  }

  lemma NoSecondRecord(ever: map<string, TaskRun>, v: Verdict, name: string, r: Run, compiled: TaskSpec, n: string)
    requires !v.Creates? && name !in ever
    ensures SameTaskRuns(ever, TaskRunsAfter(ever, v, name, r, compiled), n)
  {
  }

  lemma RecordStays(s: Cluster, n: string, w: World, name: string, compiled: TaskSpec, written: bool, v: Verdict,
                    r: Run)
    requires Concluded(s, n, w, name, v, r) && OnRecord(s, n)
    ensures var s' := Effect(s, n, w, name, compiled, written, v, r);
      OnRecord(s', n) && SameTaskRuns(s.ever, s'.ever, n)
  {
    RunsUpdated(s.runs, s.runCache, v, r, w, s.runCache[n], written);
    NoSecondRecord(s.ever, v, name, r, compiled, n);
  }

  lemma StepKeepsRecord(s: Cluster, a: Action, n: string)
    requires Inv(s) && Enabled(s, a) && OnRecord(s, n)
    ensures OnRecord(Next(s, a), n) && SameTaskRuns(s.ever, Next(s, a).ever, n)
  {
    if About(a, n) {
      if a.ReconcileRun? {
        EnabledConcludes(s, n, a.world, a.name, a.compiled, a.written);
        RecordStays(s, n, a.world, a.name, a.compiled, a.written, VerdictAt(s, n, a.world), ResultAt(s, n, a.world));
      } else {
        EditLeaves(s, n, a.edited);
      }
    } else {
      OthersLeave(s, a, n);
    }
  }

  lemma {:induction false} RecordKept(states: seq<Cluster>, actions: seq<Action>, i: nat, j: nat, n: string)
    requires Path(states, actions) && Init(states[0]) && i <= j < |states| && OnRecord(states[i], n)
    ensures OnRecord(states[j], n) && SameTaskRuns(states[i].ever, states[j].ever, n)
  {
    if i < j {
      RecordKept(states, actions, i, j - 1, n);
      ReachableInv(states, actions, j - 1);
      assert StepAt(states, actions, j - 1);
      StepKeepsRecord(states[j - 1], actions[j - 1], n);
    }
  }

  /** Once the lister has the TaskRun on record, no other is ever created for the Run, even if the TaskRun
      is deleted. */
  lemma NeverRecreated(states: seq<Cluster>, actions: seq<Action>, i: nat, j: nat, n: string)
    requires Path(states, actions) && Init(states[0]) && i <= j < |states|
    requires n in states[i].runCache && states[i].runCache[n].status.taskRun.Some?
    ensures OnRecord(states[j], n) && SameTaskRuns(states[i].ever, states[j].ever, n)
  {
    AlwaysRemembers(states, actions, i, n);
    RecordKept(states, actions, i, j, n);
  }

  /** What the lister has on record, the server has. */
  ghost predicate Remembers(s: Cluster, n: string) {
    n in s.runCache ==>
      && n in s.runs
      && (s.runCache[n].status.storedSpec.Some? ==> s.runs[n].status.storedSpec == s.runCache[n].status.storedSpec)
      && (s.runCache[n].status.taskRun.Some? ==> s.runs[n].status.taskRun.Some?)
  }

  lemma ReconcileRemembers(s: Cluster, n: string, w: World, name: string, compiled: TaskSpec, written: bool, v: Verdict,
                           r: Run)
    requires Concluded(s, n, w, name, v, r) && Remembers(s, n) && r.name == n
    ensures Remembers(Effect(s, n, w, name, compiled, written, v, r), n)
  {
    OneOrOther(s.runs, s.runCache, v, r, w, s.runCache[n], written, n);
  }

  lemma StepRemembers(s: Cluster, a: Action, n: string)
    requires Inv(s) && Enabled(s, a) && Remembers(s, n)
    ensures Remembers(Next(s, a), n)
  {
    if About(a, n) {
      if a.ReconcileRun? {
        EnabledConcludes(s, n, a.world, a.name, a.compiled, a.written);
        ViewSound(s, n);
        ReconcileRemembers(s, n, a.world, a.name, a.compiled, a.written, VerdictAt(s, n, a.world), ResultAt(s, n,
            a.world));
      } else {
        EditLeaves(s, n, a.edited);
      }
    } else if n in s.runs {
      OthersLeave(s, a, n);
    } else {
      StaysUnknown(s, a, n);
    }
  }

  lemma StaysUnknown(s: Cluster, a: Action, n: string)
    requires Enabled(s, a) && n !in s.runs && n !in s.runCache
    ensures n !in Next(s, a).runCache
  {
  }

  lemma {:induction false} AlwaysRemembers(states: seq<Cluster>, actions: seq<Action>, i: nat, n: string)
    requires Path(states, actions) && Init(states[0]) && i < |states|
    ensures Remembers(states[i], n)
  {
    if i > 0 {
      AlwaysRemembers(states, actions, i - 1, n);
      ReachableInv(states, actions, i - 1);
      assert StepAt(states, actions, i - 1);
      StepRemembers(states[i - 1], actions[i - 1], n);
    }
  }

  /** The stored TaskGroup is the same on the server and in the lister. */
  ghost predicate StoredAs(s: Cluster, n: string, spec: TaskGroupSpec) {
    && n in s.runs && s.runs[n].status.storedSpec == Some(spec)
    && n in s.runCache && s.runCache[n].status.storedSpec == Some(spec)
  }

  lemma StoredStays(s: Cluster, n: string, w: World, name: string, compiled: TaskSpec, written: bool, v: Verdict,
                    r: Run, spec: TaskGroupSpec)
    requires Concluded(s, n, w, name, v, r) && StoredAs(s, n, spec)
    ensures StoredAs(Effect(s, n, w, name, compiled, written, v, r), n, spec)
  {
    RunsUpdated(s.runs, s.runCache, v, r, w, s.runCache[n], written);
  }

  lemma StepKeepsStored(s: Cluster, a: Action, n: string, spec: TaskGroupSpec)
    requires Inv(s) && Enabled(s, a) && StoredAs(s, n, spec)
    ensures StoredAs(Next(s, a), n, spec)
  {
    if About(a, n) {
      if a.ReconcileRun? {
        EnabledConcludes(s, n, a.world, a.name, a.compiled, a.written);
        StoredStays(s, n, a.world, a.name, a.compiled, a.written, VerdictAt(s, n, a.world), ResultAt(s, n, a.world),
            spec);
      } else {
        EditLeaves(s, n, a.edited);
      }
    } else {
      OthersLeave(s, a, n);
    }
  }

  lemma {:induction false} StoredKept(states: seq<Cluster>, actions: seq<Action>, i: nat, j: nat, n: string,
                                      spec: TaskGroupSpec)
    requires Path(states, actions) && Init(states[0]) && i <= j < |states| && StoredAs(states[i], n, spec)
    ensures StoredAs(states[j], n, spec)
  {
    if i < j {
      StoredKept(states, actions, i, j - 1, n, spec);
      ReachableInv(states, actions, j - 1);
      assert StepAt(states, actions, j - 1);
      StepKeepsStored(states[j - 1], actions[j - 1], n, spec);
    }
  }

  /** Once the lister has a stored spec, that is the one the server has, for good: later changes of the
      TaskGroup do not reach it. */
  lemma StoredOnce(states: seq<Cluster>, actions: seq<Action>, i: nat, j: nat, n: string, spec: TaskGroupSpec)
    requires Path(states, actions) && Init(states[0]) && i <= j < |states|
    requires n in states[i].runCache && states[i].runCache[n].status.storedSpec == Some(spec)
    ensures StoredAs(states[j], n, spec)
  {
    AlwaysRemembers(states, actions, i, n);
    StoredKept(states, actions, i, j, n, spec);
  }

  // ---- Done is done ----

  /** Reconciliations of the Run read a copy, stale or not, that is done on its own generation. */
  ghost predicate ReadsDone(s: Cluster, a: Action, n: string) {
    a.ReconcileRun? && a.run == n ==>
      && n in s.runCache && !s.runCache[n].status.condition.Unknown?
      && s.runCache[n].status.observedGeneration == s.runCache[n].generation
  }

  lemma NothingWritten(runs: map<string, Run>, lister: map<string, Run>, v: Verdict, r: Run, w: World, cached: Run,
                       written: bool, n: string)
    requires n in runs && PostProcess(r).status == cached.status
    ensures var runs' := WriteStatus(RunsAfter(runs, lister, v, r, w), cached, r, written);
      n in runs' && runs'[n].status == runs[n].status
  {
  }

  lemma DoneUntouched(s: Cluster, n: string, w: World, name: string, compiled: TaskSpec, written: bool, v: Verdict,
                      r: Run)
    requires Inv(s) && Concluded(s, n, w, name, v, r) && n in s.runs
    requires !s.runCache[n].status.condition.Unknown?
    requires s.runCache[n].status.observedGeneration == s.runCache[n].generation
    ensures var s' := Effect(s, n, w, name, compiled, written, v, r);
      n in s'.runs && s'.runs[n].status == s.runs[n].status
  {
    assert View(s, n) == s.runCache[n] && s.runCache[n].status.started;
    assert r == s.runCache[n];
    NothingWritten(s.runs, s.runCache, v, r, w, s.runCache[n], written, n);
  }

  /** While reconciliations of it read copies that are done, however stale, and whatever the user does
      to its spec, the status of a Run does not change. */
  lemma {:induction false} DoneForGood(states: seq<Cluster>, actions: seq<Action>, i: nat, j: nat, n: string)
    requires Path(states, actions) && Init(states[0]) && i <= j < |states| && n in states[i].runs
    requires forall k :: i <= k < j ==> ReadsDone(states[k], actions[k], n)
    ensures n in states[j].runs && states[j].runs[n].status == states[i].runs[n].status
  {
    if i < j {
      DoneForGood(states, actions, i, j - 1, n);
      ReachableInv(states, actions, j - 1);
      assert StepAt(states, actions, j - 1);
      DoneStep(states[j - 1], actions[j - 1], n);
    }
  }

  lemma DoneStep(s: Cluster, a: Action, n: string)
    requires Inv(s) && Enabled(s, a) && n in s.runs && ReadsDone(s, a, n)
    ensures n in Next(s, a).runs && Next(s, a).runs[n].status == s.runs[n].status
  {
    if About(a, n) {
      if a.ReconcileRun? {
        EnabledConcludes(s, n, a.world, a.name, a.compiled, a.written);
        DoneUntouched(s, n, a.world, a.name, a.compiled, a.written, VerdictAt(s, n, a.world), ResultAt(s, n, a.world));
      } else {
        EditLeaves(s, n, a.edited);
      }
    } else {
      OthersLeave(s, a, n);
    }
  }

  // ---- Several TaskRuns ----

  /** A reconciliation of the Run sees more than one TaskRun with its label. */
  ghost predicate SeveralSeen(s: Cluster, a: Action, n: string) {
    a.ReconcileRun? && a.run == n ==> n in s.runCache && |Visible(s, n)| > 1
  }

  lemma SeveralInert(s: Cluster, n: string, w: World, name: string, compiled: TaskSpec, written: bool, v: Verdict,
                     r: Run)
    requires Inv(s) && Concluded(s, n, w, name, v, r) && n in s.runs && |Visible(s, n)| > 1
    ensures var s' := Effect(s, n, w, name, compiled, written, v, r);
      n in s'.runs && s'.ever == s.ever && s'.sent == s.sent
  {
    assert !v.Creates? && !v.Running?;
    InertEffect(s, n, w, name, compiled, written, v, r);
  }

  lemma InertEffect(s: Cluster, n: string, w: World, name: string, compiled: TaskSpec, written: bool, v: Verdict,
                    r: Run)
    requires n in s.runCache && n in s.runs && !v.Creates? && !v.Running?
    ensures var s' := Effect(s, n, w, name, compiled, written, v, r);
      n in s'.runs && s'.ever == s.ever && s'.sent == s.sent
  {
    RunsUpdated(s.runs, s.runCache, v, r, w, s.runCache[n], written);
  }

  lemma SeveralStep(s: Cluster, a: Action, n: string)
    requires Inv(s) && Enabled(s, a) && n in s.runs && SeveralSeen(s, a, n)
    ensures n in Next(s, a).runs && SameTaskRuns(s.ever, Next(s, a).ever, n) && SameSent(s, Next(s, a), n)
  {
    if About(a, n) {
      if a.ReconcileRun? {
        EnabledConcludes(s, n, a.world, a.name, a.compiled, a.written);
        SeveralInert(s, n, a.world, a.name, a.compiled, a.written, VerdictAt(s, n, a.world), ResultAt(s, n, a.world));
      } else {
        EditLeaves(s, n, a.edited);
      }
    } else {
      OthersLeave(s, a, n);
    }
  }

  /** While reconciliations of a Run see several TaskRuns with its label, none is created or cancelled
      for it: not with stale copies of the Run, and not if the user cancels it. */
  lemma {:induction false} SeveralAbsorb(states: seq<Cluster>, actions: seq<Action>, i: nat, j: nat, n: string)
    requires Path(states, actions) && Init(states[0]) && i <= j < |states| && n in states[i].runs
    requires forall k :: i <= k < j ==> SeveralSeen(states[k], actions[k], n)
    ensures n in states[j].runs
    ensures SameTaskRuns(states[i].ever, states[j].ever, n)
    ensures SameSent(states[i], states[j], n)
  {
    if i < j {
      SeveralAbsorb(states, actions, i, j - 1, n);
      ReachableInv(states, actions, j - 1);
      assert StepAt(states, actions, j - 1);
      SeveralStep(states[j - 1], actions[j - 1], n);
    }
  }

  /** The reconciliation also finds the TaskGroup of the copy it reads, and it is valid. */
  ghost predicate SeveralLoaded(s: Cluster, a: Action, n: string) {
    && SeveralSeen(s, a, n)
    && (a.ReconcileRun? && a.run == n ==>
          Fetch(s.runCache[n], a.world).Some? && a.world.valid(Fetch(s.runCache[n], a.world).value.spec))
  }

  ghost predicate Ongoing(s: Cluster, n: string) {
    n in s.runs && s.runs[n].status.condition.Unknown?
  }

  lemma SeveralVerdict(run: Run, listed: map<string, TaskRun>, w: World)
    requires run.status.condition.Unknown? && |listed| > 1
    requires Fetch(run, w).Some? && w.valid(Fetch(run, w).value.spec)
    ensures var v := VerdictOn(run, listed, w); v.Foreign? || v.Unlistable? || v.Ambiguous?
    ensures var r := Reconciled(run, listed, w);
      && r.status.condition.Unknown?
      && (run.status.started ==> r.status.condition == run.status.condition && r.status.started)
  {
  }

  lemma OneOrOther(runs: map<string, Run>, lister: map<string, Run>, v: Verdict, r: Run, w: World, cached: Run,
                   written: bool, n: string)
    requires n in runs && r.name == n
    ensures var runs' := WriteStatus(RunsAfter(runs, lister, v, r, w), cached, r, written);
      n in runs' && (runs'[n].status == runs[n].status || runs'[n].status == PostProcess(r).status)
  {
  }

  lemma OngoingEffect(s: Cluster, n: string, w: World, name: string, compiled: TaskSpec, written: bool, v: Verdict,
                      r: Run)
    requires n in s.runCache && Ongoing(s, n) && r.name == n && r.status.condition.Unknown?
    ensures Ongoing(Effect(s, n, w, name, compiled, written, v, r), n)
  {
    OneOrOther(s.runs, s.runCache, v, r, w, s.runCache[n], written, n);
  }

  lemma SeveralOngoing(s: Cluster, n: string, w: World, name: string, compiled: TaskSpec, written: bool, v: Verdict,
                       r: Run)
    requires Inv(s) && Concluded(s, n, w, name, v, r) && Ongoing(s, n)
    requires View(s, n).status.condition.Unknown? ==> r.status.condition.Unknown?
    ensures Ongoing(Effect(s, n, w, name, compiled, written, v, r), n)
  {
    if View(s, n).status.condition.Unknown? {
      ViewSound(s, n);
      OngoingEffect(s, n, w, name, compiled, written, v, r);
    } else {
      DoneUntouched(s, n, w, name, compiled, written, v, r);
    }
  }

  lemma SeveralResult(cached: Run, listed: map<string, TaskRun>, w: World)
    requires |listed| > 1 && Fetch(cached, w).Some? && w.valid(Fetch(cached, w).value.spec)
    ensures var view := PreProcess(cached);
      view.status.condition.Unknown? ==> Reconciled(view, listed, w).status.condition.Unknown?
  {
    if PreProcess(cached).status.condition.Unknown? {
      SeveralVerdict(PreProcess(cached), listed, w);
    }
  }

  lemma OngoingStep(s: Cluster, a: Action, n: string)
    requires Inv(s) && Enabled(s, a) && Ongoing(s, n) && SeveralLoaded(s, a, n)
    ensures Ongoing(Next(s, a), n)
  {
    if About(a, n) {
      if a.ReconcileRun? {
        EnabledConcludes(s, n, a.world, a.name, a.compiled, a.written);
        SeveralResult(s.runCache[n], Visible(s, n), a.world);
        SeveralOngoing(s, n, a.world, a.name, a.compiled, a.written, VerdictAt(s, n, a.world), ResultAt(s, n, a.world));
      } else {
        EditLeaves(s, n, a.edited);
      }
    } else {
      OthersLeave(s, a, n);
    }
  }

  /** If they also find its TaskGroup, valid, a Run that is not done stays so, again with stale copies
      and cancellations. */
  lemma {:induction false} SeveralStaysOngoing(states: seq<Cluster>, actions: seq<Action>, i: nat, j: nat, n: string)
    requires Path(states, actions) && Init(states[0]) && i <= j < |states| && Ongoing(states[i], n)
    requires forall k :: i <= k < j ==> SeveralLoaded(states[k], actions[k], n)
    ensures Ongoing(states[j], n)
  {
    if i < j {
      SeveralStaysOngoing(states, actions, i, j - 1, n);
      ReachableInv(states, actions, j - 1);
      assert StepAt(states, actions, j - 1);
      OngoingStep(states[j - 1], actions[j - 1], n);
    }
  }

  /** The Run is not edited, and reconciliations of it read what the server has. */
  ghost predicate CurrentReads(s: Cluster, a: Action, n: string) {
    && (a.EditRun? ==> a.run != n)
    && (a.ReconcileRun? && a.run == n ==> n in s.runs && n in s.runCache && s.runCache[n] == s.runs[n])
  }

  ghost predicate OngoingAs(s: Cluster, n: string, condition: Condition, generation: nat) {
    && n in s.runs && s.runs[n].status.started && s.runs[n].status.condition == condition && condition.Unknown?
    && s.runs[n].generation == generation == s.runs[n].status.observedGeneration
  }

  lemma SeveralLeave(s: Cluster, n: string, w: World, name: string, compiled: TaskSpec, written: bool, v: Verdict,
                     r: Run, condition: Condition, generation: nat)
    requires Inv(s) && Concluded(s, n, w, name, v, r) && OngoingAs(s, n, condition, generation) &&
              s.runCache[n] == s.runs[n]
    requires v.Foreign? || v.Unlistable? || v.Ambiguous?
    ensures OngoingAs(Effect(s, n, w, name, compiled, written, v, r), n, condition, generation)
  {
    assert View(s, n) == s.runs[n];
    OngoingWritten(s.runs, s.runCache, v, r, w, s.runCache[n], written, n);
  }

  lemma OngoingWritten(runs: map<string, Run>, lister: map<string, Run>, v: Verdict, r: Run, w: World, cached: Run,
                       written: bool, n: string)
    requires n in runs && r.name == n && r.generation == runs[n].generation == runs[n].status.observedGeneration
    ensures var runs' := WriteStatus(RunsAfter(runs, lister, v, r, w), cached, r, written);
      && n in runs' && runs'[n].generation == runs[n].generation == runs'[n].status.observedGeneration
      && (runs'[n].status == runs[n].status || runs'[n].status == PostProcess(r).status)
  {
  }

  lemma SeveralHoldStep(s: Cluster, a: Action, n: string, condition: Condition, generation: nat)
    requires Inv(s) && Enabled(s, a) && OngoingAs(s, n, condition, generation)
    requires SeveralLoaded(s, a, n) && CurrentReads(s, a, n)
    ensures OngoingAs(Next(s, a), n, condition, generation)
  {
    if About(a, n) {
      EnabledConcludes(s, n, a.world, a.name, a.compiled, a.written);
      SeveralVerdict(View(s, n), Visible(s, n), a.world);
      SeveralLeave(s, n, a.world, a.name, a.compiled, a.written, VerdictAt(s, n, a.world), ResultAt(s, n, a.world),
                   condition, generation);
    } else {
      OthersLeave(s, a, n);
    }
  }

  /** With current reads of a Run that is not edited not even the reason of its condition changes. */
  lemma {:induction false} SeveralHold(states: seq<Cluster>, actions: seq<Action>, i: nat, j: nat, n: string,
                                       condition: Condition, generation: nat)
    requires Path(states, actions) && Init(states[0]) && i <= j < |states| &&
              OngoingAs(states[i], n, condition, generation)
    requires forall k :: i <= k < j ==>
              SeveralLoaded(states[k], actions[k], n) && CurrentReads(states[k], actions[k], n)
    ensures OngoingAs(states[j], n, condition, generation)
  {
    if i < j {
      SeveralHold(states, actions, i, j - 1, n, condition, generation);
      ReachableInv(states, actions, j - 1);
      assert StepAt(states, actions, j - 1);
      SeveralHoldStep(states[j - 1], actions[j - 1], n, condition, generation);
    }
  }
}
