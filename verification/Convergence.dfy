/** With listers up to date, API calls that succeed and a world that does not change, reconciling
    twice reaches a fixed point. */
module Convergence {
  import opened Text
  import opened Types
  import opened RunModel
  import opened Protocol

  predicate Healthy(w: World) {
    !w.listFails && !w.cancelFails && !w.labelPatchFails
  }

  /** The TaskRuns on the server. */
  function LiveTaskRuns(s: Cluster): map<string, TaskRun> {
    map t | t in s.live && t in s.ever :: s.ever[t]
  }

  function Synced(s: Cluster): Cluster {
    s.(runCache := s.runs, taskRunCache := LiveTaskRuns(s))
  }

  /** A reconciliation with listers up to date whose status write is not lost. */
  ghost function Round(s: Cluster, n: string, w: World, name: string, compiled: TaskSpec): Cluster
    requires n in s.runs
  {
    AfterReconcile(Synced(s), n, w, name, compiled, true)
  }

  /** Everything the API server stores. */
  predicate SameServer(s: Cluster, s': Cluster) {
    s'.runs == s.runs && s'.ever == s.ever && s'.live == s.live
  }

  /** The TaskRuns on the server that carry the Run's label. */
  function OfRun(s: Cluster, run: Run): map<string, TaskRun> {
    Listed(LiveTaskRuns(s), run)
  }

  // ---- What a reconciliation changes of a Run ----

  ghost predicate OnlyGrows(run: Run, r: Run) {
    && r == run.(labels := r.labels, annotations := r.annotations, status := r.status)
    && run.labels + r.labels == r.labels && run.annotations + r.annotations == r.annotations
  }

  lemma GroupLabelsGrow(labels: Labels, g: TaskGroup)
    ensures labels + GroupLabels(labels, g) == GroupLabels(labels, g)
    ensures GroupLabels(GroupLabels(labels, g), g) == GroupLabels(labels, g)
  {
  }

  lemma OverlayTwice(a: Labels, b: Labels)
    ensures a + (a + b) == a + b && (a + b) + b == a + b
  {
  }

  lemma AfterOnlyGrows(run: Run, v: Verdict)
    ensures OnlyGrows(run, After(run, v))
    ensures GroupOf(v).None? ==> After(run, v).labels == run.labels && After(run, v).annotations == run.annotations
  {
    if GroupOf(v).Some? {
      GroupLabelsGrow(run.labels, GroupOf(v).value);
      OverlayTwice(run.annotations, GroupOf(v).value.annotations);
    } else {
      assert run.labels + run.labels == run.labels && run.annotations + run.annotations == run.annotations;
    }
  }

  lemma ReconciledOnlyGrows(run: Run, listed: map<string, TaskRun>, w: World)
    ensures var v, r := VerdictOn(run, listed, w), Reconciled(run, listed, w);
      OnlyGrows(run, r) && (v.Foreign? || v.AlreadyDone? ==> r.labels == run.labels && r.annotations == run.annotations)
  {
    if RefersToGroup(run) {
      AfterOnlyGrows(Start(run), Decide(Start(run), listed, w));
    } else {
      assert run.labels + run.labels == run.labels && run.annotations + run.annotations == run.annotations;
    }
  }

  /** What the server stores after a round is what the reconciliation left. */
  lemma WrittenAsLeft(runs: map<string, Run>, n: string, v: Verdict, r: Run, w: World)
    requires n in runs && runs[n].name == n && Healthy(w) && OnlyGrows(PreProcess(runs[n]), r)
    requires v.Foreign? || v.AlreadyDone? ==> r.labels == runs[n].labels && r.annotations == runs[n].annotations
    ensures WriteStatus(RunsAfter(runs, runs, v, r, w), runs[n], r, true) == runs[n := PostProcess(r)]
  {
    var patched := RunsAfter(runs, runs, v, r, w);
    assert patched[n].labels == r.labels && patched[n].annotations == r.annotations;
    assert patched == runs[n := patched[n]];
  }

  // ---- Fixed points ----

  /** The TaskGroup's labels, annotations and spec are already on the Run. */
  ghost predicate Loaded(x: Run, g: TaskGroup, w: World) {
    && RefersToGroup(x) && x.status.started && x.status.condition.Unknown?
    && Fetch(x, w) == Some(g) && w.valid(g.spec)
    && GroupLabels(x.labels, g) == x.labels && x.annotations + g.annotations == x.annotations
    && x.status.storedSpec.Some?
  }

  lemma DoneIsFixed(x: Run, listed: map<string, TaskRun>, w: World)
    requires !x.status.condition.Unknown? && (RefersToGroup(x) ==> x.status.started)
    ensures Reconciled(x, listed, w) == x
    ensures var v := VerdictOn(x, listed, w); v.Foreign? || v.AlreadyDone?
  {
  }

  lemma SeveralIsFixed(x: Run, g: TaskGroup, listed: map<string, TaskRun>, w: World)
    requires Loaded(x, g, w) && Healthy(w) && |listed| > 1
    ensures Reconciled(x, listed, w) == x && VerdictOn(x, listed, w) == Ambiguous(g)
  {
  }

  lemma RecordedIsFixed(x: Run, g: TaskGroup, listed: map<string, TaskRun>, w: World)
    requires Loaded(x, g, w) && Healthy(w) && |listed| == 0
    requires x.status.taskRun.Some? && x.status.condition == Unknown("Running")
    ensures Reconciled(x, listed, w) == x && VerdictOn(x, listed, w) == Recorded(g)
  {
  }

  lemma RunningIsFixed(x: Run, g: TaskGroup, t: string, tr: TaskRun, w: World)
    requires Loaded(x, g, w) && Healthy(w) && tr.status.Unfinished?
    requires x.status.taskRun == Some(tr.status) && x.status.condition == Unknown("Running")
    ensures Reconciled(x, map[t := tr], w) == x
    ensures VerdictOn(x, map[t := tr], w) == Running(g, t, tr, x.cancelled && !tr.cancelled)
  {
    var listed := map[t := tr];
    assert listed.Keys == {t};
    assert |listed| == |listed.Keys| == 1;
    assert DecideListed(x, g, listed, w) == Some(DecideSole(x, g, t, tr, w));
  }

  /** After a round with a TaskGroup that lets the Run go on, the TaskGroup is loaded. */
  lemma LeavesLoaded(run: Run, listed: map<string, TaskRun>, w: World, g: TaskGroup)
    requires var v := VerdictOn(run, listed, w); GroupOf(v) == Some(g) && ConditionAfter(Unknown(""), v).Unknown?
    ensures Loaded(PostProcess(Reconciled(run, listed, w)), g, w)
  {
    GroupLabelsGrow(Start(run).labels, g);
    OverlayTwice(Start(run).annotations, g.annotations);
    LeavesValid(Start(run), listed, w, g);
  }

  lemma LeavesValid(run: Run, listed: map<string, TaskRun>, w: World, g: TaskGroup)
    requires var v := Decide(run, listed, w); GroupOf(v) == Some(g) && ConditionAfter(Unknown(""), v).Unknown?
    ensures RefersToGroup(run) && run.status.condition.Unknown? && Fetch(run, w) == Some(g) && w.valid(g.spec)
  {
    if Fetch(run, w).Some? {
      ValidVerdictGroup(run, Fetch(run, w).value, listed, w);
    }
  }

  // ---- Rounds ----

  lemma RoundIs(s: Cluster, n: string, w: World, name: string, compiled: TaskSpec, v: Verdict, r: Run)
    requires n in s.runs && s.runs[n].name == n && Healthy(w)
    requires v == VerdictOn(PreProcess(s.runs[n]), OfRun(s, s.runs[n]), w)
    requires r == Reconciled(PreProcess(s.runs[n]), OfRun(s, s.runs[n]), w)
    ensures var s' := Round(s, n, w, name, compiled);
      && s'.runs == s.runs[n := PostProcess(r)]
      && s'.ever == TaskRunsAfter(s.ever, v, name, r, compiled)
      && s'.live == if v.Creates? then s.live + {name} else s.live
  {
    var run := PreProcess(s.runs[n]);
    ReconciledOnlyGrows(run, OfRun(s, s.runs[n]), w);
    WrittenAsLeft(s.runs, n, v, r, w);
  }

  /** Nothing is left to do: the Run is as a reconciliation would leave it, and none is created or
      cancelled. */
  ghost predicate Quiet(s: Cluster, n: string, w: World) {
    && n in s.runs && s.runs[n].name == n && s.runs[n].status.observedGeneration == s.runs[n].generation
    && Reconciled(s.runs[n], OfRun(s, s.runs[n]), w) == s.runs[n]
    && var v := VerdictOn(s.runs[n], OfRun(s, s.runs[n]), w); !v.Creates? && !(v.Running? && v.cancel)
  }

  lemma QuietRound(s: Cluster, n: string, w: World, name: string, compiled: TaskSpec)
    requires Quiet(s, n, w) && Healthy(w)
    ensures SameServer(s, Round(s, n, w, name, compiled))
  {
    var run := s.runs[n];
    RoundIs(s, n, w, name, compiled, VerdictOn(run, OfRun(s, run), w), run);
    assert PostProcess(run) == run && s.runs[n := run] == s.runs;
  }

  /** Only a cancellation is left to do. */
  ghost predicate OnlyCancels(s: Cluster, n: string, w: World, t: string) {
    && n in s.runs && s.runs[n].name == n && s.runs[n].status.observedGeneration == s.runs[n].generation
    && t in s.ever && t in s.live && s.ever[t].status.Unfinished? && !s.ever[t].cancelled
    && OfRun(s, s.runs[n]) == map[t := s.ever[t]]
    && s.runs[n].cancelled && s.runs[n].status.taskRun == Some(s.ever[t].status)
    && s.runs[n].status.condition == Unknown("Running")
    && exists g :: Loaded(s.runs[n], g, w)
  }

  lemma SoleMap(l: map<string, TaskRun>, t: string)
    requires |l| == 1 && t in l
    ensures l == map[t := l[t]]
  {
    assert |l.Keys - {t}| == 0;
  }

  lemma ListsByName(taskRuns: map<string, TaskRun>, run: Run, run': Run)
    requires run.name == run'.name
    ensures Listed(taskRuns, run) == Listed(taskRuns, run')
  {
  }

  /** A TaskRun made for a Run is listed for that Run and for no other. */
  lemma ListedForItsRun(run: Run, compiled: TaskSpec, other: Run)
    ensures Matches(TaskRunLabels(other, false), NewTaskRun(run, compiled).labels) <==> other.name == run.name
  {
    assert TaskRunLabels(other, false) == map[RUN_LABEL := other.name];
    assert RUN_LABEL in TaskRunLabels(other, false);
  }

  lemma CreatedIsListed(s: Cluster, s': Cluster, run: Run, name: string, compiled: TaskSpec)
    requires s'.ever == s.ever[name := NewTaskRun(run, compiled)] && s'.live == s.live + {name} && |OfRun(s, run)| == 0
    ensures OfRun(s', run) == map[name := NewTaskRun(run, compiled)]
  {
    ListedForItsRun(run, compiled, run);
    assert forall t :: t in OfRun(s', run) ==> t == name || t in OfRun(s, run);
  }

  lemma CancelledIsListed(s: Cluster, s': Cluster, run: Run, t: string)
    requires t in s.ever && s'.ever == s.ever[t := s.ever[t].(cancelled := true)] && s'.live == s.live
    requires OfRun(s, run) == map[t := s.ever[t]]
    ensures OfRun(s', run) == map[t := s'.ever[t]]
  {
    assert t in OfRun(s, run);
    assert forall u :: u in OfRun(s', run) ==> u == t || u in OfRun(s, run);
  }

  /** Cancelling is the last thing done. */
  lemma CancelRound(s: Cluster, n: string, w: World, t: string, name: string, compiled: TaskSpec)
    requires OnlyCancels(s, n, w, t) && Healthy(w)
    ensures var s' := Round(s, n, w, name, compiled);
      Quiet(s', n, w) && t in s'.ever && s'.ever[t] == s.ever[t].(cancelled := true)
  {
    var run, tr := s.runs[n], s.ever[t];
    var g :| Loaded(run, g, w);
    CancelVerdict(s, n, w, t, g);
    RoundIs(s, n, w, name, compiled, Running(g, t, tr, true), run);
    CancelledIsQuiet(s, n, w, t, g, Round(s, n, w, name, compiled));
  }

  lemma CancelVerdict(s: Cluster, n: string, w: World, t: string, g: TaskGroup)
    requires OnlyCancels(s, n, w, t) && Healthy(w) && Loaded(s.runs[n], g, w)
    ensures var run := s.runs[n];
      && VerdictOn(PreProcess(run), OfRun(s, run), w) == Running(g, t, s.ever[t], true)
      && Reconciled(PreProcess(run), OfRun(s, run), w) == run
  {
    RunningIsFixed(s.runs[n], g, t, s.ever[t], w);
  }

  lemma CancelledIsQuiet(s: Cluster, n: string, w: World, t: string, g: TaskGroup, s': Cluster)
    requires OnlyCancels(s, n, w, t) && Healthy(w) && Loaded(s.runs[n], g, w)
    requires s'.runs == s.runs[n := PostProcess(s.runs[n])] && s'.live == s.live
    requires s'.ever == s.ever[t := s.ever[t].(cancelled := true)]
    ensures Quiet(s', n, w)
  {
    var run := s.runs[n];
    assert s'.runs[n] == run;
    CancelledIsListed(s, s', run, t);
    RunningIsFixed(run, g, t, s'.ever[t], w);
  }

  lemma SameListing(s: Cluster, s': Cluster, run: Run, run': Run)
    requires s'.ever == s.ever && s'.live == s.live && run'.name == run.name
    ensures OfRun(s', run') == OfRun(s, run)
  {
    ListsByName(LiveTaskRuns(s), run, run');
  }

  // ---- The first round ----

  /** The Run after a round. */
  ghost function Left(s: Cluster, n: string, w: World): Run
    requires n in s.runs
  {
    PostProcess(Reconciled(PreProcess(s.runs[n]), OfRun(s, s.runs[n]), w))
  }

  ghost function FirstVerdict(s: Cluster, n: string, w: World): Verdict
    requires n in s.runs
  {
    VerdictOn(PreProcess(s.runs[n]), OfRun(s, s.runs[n]), w)
  }

  lemma LeftConcludes(s: Cluster, n: string, w: World)
    requires n in s.runs
    ensures Concludes(PreProcess(s.runs[n]), OfRun(s, s.runs[n]), w, FirstVerdict(s, n, w),
                      Reconciled(PreProcess(s.runs[n]), OfRun(s, s.runs[n]), w))
  {
    ReconciledConcludes(PreProcess(s.runs[n]), OfRun(s, s.runs[n]), w);
  }

  lemma LeftLoaded(s: Cluster, n: string, w: World, g: TaskGroup)
    requires n in s.runs && GroupOf(FirstVerdict(s, n, w)) == Some(g)
    requires ConditionAfter(Unknown(""), FirstVerdict(s, n, w)).Unknown?
    ensures Loaded(Left(s, n, w), g, w)
  {
    LeavesLoaded(PreProcess(s.runs[n]), OfRun(s, s.runs[n]), w, g);
  }

  /** With a healthy world there are no failing verdicts to retry. */
  lemma HealthyVerdict(run: Run, listed: map<string, TaskRun>, w: World)
    requires Healthy(w)
    ensures var v := VerdictOn(run, listed, w); !v.Unlistable? && !v.CancelRefused?
    ensures var v := VerdictOn(run, listed, w); v.Running? ==> v.cancel == (run.cancelled && !v.taskRun.cancelled)
    ensures var v := VerdictOn(run, listed, w); v.Foreign? <==> !RefersToGroup(run)
  {
    StartConcludes(run, listed, w);
    if Fetch(Start(run), w).Some? {
      SoleConcludes(Start(run), Fetch(Start(run), w).value, listed, w);
    }
  }

  lemma FirstForeign(s: Cluster, n: string, w: World, s': Cluster)
    requires n in s.runs && s.runs[n].name == n && n in s'.runs && s'.runs[n] == Left(s, n, w)
    requires !RefersToGroup(s.runs[n])
    ensures Quiet(s', n, w)
  {
  }

  /** A round that ends the Run, or finds it ended. */
  lemma FirstEnds(s: Cluster, n: string, w: World, s': Cluster)
    requires n in s.runs && s.runs[n].name == n && n in s'.runs && s'.runs[n] == Left(s, n, w)
    requires RefersToGroup(s.runs[n]) && !Left(s, n, w).status.condition.Unknown?
    requires !FirstVerdict(s, n, w).Foreign?
    ensures Quiet(s', n, w)
  {
    LeftConcludes(s, n, w);
    DoneIsFixed(s'.runs[n], OfRun(s', s'.runs[n]), w);
  }

  lemma FirstSeveral(s: Cluster, n: string, w: World, s': Cluster)
    requires n in s.runs && s.runs[n].name == n && s'.runs == s.runs[n := Left(s, n, w)] && Healthy(w)
    requires s'.ever == s.ever && s'.live == s.live && FirstVerdict(s, n, w).Ambiguous?
    ensures Quiet(s', n, w)
  {
    var g := FirstVerdict(s, n, w).group;
    LeftConcludes(s, n, w);
    LeftLoaded(s, n, w, g);
    SameListing(s, s', s.runs[n], s'.runs[n]);
    SeveralIsFixed(s'.runs[n], g, OfRun(s', s'.runs[n]), w);
  }

  lemma FirstRecorded(s: Cluster, n: string, w: World, s': Cluster)
    requires n in s.runs && s.runs[n].name == n && s'.runs == s.runs[n := Left(s, n, w)] && Healthy(w)
    requires s'.ever == s.ever && s'.live == s.live && FirstVerdict(s, n, w).Recorded?
    ensures Quiet(s', n, w)
  {
    var g := FirstVerdict(s, n, w).group;
    LeftConcludes(s, n, w);
    LeftLoaded(s, n, w, g);
    SameListing(s, s', s.runs[n], s'.runs[n]);
    RecordedIsFixed(s'.runs[n], g, OfRun(s', s'.runs[n]), w);
  }

  lemma FirstRunning(s: Cluster, n: string, w: World, s': Cluster, t: string, tr: TaskRun)
    requires n in s.runs && s.runs[n].name == n && n in s'.runs && s'.runs[n] == Left(s, n, w) && Healthy(w)
    requires FirstVerdict(s, n, w).Running? && FirstVerdict(s, n, w).name == t
    requires tr == FirstVerdict(s, n, w).taskRun.(cancelled := FirstVerdict(s, n, w).taskRun.cancelled ||
              FirstVerdict(s, n, w).cancel)
    requires OfRun(s', s'.runs[n]) == map[t := tr]
    ensures Quiet(s', n, w)
  {
    var v := FirstVerdict(s, n, w);
    LeftConcludes(s, n, w);
    LeftLoaded(s, n, w, v.group);
    HealthyVerdict(PreProcess(s.runs[n]), OfRun(s, s.runs[n]), w);
    RunningIsFixed(s'.runs[n], v.group, t, tr, w);
  }

  lemma FirstCreates(s: Cluster, n: string, w: World, s': Cluster, name: string, compiled: TaskSpec)
    requires n in s.runs && s.runs[n].name == n && n in s'.runs && s'.runs[n] == Left(s, n, w) && Healthy(w)
    requires FirstVerdict(s, n, w).Creates? && name in s'.ever && name in s'.live
    requires s'.ever[name].status == NO_STATUS && !s'.ever[name].cancelled
    requires OfRun(s', s'.runs[n]) == map[name := s'.ever[name]]
    ensures if s.runs[n].cancelled then OnlyCancels(s', n, w, name) else Quiet(s', n, w)
  {
    var g := FirstVerdict(s, n, w).group;
    LeftConcludes(s, n, w);
    LeftLoaded(s, n, w, g);
    RunningIsFixed(s'.runs[n], g, name, s'.ever[name], w);
  }

  lemma RunningListing(s: Cluster, s': Cluster, n: string, w: World, r: Run, name: string, compiled: TaskSpec)
    requires n in s.runs && n in s'.runs && s'.runs[n].name == s.runs[n].name && s'.live == s.live
    requires FirstVerdict(s, n, w).Running? &&
              s'.ever == TaskRunsAfter(s.ever, FirstVerdict(s, n, w), name, r, compiled)
    ensures var v := FirstVerdict(s, n, w);
      OfRun(s', s'.runs[n]) == map[v.name := v.taskRun.(cancelled := v.taskRun.cancelled || v.cancel)]
  {
    var v := FirstVerdict(s, n, w);
    LeftConcludes(s, n, w);
    SoleMap(OfRun(s, s.runs[n]), v.name);
    ListsByName(LiveTaskRuns(s'), s.runs[n], s'.runs[n]);
    assert s.ever[v.name] == v.taskRun;
    if v.cancel {
      CancelledIsListed(s, s', s.runs[n], v.name);
    } else {
      assert v.taskRun.(cancelled := v.taskRun.cancelled) == v.taskRun;
    }
  }

  lemma CreatedListing(s: Cluster, s': Cluster, n: string, w: World, r: Run, name: string, compiled: TaskSpec)
    requires n in s.runs && n in s'.runs && s'.runs[n].name == s.runs[n].name == r.name && s'.live == s.live + {name}
    requires FirstVerdict(s, n, w).Creates? &&
              s'.ever == TaskRunsAfter(s.ever, FirstVerdict(s, n, w), name, r, compiled)
    ensures name in s'.ever && s'.ever[name] == NewTaskRun(r, compiled)
    ensures OfRun(s', s'.runs[n]) == map[name := s'.ever[name]]
  {
    LeftConcludes(s, n, w);
    ListsByName(LiveTaskRuns(s), s.runs[n], r);
    CreatedIsListed(s, s', r, name, compiled);
    ListsByName(LiveTaskRuns(s'), r, s'.runs[n]);
  }

  /** After one round nothing is left to do, except to cancel a TaskRun that was created for a Run
      that had been cancelled before. */
  lemma FirstRound(s: Cluster, n: string, w: World, name: string, compiled: TaskSpec)
    requires n in s.runs && s.runs[n].name == n && Healthy(w)
    ensures var s' := Round(s, n, w, name, compiled);
      if FirstVerdict(s, n, w).Creates? && s.runs[n].cancelled then OnlyCancels(s', n, w, name) else Quiet(s', n, w)
  {
    var s' := Round(s, n, w, name, compiled);
    var v := FirstVerdict(s, n, w);
    var r := Reconciled(PreProcess(s.runs[n]), OfRun(s, s.runs[n]), w);
    RoundIs(s, n, w, name, compiled, v, r);
    LeftConcludes(s, n, w);
    HealthyVerdict(PreProcess(s.runs[n]), OfRun(s, s.runs[n]), w);
    FirstRoundBy(s, n, w, name, compiled, v, r, s');
  }

  lemma FirstRoundBy(s: Cluster, n: string, w: World, name: string, compiled: TaskSpec, v: Verdict, r: Run, s': Cluster)
    requires n in s.runs && s.runs[n].name == n && Healthy(w)
    requires v == FirstVerdict(s, n, w) && PostProcess(r) == Left(s, n, w) && r.name == n
    requires s'.runs == s.runs[n := PostProcess(r)] && s'.ever == TaskRunsAfter(s.ever, v, name, r, compiled)
    requires s'.live == if v.Creates? then s.live + {name} else s.live
    requires !v.Unlistable? && !v.CancelRefused? && (v.Foreign? <==> !RefersToGroup(s.runs[n]))
    ensures if v.Creates? && s.runs[n].cancelled then OnlyCancels(s', n, w, name) else Quiet(s', n, w)
  {
    match v
    case Foreign => FirstForeign(s, n, w, s');
    case Ambiguous(_) => FirstSeveral(s, n, w, s');
    case Recorded(_) => FirstRecorded(s, n, w, s');
    case Running(_, t, tr, cancel) =>
      RunningListing(s, s', n, w, r, name, compiled);
      FirstRunning(s, n, w, s', t, tr.(cancelled := tr.cancelled || cancel));
    case Creates(_) =>
      CreatedListing(s, s', n, w, r, name, compiled);
      FirstCreates(s, n, w, s', name, compiled);
    case _ =>
      LeftConcludes(s, n, w);
      FirstEnds(s, n, w, s');
  }

  /** Two rounds reach a fixed point of the server and a third changes nothing.  The second is needed
      only to cancel the TaskRun of a Run that was cancelled before it had one. */
  lemma Converges(s: Cluster, n: string, w: World, name: string, name': string, name'': string,
                  compiled: TaskSpec, compiled': TaskSpec, compiled'': TaskSpec)
    returns (s1: Cluster, s2: Cluster, s3: Cluster)
    requires n in s.runs && s.runs[n].name == n && Healthy(w)
    ensures s1 == Round(s, n, w, name, compiled) && n in s1.runs
    ensures s2 == Round(s1, n, w, name', compiled') && n in s2.runs
    ensures s3 == Round(s2, n, w, name'', compiled'') && SameServer(s2, s3)
    ensures SameServer(s1, s2) <==> !(FirstVerdict(s, n, w).Creates? && s.runs[n].cancelled)
    ensures !SameServer(s1, s2) ==> name in s2.ever && s2.ever[name].cancelled && !s1.ever[name].cancelled
  {
    s1 := Round(s, n, w, name, compiled);
    FirstRound(s, n, w, name, compiled);
    s2 := Round(s1, n, w, name', compiled');
    if FirstVerdict(s, n, w).Creates? && s.runs[n].cancelled {
      CancelRound(s1, n, w, name, name', compiled');
    } else {
      QuietRound(s1, n, w, name', compiled');
      assert s2.runs[n] == s1.runs[n] && OfRun(s2, s2.runs[n]) == OfRun(s1, s1.runs[n]) by {
        SameListing(s1, s2, s1.runs[n], s2.runs[n]);
      }
    }
    s3 := Round(s2, n, w, name'', compiled'');
    QuietRound(s2, n, w, name'', compiled'');
  }
}
