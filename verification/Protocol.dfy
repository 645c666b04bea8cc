/** The controller at work: Runs and TaskRuns on the API server, listers that lag behind, status
    writes that may get lost, users who cancel and delete, and the reconciliations in between. */
module Protocol {
  import opened Text
  import opened Types
  import opened RunModel

  /** What a TaskRun was made from: a TaskGroup, and the world it was compiled in. */
  datatype Origin = Origin(spec: TaskGroupSpec, world: World)

  /** `ever` holds every TaskRun created so far, as last seen on the server; `live` are those not
      deleted.  `sent` and `origin` are history: the TaskRuns the controller has cancelled, and what
      each was made from. */
  datatype Cluster = Cluster(runs: map<string, Run>, ever: map<string, TaskRun>, live: set<string>,
                             runCache: map<string, Run>, taskRunCache: map<string, TaskRun>,
                             sent: set<string>, origin: map<string, Origin>)

  datatype Action =
    | ReconcileRun(run: string, world: World, name: string, compiled: TaskSpec, written: bool)
    | Progress(taskRun: string, status: TaskRunStatus)
    | EditRun(run: string, edited: Run)
    | CancelTaskRun(taskRun: string)
    | DeleteTaskRun(taskRun: string)
    | SyncRun(run: string)
    | SyncTaskRun(taskRun: string)

  // ---- The frame around a reconciliation ----

  /** Before a reconciliation, a spec the status has not seen resets the condition. */
  function PreProcess(run: Run): Run {
    if run.status.observedGeneration == run.generation then run
    else run.(status := run.status.(condition := Unknown("NewObservedGenFailure")))
  }

  function PostProcess(run: Run): Run {
    run.(status := run.status.(observedGeneration := run.generation))
  }

  ghost function View(s: Cluster, n: string): Run
    requires n in s.runCache
  {
    PreProcess(s.runCache[n])
  }

  ghost function Visible(s: Cluster, n: string): map<string, TaskRun>
    requires n in s.runCache
  {
    Listed(s.taskRunCache, s.runCache[n])
  }

  ghost function VerdictAt(s: Cluster, n: string, w: World): Verdict
    requires n in s.runCache
  {
    VerdictOn(View(s, n), Visible(s, n), w)
  }

  ghost function ResultAt(s: Cluster, n: string, w: World): Run
    requires n in s.runCache
  {
    Reconciled(View(s, n), Visible(s, n), w)
  }

  /** The status is written back as a whole, unless it did not change or the write gets lost. */
  function WriteStatus(runs: map<string, Run>, cached: Run, result: Run, written: bool): map<string, Run> {
    if written && result.name in runs && PostProcess(result).status != cached.status
    then runs[result.name := runs[result.name].(status := PostProcess(result).status)]
    else runs
  }

  // ---- Steps ----

  /** A TaskGroup with steps and with a name for each Task it uses. */
  predicate Gated(spec: TaskGroupSpec) {
    spec.steps != [] && forall i :: 0 <= i < |spec.steps| ==> !NamelessUses(spec.steps[i])
  }

  /** Validation lets no other TaskGroup pass. */
  ghost predicate Lawful(w: World) {
    forall spec :: w.valid(spec) ==> Gated(spec)
  }

  predicate SameSpec(run: Run, edited: Run) {
    edited.ref == run.ref && edited.embedded == run.embedded && edited.cancelled == run.cancelled
  }

  /** A user may change labels, annotations and spec of a Run, for one to cancel it, but does not take a
      cancellation back.  A change of the spec counts the generation up. */
  predicate IsEdit(run: Run, edited: Run) {
    && edited.name == run.name && edited.status == run.status && (run.cancelled ==> edited.cancelled)
    && edited.generation == if SameSpec(run, edited) then run.generation else run.generation + 1
  }

  ghost predicate Enabled(s: Cluster, a: Action) {
    match a
    case ReconcileRun(n, w, name, compiled, _) =>
      && n in s.runCache
      && name !in s.ever
      && Lawful(w)
      && (var v := VerdictAt(s, n, w);
        (v.Running? && v.cancel ==> v.name in s.live) && (v.Creates? ==> w.compiles(v.group.spec, compiled)))
    case Progress(t, _) => t in s.live && t in s.ever && s.ever[t].status.Unfinished?
    case EditRun(n, edited) => n in s.runs && IsEdit(s.runs[n], edited)
    case CancelTaskRun(t) => t in s.live && t in s.ever
    case DeleteTaskRun(t) => t in s.live
    case SyncRun(n) => n in s.runs
    case SyncTaskRun(t) => t in s.ever
  }

  /** The effects of a verdict and a resulting Run on the cluster. */
  function Effect(s: Cluster, n: string, w: World, name: string, compiled: TaskSpec, written: bool, v: Verdict,
                  r: Run): Cluster
    requires n in s.runCache
  {
    s.(runs := WriteStatus(RunsAfter(s.runs, s.runCache, v, r, w), s.runCache[n], r, written),
       ever := TaskRunsAfter(s.ever, v, name, r, compiled),
       live := if v.Creates? then s.live + {name} else s.live,
       sent := if v.Running? && v.cancel then s.sent + {v.name} else s.sent,
       origin := if v.Creates? then s.origin[name := Origin(v.group.spec, w)] else s.origin)
  }

  ghost function AfterReconcile(s: Cluster, n: string, w: World, name: string, compiled: TaskSpec,
                                written: bool): Cluster
    requires n in s.runCache
  {
    Effect(s, n, w, name, compiled, written, VerdictAt(s, n, w), ResultAt(s, n, w))
  }

  ghost function Next(s: Cluster, a: Action): Cluster
    requires Enabled(s, a)
  {
    match a
    case ReconcileRun(n, w, name, compiled, written) => AfterReconcile(s, n, w, name, compiled, written)
    case Progress(t, status) => s.(ever := s.ever[t := s.ever[t].(status := status)])
    case EditRun(n, edited) => s.(runs := s.runs[n := edited])
    case CancelTaskRun(t) => s.(ever := s.ever[t := s.ever[t].(cancelled := true)])
    case DeleteTaskRun(t) => s.(live := s.live - {t})
    case SyncRun(n) => s.(runCache := s.runCache[n := s.runs[n]])
    case SyncTaskRun(t) =>
      s.(taskRunCache := if t in s.live then s.taskRunCache[t := s.ever[t]] else s.taskRunCache - {t})
  }

  ghost predicate FreshRun(n: string, run: Run) {
    run.name == n && run.status == RunStatus(false, Unknown(""), 0, None, None)
  }

  ghost predicate Init(s: Cluster) {
    && (forall n :: n in s.runs ==> FreshRun(n, s.runs[n]))
    && s.ever == map[] && s.live == {} && s.runCache == map[] && s.taskRunCache == map[]
    && s.sent == {} && s.origin == map[]
  }

  /** A run of the system: enabled steps, one after the other. */
  ghost predicate Path(states: seq<Cluster>, actions: seq<Action>) {
    && |states| == |actions| + 1
    && forall i :: 0 <= i < |actions| ==> StepAt(states, actions, i)
  }

  ghost predicate StepAt(states: seq<Cluster>, actions: seq<Action>, i: nat)
    requires i < |actions| && i + 1 < |states|
  {
    Enabled(states[i], actions[i]) && states[i + 1] == Next(states[i], actions[i])
  }

  // ---- The invariant ----

  ghost predicate Owned(ever: map<string, TaskRun>, n: string, t: string) {
    t in ever && ever[t].owner == n
  }

  ghost predicate HasFinished(ever: map<string, TaskRun>, n: string, success: bool) {
    exists t :: Owned(ever, n, t) && ever[t].status == Finished(success)
  }

  ghost predicate HasTaskRun(ever: map<string, TaskRun>, n: string) {
    exists t :: Owned(ever, n, t)
  }

  /** What is on record about a Run, here or in the lister, has happened. */
  ghost predicate StatusSound(ever: map<string, TaskRun>, n: string, st: RunStatus) {
    && (st.taskRun.Some? ==> HasTaskRun(ever, n))
    && (st.condition.True? ==> HasFinished(ever, n, true))
    && (st.condition == False("Failed") ==> HasFinished(ever, n, false))
    && (!st.condition.Unknown? ==> st.started)
  }

  ghost predicate RunsSound(s: Cluster) {
    forall n :: n in s.runs ==> s.runs[n].name == n && StatusSound(s.ever, n, s.runs[n].status)
  }

  ghost predicate SameRun(cached: Run, run: Run) {
    cached.name == run.name && (cached.cancelled ==> run.cancelled)
  }

  ghost predicate RunCacheSound(s: Cluster) {
    forall n :: n in s.runCache ==>
      n in s.runs && SameRun(s.runCache[n], s.runs[n]) && StatusSound(s.ever, n, s.runCache[n].status)
  }

  ghost predicate SameTaskRun(cached: TaskRun, tr: TaskRun) {
    && cached.owner == tr.owner && cached.labels == tr.labels
    && (cached.status.Finished? ==> tr.status == cached.status)
  }

  ghost predicate TaskRunCacheSound(s: Cluster) {
    forall t :: t in s.taskRunCache ==> t in s.ever && SameTaskRun(s.taskRunCache[t], s.ever[t])
  }

  /** The spec is a compilation of a TaskGroup with steps and with a name for each Task it uses. */
  ghost predicate MadeFrom(o: Origin, spec: TaskSpec) {
    Gated(o.spec) && o.world.valid(o.spec) && o.world.compiles(o.spec, spec)
  }

  /** Every TaskRun was made for the Run its label names, and runs what its TaskGroup compiles to. */
  ghost predicate TaskRunSound(s: Cluster, t: string)
    requires t in s.ever
  {
    && RUN_LABEL in s.ever[t].labels && s.ever[t].labels[RUN_LABEL] == s.ever[t].owner
    && s.ever[t].owner in s.runs
    && t in s.origin && MadeFrom(s.origin[t], s.ever[t].spec)
  }

  ghost predicate TaskRunsSound(s: Cluster) {
    && s.live <= s.ever.Keys
    && forall t :: t in s.ever ==> TaskRunSound(s, t)
  }

  /** Only TaskRuns of cancelled Runs are cancelled by the controller. */
  ghost predicate SentSound(s: Cluster) {
    forall t :: t in s.sent ==> t in s.ever && s.ever[t].owner in s.runs && s.runs[s.ever[t].owner].cancelled
  }

  ghost predicate Inv(s: Cluster) {
    && RunsSound(s) && RunCacheSound(s) && TaskRunsSound(s) && TaskRunCacheSound(s) && SentSound(s)
  }

  // ---- The invariant holds in every run ----

  /** Nothing a step does takes back what has happened. */
  ghost predicate Grows(ever: map<string, TaskRun>, ever': map<string, TaskRun>) {
    forall t :: t in ever ==> t in ever' && TaskRunLater(ever[t], ever'[t])
  }

  ghost predicate TaskRunLater(tr: TaskRun, tr': TaskRun) {
    && tr'.owner == tr.owner && tr'.labels == tr.labels && tr'.spec == tr.spec
    && (tr.cancelled ==> tr'.cancelled)
    && (tr.status.Finished? ==> tr'.status == tr.status)
  }

  /** A reconciliation of `n` that comes to this verdict and this Run, with the clauses of `Enabled`
      that matter to its effects. */
  ghost predicate Concluded(s: Cluster, n: string, w: World, name: string, v: Verdict, r: Run) {
    && n in s.runCache && name !in s.ever && Lawful(w)
    && Concludes(View(s, n), Visible(s, n), w, v, r)
    && (v.Running? && v.cancel ==> v.name in s.live)
  }

  lemma EnabledConcludes(s: Cluster, n: string, w: World, name: string, compiled: TaskSpec, written: bool)
    requires Enabled(s, ReconcileRun(n, w, name, compiled, written))
    ensures Concluded(s, n, w, name, VerdictAt(s, n, w), ResultAt(s, n, w))
  {
    ReconciledConcludes(View(s, n), Visible(s, n), w);
  }

  lemma TaskRunsGrow(ever: map<string, TaskRun>, v: Verdict, name: string, r: Run, compiled: TaskSpec)
    requires name !in ever
    ensures Grows(ever, TaskRunsAfter(ever, v, name, r, compiled))
  {
  }

  lemma StepGrows(s: Cluster, a: Action)
    requires Enabled(s, a)
    ensures Grows(s.ever, Next(s, a).ever)
  {
    match a
    case ReconcileRun(n, w, name, compiled, written) =>
      TaskRunsGrow(s.ever, VerdictAt(s, n, w), name, ResultAt(s, n, w), compiled);
    case _ =>
  }

  lemma SoundLater(ever: map<string, TaskRun>, ever': map<string, TaskRun>, n: string, st: RunStatus)
    requires Grows(ever, ever') && StatusSound(ever, n, st)
    ensures StatusSound(ever', n, st)
  {
    assert forall t :: Owned(ever, n, t) ==> Owned(ever', n, t) && TaskRunLater(ever[t], ever'[t]);
  }

  /** A TaskRun listed for a Run was made for it, and if it is listed as finished it is. */
  lemma VisibleIsOwned(s: Cluster, n: string, t: string)
    requires Inv(s) && n in s.runCache && t in Visible(s, n)
    ensures Owned(s.ever, n, t)
    ensures Visible(s, n)[t].status.Finished? ==> s.ever[t].status == Visible(s, n)[t].status
  {
    var selector := TaskRunLabels(s.runCache[n], false);
    assert RUN_LABEL in selector && selector[RUN_LABEL] == n;
    assert s.taskRunCache[t].labels[RUN_LABEL] == n;
  }

  /** The status a reconciliation arrives at is sound if its TaskRun is there. */
  lemma ConclusionSound(ever: map<string, TaskRun>, run: Run, listed: map<string, TaskRun>, w: World, v: Verdict,
                        r: Run)
    requires Concludes(run, listed, w, v, r) && StatusSound(ever, run.name, run.status)
    requires NamesTaskRun(v) ==> Owned(ever, run.name, v.name)
    requires v.Completed? ==> ever[v.name].status == v.taskRun.status
    requires v.Creates? ==> HasTaskRun(ever, run.name)
    ensures StatusSound(ever, run.name, r.status)
  {
  }

  lemma VerdictOwned(s: Cluster, n: string, w: World, name: string, v: Verdict, r: Run)
    requires Inv(s) && Concluded(s, n, w, name, v, r)
    ensures NamesTaskRun(v) ==> Owned(s.ever, n, v.name)
    ensures v.Completed? ==> Owned(s.ever, n, v.name) && s.ever[v.name].status == v.taskRun.status
  {
    if NamesTaskRun(v) {
      VisibleIsOwned(s, n, v.name);
    }
  }

  lemma ViewSound(s: Cluster, n: string)
    requires Inv(s) && n in s.runCache
    ensures View(s, n).name == n && StatusSound(s.ever, n, View(s, n).status)
  {
  }

  lemma EffectOwned(ever: map<string, TaskRun>, n: string, name: string, v: Verdict, r: Run, compiled: TaskSpec)
    requires name !in ever && r.name == n
    requires NamesTaskRun(v) ==> Owned(ever, n, v.name)
    requires v.Completed? ==> ever[v.name].status == v.taskRun.status
    ensures var ever' := TaskRunsAfter(ever, v, name, r, compiled);
      && (NamesTaskRun(v) ==> Owned(ever', n, v.name))
      && (v.Completed? ==> ever'[v.name].status == v.taskRun.status)
      && (v.Creates? ==> HasTaskRun(ever', n))
  {
    var ever' := TaskRunsAfter(ever, v, name, r, compiled);
    assert v.Creates? ==> Owned(ever', n, name);
  }

  lemma ResultSound(s: Cluster, n: string, w: World, name: string, compiled: TaskSpec, v: Verdict, r: Run)
    requires Inv(s) && Concluded(s, n, w, name, v, r)
    ensures StatusSound(TaskRunsAfter(s.ever, v, name, r, compiled), n, PostProcess(r).status)
  {
    var ever', run := TaskRunsAfter(s.ever, v, name, r, compiled), View(s, n);
    ViewSound(s, n);
    assert StatusSound(ever', n, run.status) by {
      TaskRunsGrow(s.ever, v, name, r, compiled);
      SoundLater(s.ever, ever', n, run.status);
    }
    VerdictOwned(s, n, w, name, v, r);
    EffectOwned(s.ever, n, name, v, r, compiled);
    ConclusionSound(ever', run, Visible(s, n), w, v, r);
  }

  /** Runs keep what they are; a cancellation stays. */
  ghost predicate RunsLater(runs: map<string, Run>, runs': map<string, Run>) {
    && runs'.Keys == runs.Keys
    && forall m :: m in runs ==> SameRun(runs[m], runs'[m])
  }

  lemma RunsUpdated(runs: map<string, Run>, lister: map<string, Run>, v: Verdict, r: Run, w: World, cached: Run,
                    written: bool)
    ensures var runs' := WriteStatus(RunsAfter(runs, lister, v, r, w), cached, r, written);
      && RunsLater(runs, runs')
      && forall m :: m in runs ==>
          runs'[m].status == runs[m].status || (m == r.name && runs'[m].status == PostProcess(r).status)
  {
  }

  lemma RunsStaySound(s: Cluster, s': Cluster, n: string, st: RunStatus)
    requires RunsSound(s) && Grows(s.ever, s'.ever) && RunsLater(s.runs, s'.runs) && StatusSound(s'.ever, n, st)
    requires forall m :: m in s.runs ==> s'.runs[m].status == s.runs[m].status || (m == n && s'.runs[m].status == st)
    ensures RunsSound(s')
  {
    forall m | m in s'.runs ensures s'.runs[m].name == m && StatusSound(s'.ever, m, s'.runs[m].status) {
      assert SameRun(s.runs[m], s'.runs[m]);
      SoundLater(s.ever, s'.ever, m, s.runs[m].status);
    }
  }

  lemma RunCacheStaysSound(s: Cluster, s': Cluster)
    requires RunCacheSound(s) && Grows(s.ever, s'.ever) && RunsLater(s.runs, s'.runs) && s'.runCache == s.runCache
    ensures RunCacheSound(s')
  {
    forall m | m in s'.runCache
      ensures m in s'.runs && SameRun(s'.runCache[m], s'.runs[m]) && StatusSound(s'.ever, m, s'.runCache[m].status)
    {
      assert SameRun(s.runs[m], s'.runs[m]);
      SoundLater(s.ever, s'.ever, m, s.runCache[m].status);
    }
  }

  lemma TaskRunCacheStaysSound(s: Cluster, s': Cluster)
    requires TaskRunCacheSound(s) && Grows(s.ever, s'.ever) && s'.taskRunCache == s.taskRunCache
    ensures TaskRunCacheSound(s')
  {
    forall t | t in s'.taskRunCache ensures t in s'.ever && SameTaskRun(s'.taskRunCache[t], s'.ever[t]) {
      assert TaskRunLater(s.ever[t], s'.ever[t]);
    }
  }

  lemma TaskRunsStaySound(s: Cluster, s': Cluster)
    requires TaskRunsSound(s) && Grows(s.ever, s'.ever) && RunsLater(s.runs, s'.runs) && s'.live <= s'.ever.Keys
    requires forall t :: t in s.origin ==> t in s'.origin && s'.origin[t] == s.origin[t]
    requires forall t :: t in s'.ever && t !in s.ever ==> TaskRunSound(s', t)
    ensures TaskRunsSound(s')
  {
    forall t | t in s'.ever ensures TaskRunSound(s', t) {
      if t in s.ever {
        assert TaskRunSound(s, t) && TaskRunLater(s.ever[t], s'.ever[t]);
      }
    }
  }

  lemma SentStaysSound(s: Cluster, s': Cluster)
    requires SentSound(s) && Grows(s.ever, s'.ever) && RunsLater(s.runs, s'.runs)
    requires forall t :: t in s'.sent ==>
              t in s.sent || (t in s'.ever && s'.ever[t].owner in s'.runs && s'.runs[s'.ever[t].owner].cancelled)
    ensures SentSound(s')
  {
    forall t | t in s'.sent && t in s.sent ensures s'.runs[s'.ever[t].owner].cancelled {
      assert TaskRunLater(s.ever[t], s'.ever[t]);
      assert SameRun(s.runs[s.ever[t].owner], s'.runs[s.ever[t].owner]);
    }
  }

  /** A new TaskRun carries the name of its Run and comes from a TaskGroup that passed validation. */
  lemma CreatedSound(s: Cluster, n: string, w: World, name: string, compiled: TaskSpec, v: Verdict, r: Run, s': Cluster)
    requires Inv(s) && Concluded(s, n, w, name, v, r) && RunsLater(s.runs, s'.runs) && v.Creates?
    requires s'.ever == TaskRunsAfter(s.ever, v, name, r, compiled) &&
              s'.origin == s.origin[name := Origin(v.group.spec, w)]
    requires w.compiles(v.group.spec, compiled)
    ensures TaskRunSound(s', name)
  {
    assert s'.ever[name] == NewTaskRun(r, compiled);
  }

  lemma CancelledSound(s: Cluster, n: string, w: World, name: string, v: Verdict, r: Run)
    requires Inv(s) && Concluded(s, n, w, name, v, r) && v.Running? && v.cancel
    ensures Owned(s.ever, n, v.name) && n in s.runs && s.runs[n].cancelled
  {
    VerdictOwned(s, n, w, name, v, r);
    assert SameRun(s.runCache[n], s.runs[n]);
  }

  lemma EffectKeepsInv(s: Cluster, n: string, w: World, name: string, compiled: TaskSpec, written: bool, v: Verdict,
                       r: Run)
    requires Inv(s) && Concluded(s, n, w, name, v, r)
    requires v.Creates? ==> w.compiles(v.group.spec, compiled)
    ensures Inv(Effect(s, n, w, name, compiled, written, v, r))
  {
    var s' := Effect(s, n, w, name, compiled, written, v, r);
    assert RunsSound(s') && RunsLater(s.runs, s'.runs) by { EffectRuns(s, n, w, name, compiled, written, v, r); }
    assert RunCacheSound(s') && TaskRunCacheSound(s') by { EffectCaches(s, n, w, name, compiled, written, v, r); }
    assert TaskRunsSound(s') && SentSound(s') by {
      EffectGrows(s, n, w, name, compiled, written, v, r);
      EffectHistory(s, n, w, name, compiled, v, r, s');
    }
  }

  lemma EffectHistory(s: Cluster, n: string, w: World, name: string, compiled: TaskSpec, v: Verdict, r: Run,
                      s': Cluster)
    requires Inv(s) && Concluded(s, n, w, name, v, r) && RunsLater(s.runs, s'.runs) && Grows(s.ever, s'.ever)
    requires s'.ever == TaskRunsAfter(s.ever, v, name, r, compiled)
    requires s'.live == if v.Creates? then s.live + {name} else s.live
    requires s'.origin == if v.Creates? then s.origin[name := Origin(v.group.spec, w)] else s.origin
    requires s'.sent == if v.Running? && v.cancel then s.sent + {v.name} else s.sent
    requires v.Creates? ==> w.compiles(v.group.spec, compiled)
    ensures TaskRunsSound(s') && SentSound(s')
  {
    EffectTaskRuns(s, n, w, name, compiled, v, r, s');
    EffectSent(s, n, w, name, compiled, v, r, s');
  }

  lemma EffectGrows(s: Cluster, n: string, w: World, name: string, compiled: TaskSpec, written: bool, v: Verdict,
                    r: Run)
    requires n in s.runCache && name !in s.ever
    ensures Grows(s.ever, Effect(s, n, w, name, compiled, written, v, r).ever)
  {
    TaskRunsGrow(s.ever, v, name, r, compiled);
  }

  lemma EffectCaches(s: Cluster, n: string, w: World, name: string, compiled: TaskSpec, written: bool, v: Verdict,
                     r: Run)
    requires Inv(s) && Concluded(s, n, w, name, v, r)
    requires RunsLater(s.runs, Effect(s, n, w, name, compiled, written, v, r).runs)
    ensures var s' := Effect(s, n, w, name, compiled, written, v, r); RunCacheSound(s') && TaskRunCacheSound(s')
  {
    var s' := Effect(s, n, w, name, compiled, written, v, r);
    assert Grows(s.ever, s'.ever) by { TaskRunsGrow(s.ever, v, name, r, compiled); }
    RunCacheStaysSound(s, s');
    TaskRunCacheStaysSound(s, s');
  }

  lemma EffectTaskRuns(s: Cluster, n: string, w: World, name: string, compiled: TaskSpec, v: Verdict, r: Run,
                       s': Cluster)
    requires Inv(s) && Concluded(s, n, w, name, v, r) && RunsLater(s.runs, s'.runs) && Grows(s.ever, s'.ever)
    requires s'.ever == TaskRunsAfter(s.ever, v, name, r, compiled)
    requires s'.live == if v.Creates? then s.live + {name} else s.live
    requires s'.origin == if v.Creates? then s.origin[name := Origin(v.group.spec, w)] else s.origin
    requires v.Creates? ==> w.compiles(v.group.spec, compiled)
    ensures TaskRunsSound(s')
  {
    if v.Creates? {
      CreatedSound(s, n, w, name, compiled, v, r, s');
      EffectCreated(s, w, name, compiled, v, r, s');
    } else {
      KeysKept(s.ever, v, name, r, compiled);
      TaskRunsStaySound(s, s');
    }
  }

  lemma KeysKept(ever: map<string, TaskRun>, v: Verdict, name: string, r: Run, compiled: TaskSpec)
    requires !v.Creates?
    ensures TaskRunsAfter(ever, v, name, r, compiled).Keys == ever.Keys
  {
  }

  lemma EffectCreated(s: Cluster, w: World, name: string, compiled: TaskSpec, v: Verdict, r: Run, s': Cluster)
    requires TaskRunsSound(s) && RunsLater(s.runs, s'.runs) && Grows(s.ever, s'.ever) && v.Creates? && name !in s.ever
    requires s'.ever == TaskRunsAfter(s.ever, v, name, r, compiled) &&
              s'.origin == s.origin[name := Origin(v.group.spec, w)]
    requires s'.live == s.live + {name} && TaskRunSound(s', name)
    ensures TaskRunsSound(s')
  {
    assert s'.ever.Keys == s.ever.Keys + {name};
    OnlyNewOrigin(s, s', name);
  }

  lemma EffectRuns(s: Cluster, n: string, w: World, name: string, compiled: TaskSpec, written: bool, v: Verdict, r: Run)
    requires Inv(s) && Concluded(s, n, w, name, v, r)
    ensures var s' := Effect(s, n, w, name, compiled, written, v, r); RunsSound(s') && RunsLater(s.runs, s'.runs)
  {
    var s' := Effect(s, n, w, name, compiled, written, v, r);
    assert Grows(s.ever, s'.ever) by { TaskRunsGrow(s.ever, v, name, r, compiled); }
    RunsUpdated(s.runs, s.runCache, v, r, w, s.runCache[n], written);
    ResultSound(s, n, w, name, compiled, v, r);
    RunsStaySound(s, s', n, PostProcess(r).status);
  }

  lemma OnlyNewOrigin(s: Cluster, s': Cluster, name: string)
    requires TaskRunsSound(s) && Grows(s.ever, s'.ever) && RunsLater(s.runs, s'.runs) && name !in s.ever
    requires s'.ever.Keys == s.ever.Keys + {name} && s'.live == s.live + {name}
    requires name in s'.origin && s'.origin == s.origin[name := s'.origin[name]] && TaskRunSound(s', name)
    ensures TaskRunsSound(s')
  {
    forall t | t in s'.ever ensures TaskRunSound(s', t) {
      if t in s.ever {
        assert TaskRunSound(s, t) && TaskRunLater(s.ever[t], s'.ever[t]);
      }
    }
  }

  lemma EffectSent(s: Cluster, n: string, w: World, name: string, compiled: TaskSpec, v: Verdict, r: Run, s': Cluster)
    requires Inv(s) && Concluded(s, n, w, name, v, r) && RunsLater(s.runs, s'.runs) && Grows(s.ever, s'.ever)
    requires s'.sent == if v.Running? && v.cancel then s.sent + {v.name} else s.sent
    ensures SentSound(s')
  {
    if v.Running? && v.cancel {
      CancelledSound(s, n, w, name, v, r);
      SentToCancelled(s, s', n, v.name);
    } else {
      SentStaysSound(s, s');
    }
  }

  lemma SentToCancelled(s: Cluster, s': Cluster, n: string, t: string)
    requires SentSound(s) && Grows(s.ever, s'.ever) && RunsLater(s.runs, s'.runs) && s'.sent == s.sent + {t}
    requires Owned(s.ever, n, t) && n in s.runs && s.runs[n].cancelled
    ensures SentSound(s')
  {
    assert TaskRunLater(s.ever[t], s'.ever[t]) && SameRun(s.runs[n], s'.runs[n]);
    SentStaysSound(s, s');
  }

  /** A step that makes no TaskRun, writes no status and leaves the listers alone keeps the invariant. */
  lemma QuietKeepsInv(s: Cluster, s': Cluster)
    requires Inv(s) && Grows(s.ever, s'.ever) && s'.ever.Keys == s.ever.Keys && RunsLater(s.runs, s'.runs)
    requires forall m :: m in s.runs ==> s'.runs[m].status == s.runs[m].status
    requires s'.runCache == s.runCache && s'.taskRunCache == s.taskRunCache
    requires s'.sent == s.sent && s'.origin == s.origin && s'.live <= s.live
    ensures Inv(s')
  {
    forall m | m in s'.runs ensures s'.runs[m].name == m && StatusSound(s'.ever, m, s'.runs[m].status) {
      assert SameRun(s.runs[m], s'.runs[m]);
      SoundLater(s.ever, s'.ever, m, s.runs[m].status);
    }
    RunCacheStaysSound(s, s');
    TaskRunCacheStaysSound(s, s');
    TaskRunsStaySound(s, s');
    SentStaysSound(s, s');
  }

  lemma OtherStepIsQuiet(s: Cluster, a: Action)
    requires Enabled(s, a) && !a.ReconcileRun? && !a.SyncRun? && !a.SyncTaskRun?
    ensures var s' := Next(s, a);
      && s'.ever.Keys == s.ever.Keys && RunsLater(s.runs, s'.runs)
      && (forall m :: m in s.runs ==> s'.runs[m].status == s.runs[m].status)
      && s'.runCache == s.runCache && s'.taskRunCache == s.taskRunCache
      && s'.sent == s.sent && s'.origin == s.origin && s'.live <= s.live
  {
  }

  lemma OtherStepKeepsInv(s: Cluster, a: Action)
    requires Inv(s) && Enabled(s, a) && !a.ReconcileRun? && !a.SyncRun? && !a.SyncTaskRun?
    ensures Inv(Next(s, a))
  {
    StepGrows(s, a);
    OtherStepIsQuiet(s, a);
    QuietKeepsInv(s, Next(s, a));
  }

  lemma SyncRunKeepsInv(s: Cluster, n: string)
    requires Inv(s) && n in s.runs
    ensures Inv(s.(runCache := s.runCache[n := s.runs[n]]))
  {
    var s' := s.(runCache := s.runCache[n := s.runs[n]]);
    forall m | m in s'.runCache
      ensures m in s'.runs && SameRun(s'.runCache[m], s'.runs[m]) && StatusSound(s'.ever, m, s'.runCache[m].status)
    {
    }
    TaskRunsSame(s, s');
  }

  lemma SyncTaskRunKeepsInv(s: Cluster, t: string)
    requires Inv(s) && t in s.ever
    ensures Inv(s.(taskRunCache := if t in s.live then s.taskRunCache[t := s.ever[t]] else s.taskRunCache - {t}))
  {
    var s' := s.(taskRunCache := if t in s.live then s.taskRunCache[t := s.ever[t]] else s.taskRunCache - {t});
    assert TaskRunCacheSound(s') by {
      forall u | u in s'.taskRunCache ensures u in s'.ever && SameTaskRun(s'.taskRunCache[u], s'.ever[u]) {
      }
    }
    assert RunsSound(s') && RunCacheSound(s') && SentSound(s');
    TaskRunsSame(s, s');
  }

  lemma TaskRunsSame(s: Cluster, s': Cluster)
    requires TaskRunsSound(s) && s'.ever == s.ever && s'.runs == s.runs && s'.live == s.live && s'.origin == s.origin
    ensures TaskRunsSound(s')
  {
    forall t | t in s'.ever ensures TaskRunSound(s', t) {
      assert TaskRunSound(s, t);
    }
  }

  /** Every step keeps the invariant, whatever the listers show and whichever writes get lost. */
  lemma StepKeepsInv(s: Cluster, a: Action)
    requires Inv(s) && Enabled(s, a)
    ensures Inv(Next(s, a))
  {
    match a
    case ReconcileRun(n, w, name, compiled, written) =>
      EnabledConcludes(s, n, w, name, compiled, written);
      EffectKeepsInv(s, n, w, name, compiled, written, VerdictAt(s, n, w), ResultAt(s, n, w));
    case SyncRun(n) => SyncRunKeepsInv(s, n);
    case SyncTaskRun(t) => SyncTaskRunKeepsInv(s, t);
    case _ => OtherStepKeepsInv(s, a);
  }

  lemma {:induction false} ReachableInv(states: seq<Cluster>, actions: seq<Action>, i: nat)
    requires Path(states, actions) && Init(states[0]) && i < |states|
    ensures Inv(states[i])
  {
    if i > 0 {
      ReachableInv(states, actions, i - 1);
      assert StepAt(states, actions, i - 1);
      StepKeepsInv(states[i - 1], actions[i - 1]);
    }
  }
}
