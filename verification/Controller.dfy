/** The framework around `ReconcileKind`: it reconciles a copy of what its lister holds and writes the
    status back.  This is the step by which the system in `Protocol` reconciles. */
module Controller {
  import opened Text
  import opened Types
  import opened RunModel
  import opened Reconciler
  import opened Protocol
  import opened Convergence
  import opened Gate

  /** What the controller sees and may change of a cluster. */
  ghost predicate Shows(s: Cluster, runs: map<string, Run>, taskRuns: map<string, TaskRun>,
                        runLister: map<string, Run>, taskRunLister: map<string, TaskRun>)
  {
    s.runs == runs && s.ever == taskRuns && s.runCache == runLister && s.taskRunCache == taskRunLister
  }

  /** A copy of the Run, with its condition reset if its generation is new, is reconciled. */
  method ReconcileCopy(api: ApiServer, runLister: map<string, Run>, taskRunLister: map<string, TaskRun>, world: Backend,
                       original: Run, name: string)
    returns (run: RunObject, err: bool, ghost v: Verdict, ghost compiled: TaskSpec)
    modifies api
    ensures fresh(run)
    ensures var listed := Listed(taskRunLister, PreProcess(original));
      && v == VerdictOn(PreProcess(original), listed, AsWorld(world))
      && run.Value() == Reconciled(PreProcess(original), listed, AsWorld(world))
    ensures api.taskRuns == TaskRunsAfter(old(api.taskRuns), v, name, run.Value(), compiled)
    ensures api.runs == RunsAfter(old(api.runs), runLister, v, run.Value(), AsWorld(world))
    ensures MadeFor(v, world, compiled)
  {
    run := new RunObject(original);
    if original.status.observedGeneration != original.generation {
      run.condition := Unknown("NewObservedGenFailure");
    }
    assert run.Value() == PreProcess(original);
    var reconciler := new TaskGroupReconciler(api, runLister, taskRunLister, world);
    err, v, compiled := reconciler.ReconcileKind(run, name);
  }

  /** The status is written back unless it is what the lister had. */
  method WriteBack(api: ApiServer, original: Run, run: RunObject, written: bool)
    requires run.generation == original.generation
    modifies api`runs, run`observedGeneration
    ensures api.runs == WriteStatus(old(api.runs), original, old(run.Value()), written)
  {
    ghost var result := run.Value();
    run.observedGeneration := original.generation;
    assert run.Value() == PostProcess(result);
    if run.Value().status != original.status {
      api.UpdateStatus(run.name, run.Value().status, !written);
    }
  }

  lemma EffectShows(s: Cluster, n: string, world: Backend, name: string, compiled: TaskSpec, written: bool,
                    v: Verdict, r: Run)
    requires n in s.runCache && v == VerdictAt(s, n, AsWorld(world)) && r == ResultAt(s, n, AsWorld(world))
    ensures Shows(AfterReconcile(s, n, AsWorld(world), name, compiled, written),
                  WriteStatus(RunsAfter(s.runs, s.runCache, v, r, AsWorld(world)), s.runCache[n], r, written),
                  TaskRunsAfter(s.ever, v, name, r, compiled), s.runCache, s.taskRunCache)
  {
  }

  lemma SeesListed(s: Cluster, n: string, w: World)
    requires n in s.runCache
    ensures Listed(s.taskRunCache, PreProcess(s.runCache[n])) == Visible(s, n)
    ensures ResultAt(s, n, w).generation == s.runCache[n].generation
  {
    ListsByName(s.taskRunCache, PreProcess(s.runCache[n]), s.runCache[n]);
    ReconciledConcludes(View(s, n), Visible(s, n), w);
  }

  /** One item of the work queue.  A Run the lister does not know is skipped; otherwise the API server is
      left as the reconciliation step of the protocol leaves it. */
  method ProcessRun(api: ApiServer, runLister: map<string, Run>, taskRunLister: map<string, TaskRun>, world: Backend,
                    n: string, name: string, written: bool, ghost s: Cluster)
    returns (err: bool, ghost compiled: TaskSpec)
    requires Shows(s, api.runs, api.taskRuns, runLister, taskRunLister)
    modifies api
    ensures n !in runLister ==> Shows(s, api.runs, api.taskRuns, runLister, taskRunLister)
    ensures n in runLister ==>
              && Shows(AfterReconcile(s, n, AsWorld(world), name, compiled, written), api.runs, api.taskRuns,
                       runLister, taskRunLister)
              && MadeFor(VerdictAt(s, n, AsWorld(world)), world, compiled)
  {
    err, compiled := false, TaskSpec("", [], [], [], [], [], [], None);
    if n !in runLister { return; }
    SeesListed(s, n, AsWorld(world));
    var run;
    ghost var v;
    run, err, v, compiled := ReconcileCopy(api, runLister, taskRunLister, world, runLister[n], name);
    ghost var r := run.Value();
    WriteBack(api, runLister[n], run, written);
    EffectShows(s, n, world, name, compiled, written, v, r);
  }

  /** A call under the conditions of the protocol is a step of the protocol. */
  lemma ProcessIsStep(s: Cluster, world: Backend, n: string, name: string, compiled: TaskSpec, written: bool)
    requires n in s.runCache && name !in s.ever
    requires var v := VerdictAt(s, n, AsWorld(world));
      (v.Running? && v.cancel ==> v.name in s.live) && (v.Creates? ==> CompiledIn(v.group.spec, world, compiled))
    ensures Enabled(s, ReconcileRun(n, AsWorld(world), name, compiled, written))
    ensures Next(s, ReconcileRun(n, AsWorld(world), name, compiled, written))
         == AfterReconcile(s, n, AsWorld(world), name, compiled, written)
  {
    BackendIsLawful(world);
  }
}
