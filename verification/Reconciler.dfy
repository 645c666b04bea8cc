/** The controller's reconcile loop body, over objects it updates in place. */
module Reconciler {
  import opened Text
  import opened Types
  import opened Compiler
  import opened Validation
  import opened RunModel

  /** Everything outside the controller that it fetches from, compiles with, or may fail on. */
  datatype Backend = Backend(groups: map<string, TaskGroup>, tasks: map<string, TaskSpec>,
                             templating: Templating, validators: Validators,
                             listFails: bool, cancelFails: bool, createFails: bool, labelPatchFails: bool)

  /** The Tasks of the `uses` steps, by index, if all of them can be fetched. */
  function UsedTasks(steps: seq<GroupStep>, tasks: map<string, TaskSpec>): Option<map<int, TaskSpec>> {
    if steps == [] then Some(map[])
    else
      var i := |steps| - 1;
      match UsedTasks(steps[..i], tasks)
      case None => None
      case Some(used) => match steps[i].uses
        case None => Some(used)
        case Some(uses) => if uses.taskRef in tasks then Some(used[i := tasks[uses.taskRef]]) else None
  }

  /** Whether a TaskRun can be made from a TaskGroup. */
  predicate Creatable(spec: TaskGroupSpec, w: Backend) {
    match UsedTasks(spec.steps, w.tasks)
    case None => false
    case Some(used) => CompileError(spec, used, w.templating) == None && !w.createFails
  }

  /** `compiled` is a possible result of compiling the spec. */
  ghost predicate CompiledIn(spec: TaskGroupSpec, w: Backend, compiled: TaskSpec) {
    match UsedTasks(spec.steps, w.tasks)
    case None => false
    case Some(used) => CompileError(spec, used, w.templating) == None && Compiled(spec, used, w.templating, compiled)
  }

  /** A spec that was compiled for the TaskRun of this verdict, if it creates one. */
  ghost predicate MadeFor(v: Verdict, w: Backend, compiled: TaskSpec) {
    match v
    case Creates(g) => CompiledIn(g.spec, w, compiled)
    case _ => true
  }

  /** What the decisions of a reconciliation depend on. */
  ghost function AsWorld(w: Backend): World {
    World(w.groups, spec => Valid(w.validators, spec), spec => Creatable(spec, w),
          (spec, compiled) => CompiledIn(spec, w, compiled), w.listFails, w.cancelFails, w.labelPatchFails)
  }

  /** The Run the controller works on: a copy of what its lister returned. */
  class RunObject {
    const name: string
    const ref: Option<GroupRef>
    const embedded: Option<Embedded>
    const cancelled: bool
    const generation: nat
    var observedGeneration: nat
    var labels: Labels
    var annotations: Labels
    var started: bool
    var condition: Condition
    var taskRun: Option<TaskRunStatus>
    var storedSpec: Option<TaskGroupSpec>

    function Value(): Run
      reads this
    {
      Run(name, ref, embedded, cancelled, generation, labels, annotations,
          RunStatus(started, condition, observedGeneration, taskRun, storedSpec))
    }

    constructor (run: Run)
      ensures Value() == run
    {
      name, ref, embedded, cancelled, generation := run.name, run.ref, run.embedded, run.cancelled, run.generation;
      labels, annotations := run.labels, run.annotations;
      started, condition, observedGeneration := run.status.started, run.status.condition, run.status.observedGeneration;
      taskRun, storedSpec := run.status.taskRun, run.status.storedSpec;
    }
  }

  class ApiServer {
    var runs: map<string, Run>
    var taskRuns: map<string, TaskRun>

    method CreateTaskRun(name: string, tr: TaskRun, fails: bool) returns (ok: bool)
      modifies this`taskRuns
      ensures ok == !fails
      ensures taskRuns == if ok then old(taskRuns)[name := tr] else old(taskRuns)
    {
      ok := !fails;
      if ok { taskRuns := taskRuns[name := tr]; }
    }

    /** The JSON patch that adds `/spec/status` with the value for a cancelled TaskRun. */
    method CancelTaskRun(name: string, fails: bool) returns (ok: bool)
      modifies this`taskRuns
      ensures ok == !fails
      ensures taskRuns == if ok && name in old(taskRuns)
                          then old(taskRuns)[name := old(taskRuns)[name].(cancelled := true)] else old(taskRuns)
    {
      ok := !fails;
      if ok && name in taskRuns { taskRuns := taskRuns[name := taskRuns[name].(cancelled := true)]; }
    }

    /** The status is replaced as a whole. */
    method UpdateStatus(name: string, status: RunStatus, fails: bool)
      modifies this`runs
      ensures runs == if !fails && name in old(runs)
                      then old(runs)[name := old(runs)[name].(status := status)] else old(runs)
    {
      if !fails && name in runs { runs := runs[name := runs[name].(status := status)]; }
    }

    method PatchRun(run: Run, fails: bool) returns (ok: bool)
      modifies this`runs
      ensures ok == (!fails && run.name in old(runs))
      ensures runs == if ok then old(runs)[run.name := Patched(old(runs)[run.name], run)] else old(runs)
    {
      ok := !fails && run.name in runs;
      if ok { runs := runs[run.name := Patched(runs[run.name], run)]; }
    }
  }

  /** Copy the entries of one label map over another, in whatever order they come. */
  method CopyEntries(into: Labels, from: Labels) returns (all: Labels)
    ensures all == into + from
  {
    all := into;
    var todo := from.Keys;
    while todo != {}
      invariant todo <= from.Keys
      invariant all.Keys == into.Keys + (from.Keys - todo)
      invariant forall k :: k in all ==> all[k] == if k in from && k !in todo then from[k] else into[k]
      decreases todo
    {
      var k :| k in todo;
      all := all[k := from[k]];
      todo := todo - {k};
    }
  }

  /** `getTaskRunLabels`. */
  method GetTaskRunLabels(run: RunObject, includeRunLabels: bool) returns (labels: Labels)
    ensures labels == TaskRunLabels(run.Value(), includeRunLabels)
  {
    labels := map[];
    if includeRunLabels {
      labels := CopyEntries(labels, run.labels);
      assert labels == run.labels;
    }
    labels := labels[RUN_LABEL := run.name];
  }

  class TaskGroupReconciler {
    const api: ApiServer
    const runLister: map<string, Run>
    const taskRunLister: map<string, TaskRun>
    const world: Backend

    constructor (api: ApiServer, runLister: map<string, Run>, taskRunLister: map<string, TaskRun>, world: Backend)
      ensures this.api == api && this.runLister == runLister && this.taskRunLister == taskRunLister &&
                this.world == world
    {
      this.api, this.runLister, this.taskRunLister, this.world := api, runLister, taskRunLister, world;
    }

    /** `getTaskGroup`: a failure ends the Run. */
    method GetTaskGroup(run: RunObject) returns (g: Option<TaskGroup>)
      modifies run`condition
      ensures g == Fetch(old(run.Value()), AsWorld(world))
      ensures run.condition == if g.None? then False("CouldntGetTaskGroup") else old(run.condition)
    {
      g := None;
      if run.ref.Some? && run.ref.value.name != "" {
        if run.ref.value.name !in world.groups {
          run.condition := False("CouldntGetTaskGroup");
          return;
        }
        g := Some(world.groups[run.ref.value.name]);
      } else if run.embedded.Some? {
        if run.embedded.value.spec.None? {
          run.condition := False("CouldntGetTaskGroup");
          return;
        }
        g := Some(TaskGroup("", map[], map[], run.embedded.value.spec.value));
      } else {
        g := Some(TaskGroup("", map[], map[], NO_SPEC));
      }
    }

    /** `storeTaskGroupSpec`: only the first spec is stored. */
    method StoreTaskGroupSpec(run: RunObject, spec: TaskGroupSpec)
      modifies run`storedSpec
      ensures run.storedSpec == if old(run.storedSpec) == None then Some(spec) else old(run.storedSpec)
    {
      if run.storedSpec == None {
        run.storedSpec := Some(spec);
      }
    }

    /** `propagateTaskGroupLabelsAndAnnotations`. */
    method Propagate(run: RunObject, g: TaskGroup)
      modifies run`labels, run`annotations
      ensures run.labels == GroupLabels(old(run.labels), g)
      ensures run.annotations == old(run.annotations) + g.annotations
    {
      var labels := CopyEntries(run.labels, g.labels);
      run.labels := labels[TASK_GROUP_LABEL := g.name];
      var annotations := CopyEntries(run.annotations, g.annotations);
      run.annotations := annotations;
    }

    /** `fetchUsesTaskSpec`: one Task for each `uses` step, or nothing. */
    method FetchUsesTaskSpec(spec: TaskGroupSpec) returns (used: Option<map<int, TaskSpec>>)
      ensures used == UsedTasks(spec.steps, world.tasks)
    {
      var specs: map<int, TaskSpec> := map[];
      for i := 0 to |spec.steps|
        invariant UsedTasks(spec.steps[..i], world.tasks) == Some(specs)
      {
        assert spec.steps[..i + 1][..i] == spec.steps[..i];
        var step := spec.steps[i];
        if step.uses.None? { continue; }
        if step.uses.value.taskRef !in world.tasks {
          UnfetchedStays(spec.steps, world.tasks, i + 1);
          return None;
        }
        specs := specs[i := world.tasks[step.uses.value.taskRef]];
      }
      assert spec.steps[..|spec.steps|] == spec.steps;
      used := Some(specs);
    }

    /** `createTaskRun`: fetch, compile, create. */
    method CreateTaskRun(spec: TaskGroupSpec, run: RunObject, name: string)
      returns (tr: Option<TaskRun>, ghost compiled: TaskSpec)
      modifies api`taskRuns
      ensures tr.Some? <==> Creatable(spec, world)
      ensures tr.Some? ==> CompiledIn(spec, world, compiled) && tr.value == NewTaskRun(run.Value(), compiled)
      ensures api.taskRuns == if tr.Some? then old(api.taskRuns)[name := tr.value] else old(api.taskRuns)
    {
      tr, compiled := None, TaskSpec("", [], [], [], [], [], [], None);
      var used := FetchUsesTaskSpec(spec);
      if used.None? { return; }
      var taskSpec, err := ResolveTaskSpec(spec, used.value, world.templating);
      if err.Some? { return; }
      compiled := taskSpec.Value();
      var labels := GetTaskRunLabels(run, true);
      var annotations := CopyEntries(map[], run.annotations);
      assert annotations == run.annotations;
      var new_ := TaskRun(run.name, labels, annotations, taskSpec.Value(), NO_STATUS, false);
      var ok := api.CreateTaskRun(name, new_, world.createFails);
      if ok { tr := Some(new_); }
    }

    /** `processTaskRun`: pass a cancellation of the Run on to its TaskRun. */
    method ProcessTaskRun(run: RunObject, name: string, tr: TaskRun) returns (ok: bool, ghost sent: bool)
      modifies api`taskRuns
      ensures sent == (!tr.status.Finished? && run.cancelled && !tr.cancelled && !world.cancelFails)
      ensures ok == (sent || tr.status.Finished? || !run.cancelled || tr.cancelled)
      ensures api.taskRuns == if sent && name in old(api.taskRuns)
        then old(api.taskRuns)[name := old(api.taskRuns)[name].(cancelled := true)] else old(api.taskRuns)
    {
      ok, sent := true, false;
      if !tr.status.Finished? {
        if run.cancelled && !tr.cancelled {
          ok := api.CancelTaskRun(name, world.cancelFails);
          sent := ok;
        }
      }
    }

    /** `updateTaskRunStatus`: look for the TaskRun of the Run and record its status. */
    method UpdateTaskRunStatus(run: RunObject, ghost g: TaskGroup)
      returns (done: bool, failed: bool, err: bool, ghost v: Option<Verdict>)
      modifies run`taskRun, api`taskRuns
      ensures v == DecideListed(old(run.Value()), g, Listed(taskRunLister, old(run.Value())), AsWorld(world))
      ensures err == (v.Some? && Retried(v.value))
      ensures done == (v.Some? && v.value.Completed?)
      ensures failed == (v.Some? && v.value.Completed? && v.value.taskRun.status == Finished(false))
      ensures run.taskRun == if v.Some? then RecordAfter(old(run.taskRun), v.value) else old(run.taskRun)
      ensures api.taskRuns == if v.Some? && v.value.Running? && v.value.cancel && v.value.name in old(api.taskRuns)
        then old(api.taskRuns)[v.value.name := old(api.taskRuns)[v.value.name].(cancelled := true)]
            else old(api.taskRuns)
    {
      done, failed, err := false, false, false;
      v := DecideListed(run.Value(), g, Listed(taskRunLister, run.Value()), AsWorld(world));
      if world.listFails { return false, false, true, v; }
      var selector := GetTaskRunLabels(run, false);
      var listed := map t | t in taskRunLister &&
          RunModel.Matches(selector, taskRunLister[t].labels) :: taskRunLister[t];
      assert listed == Listed(taskRunLister, run.Value());
      if |listed| == 0 { return; }
      if |listed| > 1 { return false, false, true, v; }
      assert listed.Keys != {};
      var t :| t in listed;
      SoleKey(listed, t);
      var tr := listed[t];
      ghost var before := run.Value();
      assert v == Some(DecideSole(before, g, t, tr, AsWorld(world)));
      run.taskRun := Some(tr.status);
      var ok, sent := ProcessTaskRun(run, t, tr);
      if !ok { return false, false, true, v; }
      if tr.status.Finished? {
        done := true;
        failed := !tr.status.success;
      }
    }

    /** `updateLabelsAndAnnotations`: bring the labels on the server up to date. */
    method UpdateLabelsAndAnnotations(run: RunObject) returns (ok: bool)
      modifies api`runs
      ensures api.runs == RunsPatched(old(api.runs), runLister, run.Value(), AsWorld(world))
      ensures ok == !LabelsFail(old(api.runs), runLister, run.Value(), AsWorld(world))
    {
      if run.name !in runLister { return false; }
      var known := runLister[run.name];
      if run.labels != known.labels || run.annotations != known.annotations {
        ok := api.PatchRun(run.Value(), world.labelPatchFails);
        return;
      }
      ok := true;
    }

    /** The first half of `reconcile`: fetch the TaskGroup, take over its labels, validate it. */
    method LoadGroup(run: RunObject) returns (g: Option<TaskGroup>, valid: bool)
      modifies run`labels, run`annotations, run`condition, run`storedSpec
      ensures g == Fetch(old(run.Value()), AsWorld(world))
      ensures valid == (g.Some? && Valid(world.validators, g.value.spec))
      ensures run.condition == if g.None? then False("CouldntGetTaskGroup")
                               else if !valid then False("TaskGroupValidationFailed") else old(run.condition)
      ensures run.Value().(status := run.Value().status.(condition := old(run.condition)))
           == if g.Some? then WithGroup(old(run.Value()), g.value) else old(run.Value())
    {
      g := GetTaskGroup(run);
      valid := false;
      if g.None? { return; }
      StoreTaskGroupSpec(run, g.value.spec);
      Propagate(run, g.value);
      var errs := Validate(world.validators, g.value.spec);
      valid := errs == [];
      if !valid {
        run.condition := False("TaskGroupValidationFailed");
      }
    }

    /** The second half: look for the TaskRun, draw the conclusion, or make one. */
    method FollowTaskRun(run: RunObject, g: TaskGroup, name: string)
      returns (err: bool, ghost v: Verdict, ghost compiled: TaskSpec)
      modifies run`condition, run`taskRun, api`taskRuns
      ensures v == DecideValid(old(run.Value()), g, Listed(taskRunLister, old(run.Value())), AsWorld(world))
      ensures run.condition == ConditionAfter(old(run.condition), v)
      ensures run.taskRun == RecordAfter(old(run.taskRun), v)
      ensures api.taskRuns == TaskRunsAfter(old(api.taskRuns), v, name, run.Value(), compiled)
      ensures MadeFor(v, world, compiled)
      ensures err == Retried(v)
    {
      compiled := TaskSpec("", [], [], [], [], [], [], None);
      v := DecideValid(run.Value(), g, Listed(taskRunLister, run.Value()), AsWorld(world));
      var done, failed, retry, found := UpdateTaskRunStatus(run, g);
      if retry { return true, v, compiled; }
      if done {
        run.condition := if failed then False("Failed") else True("Succeeded");
        return false, v, compiled;
      }
      run.condition := Unknown("Running");
      if run.taskRun == None {
        var tr;
        tr, compiled := CreateTaskRun(g.spec, run, name);
        if tr.None? {
          run.condition := False("TaskGroupValidationFailed");
          return false, v, compiled;
        }
        run.taskRun := Some(tr.value.status);
      }
      err := false;
    }

    /** `reconcile`, on a Run that has started and is not done. */
    method Reconcile(run: RunObject, name: string) returns (err: bool, ghost v: Verdict, ghost compiled: TaskSpec)
      requires RefersToGroup(run.Value()) && !IsDone(run.Value())
      modifies run`labels, run`annotations, run`condition, run`taskRun, run`storedSpec, api`taskRuns
      ensures v == Decide(old(run.Value()), Listed(taskRunLister, old(run.Value())), AsWorld(world))
      ensures run.Value() == After(old(run.Value()), v)
      ensures api.taskRuns == TaskRunsAfter(old(api.taskRuns), v, name, run.Value(), compiled)
      ensures MadeFor(v, world, compiled)
      ensures err == Retried(v) && !v.Foreign? && !v.AlreadyDone?
    {
      compiled := TaskSpec("", [], [], [], [], [], [], None);
      v := Decide(run.Value(), Listed(taskRunLister, run.Value()), AsWorld(world));
      var group, valid := LoadGroup(run);
      if group.None? { return true, v, compiled; }
      if !valid { return false, v, compiled; }
      SameDecision(old(run.Value()), run.Value(), group.value, taskRunLister, AsWorld(world));
      ValidVerdictGroup(run.Value(), group.value, Listed(taskRunLister, run.Value()), AsWorld(world));
      ghost var loaded := run.Value();
      ghost var followed;
      err, followed, compiled := FollowTaskRun(run, group.value, name);
      assert followed == v;
      assert run.Value() == loaded.(status := loaded.status.(condition := ConditionAfter(old(run.condition), v),
                                                             taskRun := RecordAfter(old(run.taskRun), v)));
    }

    /** `ReconcileKind`: everything a reconciliation does to the Run and to the API server. */
    method ReconcileKind(run: RunObject, name: string) returns (err: bool, ghost v: Verdict, ghost compiled: TaskSpec)
      modifies run, api
      ensures v == VerdictOn(old(run.Value()), Listed(taskRunLister, old(run.Value())), AsWorld(world))
      ensures run.Value() == Reconciled(old(run.Value()), Listed(taskRunLister, old(run.Value())), AsWorld(world))
      ensures api.taskRuns == TaskRunsAfter(old(api.taskRuns), v, name, run.Value(), compiled)
      ensures api.runs == RunsAfter(old(api.runs), runLister, v, run.Value(), AsWorld(world))
      ensures MadeFor(v, world, compiled)
      ensures err == (Retried(v) || (!v.Foreign? && !v.AlreadyDone? &&
                                     LabelsFail(old(api.runs), runLister, run.Value(), AsWorld(world))))
    {
      compiled := TaskSpec("", [], [], [], [], [], [], None);
      v := VerdictOn(run.Value(), Listed(taskRunLister, run.Value()), AsWorld(world));
      if !(if run.ref.Some? then run.ref.value.apiVersion == API_VERSION && run.ref.value.kind == KIND
           else run.embedded.Some? && run.embedded.value.apiVersion == API_VERSION && run.embedded.value.kind == KIND) {
        return false, v, compiled;
      }
      if !run.started {
        run.started := true;
        run.condition := run.condition.(reason := "Started");
      }
      assert run.Value() == Start(old(run.Value()));
      assert Listed(taskRunLister, run.Value()) == Listed(taskRunLister, old(run.Value()));
      if !run.condition.Unknown? {
        return false, v, compiled;
      }
      var retry;
      ghost var decided;
      retry, decided, compiled := Reconcile(run, name);
      var ok := UpdateLabelsAndAnnotations(run);
      err := retry || !ok;
    }
  }

  lemma SoleKey(listed: map<string, TaskRun>, t: string)
    requires |listed| == 1 && t in listed
    ensures forall u :: u in listed ==> u == t
  {
    assert |listed.Keys - {t}| == 0;
  }

  /** Labels, annotations and the stored spec have no say in the verdict on a valid TaskGroup. */
  lemma SameDecision(run: Run, run': Run, g: TaskGroup, lister: map<string, TaskRun>, w: World)
    requires run.name == run'.name && run.cancelled == run'.cancelled && run.status.taskRun == run'.status.taskRun
    ensures Listed(lister, run) == Listed(lister, run')
    ensures DecideValid(run, g, Listed(lister, run), w) == DecideValid(run', g, Listed(lister, run'), w)
  {
    assert Listed(lister, run) == Listed(lister, run');
  }

  /** A Task that cannot be fetched for an early step is not made up for by later ones. */
  lemma {:induction false} UnfetchedStays(steps: seq<GroupStep>, tasks: map<string, TaskSpec>, n: nat)
    requires n <= |steps| && UsedTasks(steps[..n], tasks) == None
    ensures UsedTasks(steps, tasks) == None
  {
    if n == |steps| {
      assert steps[..n] == steps;
    } else {
      assert steps[..|steps| - 1][..n] == steps[..n];
      UnfetchedStays(steps[..|steps| - 1], tasks, n);
    }
  }
}
