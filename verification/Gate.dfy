/** The gate in front of the compiler: which TaskGroups and Tasks it is ever given. */
module Gate {
  import opened Text
  import opened Types
  import opened Compiler
  import opened CompilerFacts
  import opened Validation
  import opened RunModel
  import opened Reconciler
  import opened Protocol
  import opened ProtocolFacts

  /** Validation, as the controller runs it, lets only gated TaskGroups pass: the assumption on the
      world under which whole runs are considered holds of every backend. */
  lemma BackendIsLawful(w: Backend)
    ensures Lawful(AsWorld(w))
  {
    forall spec | AsWorld(w).valid(spec) ensures Gated(spec) {
      assert Valid(w.validators, spec);
    }
  }

  /** `fetchUsesTaskSpec` succeeds exactly when every used Task can be fetched, and then returns the
      Tasks of exactly the `uses` steps, at their indices. */
  lemma {:induction false} UsedTasksExactly(steps: seq<GroupStep>, tasks: map<string, TaskSpec>)
    ensures UsedTasks(steps, tasks).Some? <==>
            forall i :: 0 <= i < |steps| && steps[i].uses.Some? ==> steps[i].uses.value.taskRef in tasks
    ensures UsedTasks(steps, tasks).Some? ==> forall i ::
            (i in UsedTasks(steps, tasks).value <==> 0 <= i < |steps| && steps[i].uses.Some?)
    ensures UsedTasks(steps, tasks).Some? ==> forall i :: i in UsedTasks(steps, tasks).value ==>
            0 <= i < |steps| && steps[i].uses.Some? && steps[i].uses.value.taskRef in tasks
            && UsedTasks(steps, tasks).value[i] == tasks[steps[i].uses.value.taskRef]
  {
    if steps != [] {
      UsedTasksExactly(steps[..|steps| - 1], tasks);
    }
  }

  /** The Tasks for exactly the `uses` steps, as they can be fetched. */
  ghost predicate Supplies(spec: TaskGroupSpec, tasks: map<string, TaskSpec>, used: map<int, TaskSpec>) {
    && (forall i :: i in used <==> 0 <= i < |spec.steps| && spec.steps[i].uses.Some?)
    && forall i :: i in used ==>
         spec.steps[i].uses.value.taskRef in tasks && used[i] == tasks[spec.steps[i].uses.value.taskRef]
  }

  lemma SuppliesExactly(spec: TaskGroupSpec, tasks: map<string, TaskSpec>, used: map<int, TaskSpec>)
    ensures Supplies(spec, tasks, used) <==> UsedTasks(spec.steps, tasks) == Some(used)
  {
    UsedTasksExactly(spec.steps, tasks);
    if Supplies(spec, tasks, used) {
      forall i | 0 <= i < |spec.steps| && spec.steps[i].uses.Some? ensures spec.steps[i].uses.value.taskRef in tasks {
        assert i in used;
      }
      var fetched := UsedTasks(spec.steps, tasks).value;
      assert forall i :: (i in used <==> i in fetched) && (i in used ==> used[i] == fetched[i]);
      assert used == fetched;
    }
  }

  /** A TaskRun is made exactly when every used Task can be fetched, the TaskGroup compiles with them
      without an error, and the API server accepts the TaskRun. */
  lemma CreatableExactly(spec: TaskGroupSpec, w: Backend)
    ensures AsWorld(w).creatable(spec) <==>
      !w.createFails && exists used :: Supplies(spec, w.tasks, used) && CompileError(spec, used, w.templating).None?
  {
    if used :| Supplies(spec, w.tasks, used) && CompileError(spec, used, w.templating).None? {
      SuppliesExactly(spec, w.tasks, used);
    }
    if Creatable(spec, w) {
      SuppliesExactly(spec, w.tasks, UsedTasks(spec.steps, w.tasks).value);
    }
  }

  /** The compiler's error for a missing Task cannot come up in the controller. */
  lemma NeverUsesNotFound(spec: TaskGroupSpec, tasks: map<string, TaskSpec>, m: Templating)
    requires UsedTasks(spec.steps, tasks).Some?
    ensures CompileError(spec, UsedTasks(spec.steps, tasks).value, m) != None ==>
            !CompileError(spec, UsedTasks(spec.steps, tasks).value, m).value.UsesNotFound?
  {
    UsedTasksExactly(spec.steps, tasks);
    NoStepUnsupplied(spec, UsedTasks(spec.steps, tasks).value, m, 0);
  }

  lemma {:induction false} NoStepUnsupplied(spec: TaskGroupSpec, used: map<int, TaskSpec>, m: Templating, i: nat)
    requires AllUsesSupplied(spec, used) && i <= |spec.steps|
    ensures StepsError(spec, used, m, i) != None ==> StepsError(spec, used, m, i).value == TemplateRejected
    decreases |spec.steps| - i
  {
    if i < |spec.steps| {
      NoStepUnsupplied(spec, used, m, i + 1);
    }
  }

  /** When the first spec is stored by the reconciliation that creates the TaskRun, the TaskRun runs a
      compilation of exactly the stored spec. */
  lemma StoredIsCompiled(run: Run, listed: map<string, TaskRun>, w: Backend, compiled: TaskSpec)
    requires VerdictOn(run, listed, AsWorld(w)).Creates? && run.status.storedSpec == None
    requires MadeFor(VerdictOn(run, listed, AsWorld(w)), w, compiled)
    ensures var r := Reconciled(run, listed, AsWorld(w));
      && r.status.storedSpec.Some? && Gated(r.status.storedSpec.value)
      && CompiledIn(r.status.storedSpec.value, w, compiled)
      && NewTaskRun(r, compiled).spec == compiled
  {
    ReconciledConcludes(run, listed, AsWorld(w));
    BackendIsLawful(w);
  }

  /** What a backend offers a reconciliation. */
  lemma BackendOffers(w: Backend, spec: TaskGroupSpec, compiled: TaskSpec)
    ensures AsWorld(w).groups == w.groups && (AsWorld(w).valid(spec) <==> Valid(w.validators, spec))
    ensures AsWorld(w).listFails == w.listFails && AsWorld(w).cancelFails == w.cancelFails
    ensures AsWorld(w).labelPatchFails == w.labelPatchFails
    ensures AsWorld(w).compiles(spec, compiled) <==>
            exists used :: CompiledWith(spec, w, used, compiled)
  {
    if used :| CompiledWith(spec, w, used, compiled) {
      SuppliesExactly(spec, w.tasks, used);
    }
    if CompiledIn(spec, w, compiled) {
      var used := CompiledInWith(spec, w, compiled);
    }
  }

  /** The world is what some backend offers. */
  ghost predicate Offered(w: World) {
    exists backend: Backend :: w == AsWorld(backend)
  }

  /** The spec is what the TaskGroup compiles to with the Tasks fetched for exactly its `uses` steps. */
  ghost predicate CompiledWith(spec: TaskGroupSpec, w: Backend, used: map<int, TaskSpec>, compiled: TaskSpec) {
    && Supplies(spec, w.tasks, used)
    && CompileError(spec, used, w.templating) == None
    && Compiled(spec, used, w.templating, compiled)
  }

  lemma CompiledInWith(spec: TaskGroupSpec, w: Backend, compiled: TaskSpec) returns (used: map<int, TaskSpec>)
    requires CompiledIn(spec, w, compiled)
    ensures CompiledWith(spec, w, used, compiled)
  {
    used := UsedTasks(spec.steps, w.tasks).value;
    SuppliesExactly(spec, w.tasks, used);
  }

  lemma MadeInBackend(o: Origin, compiled: TaskSpec, w: Backend)
    requires MadeFrom(o, compiled) && o.world == AsWorld(w)
    ensures Valid(w.validators, o.spec) && CompiledIn(o.spec, w, compiled)
  {
  }

  /** In every reachable state of the system, with worlds that backends offer, every TaskRun runs what
      the compiler makes of a valid TaskGroup and the Tasks it uses, as the backend of the
      reconciliation that made it had them. */
  lemma RunsWhatItCompiles(states: seq<Cluster>, actions: seq<Action>, i: nat, t: string)
    returns (k: nat, w: Backend, used: map<int, TaskSpec>)
    requires Path(states, actions) && Init(states[0]) && i < |states| && t in states[i].ever
    requires forall j :: 0 <= j < |actions| && actions[j].ReconcileRun? ==> Offered(actions[j].world)
    ensures k < i && actions[k].ReconcileRun? && actions[k].name == t && actions[k].world == AsWorld(w)
    ensures t in states[i].origin && Valid(w.validators, states[i].origin[t].spec)
    ensures CompiledWith(states[i].origin[t].spec, w, used, states[i].ever[t].spec)
  {
    k := MadeFromGated(states, actions, i, t);
    w :| actions[k].world == AsWorld(w);
    MadeInBackend(states[i].origin[t], states[i].ever[t].spec, w);
    used := CompiledInWith(states[i].origin[t].spec, w, states[i].ever[t].spec);
  }
}
