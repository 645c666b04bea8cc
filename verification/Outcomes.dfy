/** What a reconciliation does, told by the fields of the Run and of the objects on the API server. */
module Outcomes {
  import opened Text
  import opened Types
  import opened RunModel
  import opened Protocol

  // ---- Which TaskGroup a Run runs ----

  /** The Run refers to a TaskGroup, or embeds one. */
  predicate OfTaskGroup(run: Run) {
    if run.ref.Some? then run.ref.value.apiVersion == "custom.tekton.dev/v1alpha1" && run.ref.value.kind == "TaskGroup"
    else
      && run.embedded.Some?
      && run.embedded.value.apiVersion == "custom.tekton.dev/v1alpha1" && run.embedded.value.kind == "TaskGroup"
  }

  /** A Run that a reconciliation takes further. */
  predicate Open(run: Run) {
    OfTaskGroup(run) && run.status.condition.Unknown?
  }

  /** The TaskGroup is the one the Run names, or else has the spec embedded in it, or else is empty. */
  ghost predicate Gets(run: Run, w: World, g: TaskGroup) {
    if run.ref.Some? && run.ref.value.name != "" then
      run.ref.value.name in w.groups && g == w.groups[run.ref.value.name]
    else if run.embedded.Some? then
      run.embedded.value.spec.Some? && g == TaskGroup("", map[], map[], run.embedded.value.spec.value)
    else
      g == TaskGroup("", map[], map[], TaskGroupSpec("", [], [], [], [], [], [], None))
  }

  predicate HasGroup(v: Verdict) {
    !v.Foreign? && !v.AlreadyDone? && !v.Unfetched?
  }

  lemma OfTaskGroupExactly(run: Run)
    ensures RefersToGroup(run) <==> OfTaskGroup(run)
  {
    assert API_VERSION == "custom.tekton.dev/v1alpha1" && KIND == "TaskGroup";
  }

  lemma GetsFetched(run: Run, w: World, g: TaskGroup)
    ensures Gets(run, w, g) <==> Fetch(run, w) == Some(g)
  {
  }

  /** The verdict is about the TaskGroup that the Run's fields lead to. */
  lemma GroupExactly(run: Run, listed: map<string, TaskRun>, w: World, v: Verdict, g: TaskGroup)
    requires v == VerdictOn(run, listed, w) && Open(run)
    ensures HasGroup(v) && v.group == g <==> Gets(run, w, g)
  {
    OfTaskGroupExactly(run);
    GetsFetched(run, w, g);
    SameFetch(run, w);
    if Fetch(run, w).Some? {
      ValidVerdictGroup(Start(run), Fetch(run, w).value, listed, w);
    }
  }

  lemma SameFetch(run: Run, w: World)
    ensures Fetch(Start(run), w) == Fetch(run, w)
  {
  }

  /** A Run of something else is left alone, and one that is done only gets a start time. */
  lemma LeftAlone(run: Run, listed: map<string, TaskRun>, w: World, v: Verdict, r: Run)
    requires v == VerdictOn(run, listed, w) && r == Reconciled(run, listed, w)
    ensures v.Foreign? <==> !OfTaskGroup(run)
    ensures v.AlreadyDone? <==> OfTaskGroup(run) && !run.status.condition.Unknown?
    ensures v.Foreign? || (v.AlreadyDone? && run.status.started) ==> r == run
    ensures v.AlreadyDone? ==>
              r == run.(status := run.status.(started := true, condition := r.status.condition))
    ensures !run.status.started && v.AlreadyDone? ==>
              r.status.condition == run.status.condition.(reason := "Started")
  {
    OfTaskGroupExactly(run);
    if RefersToGroup(run) {
      StartConcludes(run, listed, w);
      DecideMeans(Start(run), listed, w);
      AfterConcludes(Start(run), v);
    }
  }

  /** Of the Run itself nothing changes but labels, annotations and status. */
  predicate SameObject(run: Run, r: Run) {
    && r == run.(labels := r.labels, annotations := r.annotations, status := r.status)
    && r.status.observedGeneration == run.status.observedGeneration
  }

  /** The condition from which a reconciliation starts. */
  predicate StartsFrom(run: Run, c: Condition) {
    c == if run.status.started then run.status.condition else Unknown("Started")
  }

  lemma StartedFrom(run: Run)
    requires run.status.condition.Unknown?
    ensures StartsFrom(run, Start(run).status.condition)
    ensures Start(run) == run.(status := run.status.(started := true, condition := Start(run).status.condition))
  {
  }

  /** A Run whose TaskGroup cannot be had fails, and nothing is stored. */
  lemma WithoutGroup(run: Run, listed: map<string, TaskRun>, w: World, v: Verdict, r: Run)
    requires v == VerdictOn(run, listed, w) && r == Reconciled(run, listed, w) && Open(run)
    requires forall g :: !Gets(run, w, g)
    ensures v.Unfetched?
    ensures r == run.(status := run.status.(started := true, condition := False("CouldntGetTaskGroup")))
  {
    OfTaskGroupExactly(run);
    SameFetch(run, w);
    if Fetch(run, w).Some? {
      assert Gets(run, w, Fetch(run, w).value);
    }
    StartedFrom(run);
  }

  /** The labels are those of the Run, over which come the TaskGroup's, over which comes its name. */
  ghost predicate LabelsOf(labels: Labels, g: TaskGroup, labels': Labels) {
    && labels'.Keys == labels.Keys + g.labels.Keys + {"custom.tekton.dev/taskGroup"}
    && forall k :: k in labels' ==>
         labels'[k] == if k == "custom.tekton.dev/taskGroup" then g.name else if k in g.labels then g.labels[k]
                       else labels[k]
  }

  /** The second map's entries came over the first's. */
  ghost predicate Overlays(before: Labels, over: Labels, after: Labels) {
    && after.Keys == before.Keys + over.Keys
    && forall k :: k in after ==> after[k] == if k in over then over[k] else before[k]
  }

  lemma LabelsPropagated(labels: Labels, g: TaskGroup)
    ensures LabelsOf(labels, g, GroupLabels(labels, g))
  {
    assert TASK_GROUP_LABEL == "custom.tekton.dev/taskGroup";
  }

  /** A TaskGroup leaves its labels, its annotations and its name on the Run, and its spec if none is
      stored yet; whatever comes of it otherwise. */
  lemma GroupTakenOver(run: Run, listed: map<string, TaskRun>, w: World, g: TaskGroup, r: Run)
    requires r == Reconciled(run, listed, w) && Open(run) && Gets(run, w, g)
    ensures LabelsOf(run.labels, g, r.labels) && Overlays(run.annotations, g.annotations, r.annotations)
    ensures r.status.storedSpec == if run.status.storedSpec.Some? then run.status.storedSpec else Some(g.spec)
    ensures SameObject(run, r) && r.status.started
  {
    var v := VerdictOn(run, listed, w);
    GroupExactly(run, listed, w, v, g);
    OfTaskGroupExactly(run);
    StartedFrom(run);
    LabelsPropagated(run.labels, g);
    TakenOver(Start(run), v, g);
  }

  lemma TakenOver(run: Run, v: Verdict, g: TaskGroup)
    requires HasGroup(v) && v.group == g
    ensures After(run, v).labels == GroupLabels(run.labels, g)
    ensures Overlays(run.annotations, g.annotations, After(run, v).annotations)
    ensures After(run, v).status.storedSpec ==
            if run.status.storedSpec.Some? then run.status.storedSpec else Some(g.spec)
    ensures SameObject(run, After(run, v)) && After(run, v).status.started == run.status.started
  {
  }

  // ---- What becomes of the Run ----

  /** Condition and record after a reconciliation. */
  predicate Ends(r: Run, c: Condition, record: Option<TaskRunStatus>) {
    r.status.condition == c && r.status.taskRun == record
  }

  lemma DecidedBy(run: Run, listed: map<string, TaskRun>, w: World, g: TaskGroup, v: Verdict, r: Run)
    requires v == VerdictOn(run, listed, w) && r == Reconciled(run, listed, w) && Open(run) && Gets(run, w, g)
    ensures v == if w.valid(g.spec) then DecideValid(Start(run), g, listed, w) else Rejected(g)
    ensures Ends(r, ConditionAfter(Start(run).status.condition, v), RecordAfter(run.status.taskRun, v))
  {
    OfTaskGroupExactly(run);
    GetsFetched(run, w, g);
    SameFetch(run, w);
    ReconciledConcludes(run, listed, w);
    GroupExactly(run, listed, w, v, g);
  }

  /** An invalid TaskGroup fails the Run. */
  lemma InvalidFails(run: Run, listed: map<string, TaskRun>, w: World, g: TaskGroup, v: Verdict, r: Run)
    requires v == VerdictOn(run, listed, w) && r == Reconciled(run, listed, w) && Open(run) && Gets(run, w, g)
    requires !w.valid(g.spec)
    ensures v == Rejected(g) && Ends(r, False("TaskGroupValidationFailed"), run.status.taskRun)
  {
    DecidedBy(run, listed, w, g, v, r);
  }

  /** Without a listing or with several TaskRuns in it nothing is concluded. */
  lemma UnclearStays(run: Run, listed: map<string, TaskRun>, w: World, g: TaskGroup, v: Verdict, r: Run)
    requires v == VerdictOn(run, listed, w) && r == Reconciled(run, listed, w) && Open(run) && Gets(run, w, g)
    requires w.valid(g.spec) && (w.listFails || |listed| > 1)
    ensures v == if w.listFails then Unlistable(g) else Ambiguous(g)
    ensures StartsFrom(run, r.status.condition) && r.status.taskRun == run.status.taskRun
  {
    DecidedBy(run, listed, w, g, v, r);
    StartedFrom(run);
  }

  /** A cancellation has to be passed on to the TaskRun. */
  predicate ToCancel(run: Run, tr: TaskRun) {
    tr.status.Unfinished? && run.cancelled && !tr.cancelled
  }

  /** The one TaskRun listed is recorded; the Run ends as it has ended, and runs as long as it runs.  A
      cancellation that cannot be passed on leaves the condition alone. */
  lemma OneDecides(run: Run, listed: map<string, TaskRun>, w: World, g: TaskGroup, t: string, v: Verdict, r: Run)
    requires v == VerdictOn(run, listed, w) && r == Reconciled(run, listed, w) && Open(run) && Gets(run, w, g)
    requires w.valid(g.spec) && !w.listFails && listed.Keys == {t}
    ensures r.status.taskRun == Some(listed[t].status)
    ensures listed[t].status == Finished(true) ==> r.status.condition == True("Succeeded")
    ensures listed[t].status == Finished(false) ==> r.status.condition == False("Failed")
    ensures ToCancel(run, listed[t]) && w.cancelFails ==>
              v == CancelRefused(g, t, listed[t]) && StartsFrom(run, r.status.condition)
    ensures listed[t].status.Unfinished? && !(ToCancel(run, listed[t]) && w.cancelFails) ==>
              v == Running(g, t, listed[t], ToCancel(run, listed[t])) && r.status.condition == Unknown("Running")
    ensures listed[t].status.Finished? ==> v == Completed(g, t, listed[t])
  {
    DecidedBy(run, listed, w, g, v, r);
    StartedFrom(run);
    assert |listed| == |listed.Keys| == 1;
    assert DecideListed(Start(run), g, listed, w) == Some(DecideSole(Start(run), g, t, listed[t], w));
  }

  /** Without a TaskRun listed the Run goes on if one is on record or one can be made, and fails if not. */
  lemma NoneDecides(run: Run, listed: map<string, TaskRun>, w: World, g: TaskGroup, v: Verdict, r: Run)
    requires v == VerdictOn(run, listed, w) && r == Reconciled(run, listed, w) && Open(run) && Gets(run, w, g)
    requires w.valid(g.spec) && !w.listFails && |listed| == 0
    ensures run.status.taskRun.Some? ==> v == Recorded(g) && Ends(r, Unknown("Running"), run.status.taskRun)
    ensures run.status.taskRun.None? && w.creatable(g.spec) ==>
              v == Creates(g) && Ends(r, Unknown("Running"), Some(Unfinished("")))
    ensures run.status.taskRun.None? && !w.creatable(g.spec) ==>
              v == Uncreatable(g) && Ends(r, False("TaskGroupValidationFailed"), None)
  {
    DecidedBy(run, listed, w, g, v, r);
  }

  /** The TaskGroup is there and valid. */
  ghost predicate GetsValid(run: Run, w: World) {
    exists g :: Gets(run, w, g) && w.valid(g.spec)
  }

  lemma GetsOne(run: Run, w: World, g: TaskGroup, g': TaskGroup)
    requires Gets(run, w, g) && Gets(run, w, g')
    ensures g == g'
  {
  }

  /** The only TaskRun listed has to be cancelled. */
  ghost predicate SoleToCancel(run: Run, listed: map<string, TaskRun>) {
    exists t :: t in listed && listed.Keys == {t} && ToCancel(run, listed[t])
  }

  lemma RetriedWithGroup(run: Run, listed: map<string, TaskRun>, w: World, g: TaskGroup, v: Verdict, r: Run)
    requires v == VerdictOn(run, listed, w) && r == Reconciled(run, listed, w) && Open(run) && Gets(run, w, g)
    requires w.valid(g.spec)
    ensures Retried(v) <==> w.listFails || |listed| > 1 || (w.cancelFails && SoleToCancel(run, listed))
  {
    if w.listFails || |listed| > 1 {
      UnclearStays(run, listed, w, g, v, r);
    } else if |listed| == 0 {
      NoneDecides(run, listed, w, g, v, r);
    } else {
      var t := SoleListed(listed);
      OneDecides(run, listed, w, g, t, v, r);
    }
  }

  lemma SoleListed(listed: map<string, TaskRun>) returns (t: string)
    requires |listed| == 1
    ensures t in listed && listed.Keys == {t}
  {
    assert listed.Keys != {};
    t :| t in listed;
    assert |listed.Keys - {t}| == 0;
  }

  /** A reconciliation is tried again exactly when the TaskGroup cannot be had, the lister fails, several
      TaskRuns are listed, or the one TaskRun cannot be cancelled. */
  lemma RetriedExactly(run: Run, listed: map<string, TaskRun>, w: World)
    ensures Retried(VerdictOn(run, listed, w)) <==>
      Open(run) && ((forall g :: !Gets(run, w, g)) ||
        (GetsValid(run, w) && (w.listFails || |listed| > 1 || (w.cancelFails && SoleToCancel(run, listed)))))
  {
    var v, r := VerdictOn(run, listed, w), Reconciled(run, listed, w);
    if !Open(run) {
      LeftAlone(run, listed, w, v, r);
    } else if g :| Gets(run, w, g) {
      assert GetsValid(run, w) <==> w.valid(g.spec) by {
        if g' :| Gets(run, w, g') && w.valid(g'.spec) { GetsOne(run, w, g, g'); }
      }
      if w.valid(g.spec) {
        RetriedWithGroup(run, listed, w, g, v, r);
      } else {
        InvalidFails(run, listed, w, g, v, r);
      }
    } else {
      WithoutGroup(run, listed, w, v, r);
    }
  }

  // ---- What becomes of the API server ----

  /** The TaskRuns listed for a Run are those whose Run label is the Run's name, as they are. */
  lemma ListedExactly(taskRuns: map<string, TaskRun>, run: Run, t: string)
    ensures t in Listed(taskRuns, run) <==>
      t in taskRuns && "tekton.dev/run" in taskRuns[t].labels && taskRuns[t].labels["tekton.dev/run"] == run.name
    ensures t in Listed(taskRuns, run) ==> Listed(taskRuns, run)[t] == taskRuns[t]
  {
    var selector := TaskRunLabels(run, false);
    assert selector.Keys == {"tekton.dev/run"} && selector["tekton.dev/run"] == run.name;
  }

  /** The labels are those of the Run, over which comes the Run's name. */
  ghost predicate MarkedFor(run: Run, labels: Labels) {
    && labels.Keys == run.labels.Keys + {"tekton.dev/run"}
    && labels["tekton.dev/run"] == run.name
    && forall k :: k in run.labels && k != "tekton.dev/run" ==> labels[k] == run.labels[k]
  }

  /** A new TaskRun is the Run's, has its labels and its annotations, and runs the compiled spec. */
  ghost predicate NewFor(run: Run, compiled: TaskSpec, tr: TaskRun) {
    && MarkedFor(run, tr.labels) && tr.annotations == run.annotations && tr.owner == run.name
    && tr.spec == compiled && tr.status == Unfinished("") && !tr.cancelled
  }

  lemma NewTaskRunFor(run: Run, compiled: TaskSpec)
    ensures NewFor(run, compiled, NewTaskRun(run, compiled))
  {
    assert RUN_LABEL == "tekton.dev/run";
  }

  /** The TaskRuns are as before, but for one. */
  ghost predicate OnlyAt(t: string, ever: map<string, TaskRun>, ever': map<string, TaskRun>) {
    && ever'.Keys == ever.Keys + {t}
    && forall u :: u in ever && u != t ==> ever'[u] == ever[u]
  }

  /** A reconciliation that creates adds one TaskRun, which is the Run's as it leaves it. */
  lemma CreatedTaskRun(s: Cluster, n: string, w: World, name: string, compiled: TaskSpec, written: bool)
    requires n in s.runCache && VerdictAt(s, n, w).Creates?
    ensures var s' := AfterReconcile(s, n, w, name, compiled, written);
      && OnlyAt(name, s.ever, s'.ever)
      && NewFor(ResultAt(s, n, w), compiled, s'.ever[name])
      && s'.live == s.live + {name} && s'.sent == s.sent
  {
    NewTaskRunFor(ResultAt(s, n, w), compiled);
  }

  /** It is made from the TaskGroup that the fields of the Run lead to. */
  lemma CreatedFromItsGroup(s: Cluster, n: string, w: World, name: string, compiled: TaskSpec, written: bool,
                            g: TaskGroup)
    requires Enabled(s, ReconcileRun(n, w, name, compiled, written)) && VerdictAt(s, n, w).Creates?
    requires Gets(s.runCache[n], w, g)
    ensures var s' := AfterReconcile(s, n, w, name, compiled, written);
      && name in s'.ever && w.valid(g.spec) && w.compiles(g.spec, s'.ever[name].spec)
      && s'.origin == s.origin[name := Origin(g.spec, w)]
  {
    var run, v := View(s, n), VerdictAt(s, n, w);
    LeftAlone(run, Visible(s, n), w, v, ResultAt(s, n, w));
    assert Gets(run, w, g) by { PreProcessGets(s.runCache[n], w, g); }
    GroupExactly(run, Visible(s, n), w, v, g);
    DecidedBy(run, Visible(s, n), w, g, v, ResultAt(s, n, w));
    CreatedTaskRun(s, n, w, name, compiled, written);
  }

  lemma PreProcessGets(run: Run, w: World, g: TaskGroup)
    ensures Gets(PreProcess(run), w, g) <==> Gets(run, w, g)
  {
  }

  /** A reconciliation that cancels marks one TaskRun. */
  lemma CancelledTaskRun(s: Cluster, n: string, w: World, name: string, compiled: TaskSpec, written: bool, v: Verdict)
    requires n in s.runCache && v == VerdictAt(s, n, w) && v.Running? && v.cancel && v.name in s.ever
    ensures var s' := AfterReconcile(s, n, w, name, compiled, written);
      && OnlyAt(v.name, s.ever, s'.ever) && s'.ever[v.name] == s.ever[v.name].(cancelled := true)
      && s'.live == s.live && s'.sent == s.sent + {v.name}
  {
  }

  /** Any other reconciliation leaves the TaskRuns alone. */
  lemma TaskRunsLeftAlone(s: Cluster, n: string, w: World, name: string, compiled: TaskSpec, written: bool, v: Verdict)
    requires n in s.runCache && v == VerdictAt(s, n, w) && !v.Creates? && !(v.Running? && v.cancel)
    ensures var s' := AfterReconcile(s, n, w, name, compiled, written);
      s'.ever == s.ever && s'.live == s.live && s'.sent == s.sent && s'.origin == s.origin
  {
  }

  /** An embedded spec is what the TaskRun is compiled from, and what is stored, unless a TaskGroup is named. */
  lemma EmbeddedSpecRuns(s: Cluster, n: string, w: World, name: string, compiled: TaskSpec, written: bool,
                         spec: TaskGroupSpec)
    requires Enabled(s, ReconcileRun(n, w, name, compiled, written)) && VerdictAt(s, n, w).Creates?
    requires var run := s.runCache[n];
      && (run.ref.Some? ==> run.ref.value.name == "")
      && run.embedded.Some? && run.embedded.value.spec == Some(spec) && run.status.storedSpec.None?
    ensures VerdictAt(s, n, w).group.spec == spec && ResultAt(s, n, w).status.storedSpec == Some(spec)
    ensures w.compiles(spec, AfterReconcile(s, n, w, name, compiled, written).ever[name].spec)
  {
    var g := TaskGroup("", map[], map[], spec);
    CreatedFrom(s, n, w, name, compiled, written, g);
  }

  /** A TaskGroup that is named is fetched by that name, and its spec compiled and stored. */
  lemma NamedGroupRuns(s: Cluster, n: string, w: World, name: string, compiled: TaskSpec, written: bool, group: string)
    requires Enabled(s, ReconcileRun(n, w, name, compiled, written)) && VerdictAt(s, n, w).Creates?
    requires var run := s.runCache[n];
      run.ref.Some? && run.ref.value.name == group && group != "" && run.status.storedSpec.None?
    ensures group in w.groups && VerdictAt(s, n, w).group == w.groups[group]
    ensures ResultAt(s, n, w).status.storedSpec == Some(w.groups[group].spec)
    ensures w.compiles(w.groups[group].spec, AfterReconcile(s, n, w, name, compiled, written).ever[name].spec)
  {
    var run, v := View(s, n), VerdictAt(s, n, w);
    LeftAlone(run, Visible(s, n), w, v, ResultAt(s, n, w));
    GroupExactly(run, Visible(s, n), w, v, v.group);
    CreatedFrom(s, n, w, name, compiled, written, v.group);
  }

  lemma CreatedFrom(s: Cluster, n: string, w: World, name: string, compiled: TaskSpec, written: bool, g: TaskGroup)
    requires Enabled(s, ReconcileRun(n, w, name, compiled, written)) && VerdictAt(s, n, w).Creates?
    requires Gets(s.runCache[n], w, g) && s.runCache[n].status.storedSpec.None?
    ensures VerdictAt(s, n, w).group == g && ResultAt(s, n, w).status.storedSpec == Some(g.spec)
    ensures var s' := AfterReconcile(s, n, w, name, compiled, written);
      name in s'.ever && w.compiles(g.spec, s'.ever[name].spec)
  {
    var run, v := View(s, n), VerdictAt(s, n, w);
    PreProcessGets(s.runCache[n], w, g);
    LeftAlone(run, Visible(s, n), w, v, ResultAt(s, n, w));
    GroupExactly(run, Visible(s, n), w, v, g);
    GroupTakenOver(run, Visible(s, n), w, g, ResultAt(s, n, w));
    CreatedFromItsGroup(s, n, w, name, compiled, written, g);
  }

  // ---- Labels and status on the server ----

  /** The Run differs from the lister's copy in labels or annotations. */
  predicate NeedsPatch(cached: Run, r: Run) {
    cached.labels != r.labels || cached.annotations != r.annotations
  }

  /** Labels and annotations are written over those on the server if they differ from the lister's. */
  lemma LabelsPatched(runs: map<string, Run>, lister: map<string, Run>, v: Verdict, r: Run, w: World)
    requires r.name in runs && r.name in lister
    ensures var runs' := RunsAfter(runs, lister, v, r, w);
      && runs'.Keys == runs.Keys
      && (forall m :: m in runs && m != r.name ==> runs'[m] == runs[m])
      && (if WentOn(v) && NeedsPatch(lister[r.name], r) && !w.labelPatchFails then
            && Overlays(runs[r.name].labels, r.labels, runs'[r.name].labels)
            && Overlays(runs[r.name].annotations, r.annotations, runs'[r.name].annotations)
          else runs'[r.name] == runs[r.name])
  {
  }

  /** The reconciliation did more than look at the Run. */
  predicate WentOn(v: Verdict) {
    !v.Foreign? && !v.AlreadyDone?
  }

  /** The status on the server is replaced by the one the reconciliation came to, with the generation it
      has seen, unless that is what the lister has. */
  lemma StatusReplaced(s: Cluster, n: string, w: World, name: string, compiled: TaskSpec, r: Run)
    requires n in s.runs && n in s.runCache && r == ResultAt(s, n, w) && r.name == n
    ensures var s', st := AfterReconcile(s, n, w, name, compiled, true),
                          r.status.(observedGeneration := r.generation);
      n in s'.runs && s'.runs[n].status == if st == s.runCache[n].status then s.runs[n].status else st
  {
  }

  /** Labels cannot be written: the lister does not know the Run, or a patch is needed and fails. */
  lemma LabelsFailExactly(runs: map<string, Run>, lister: map<string, Run>, r: Run, w: World)
    ensures LabelsFail(runs, lister, r, w) <==>
      r.name !in lister || (NeedsPatch(lister[r.name], r) && (w.labelPatchFails || r.name !in runs))
  {
  }
}
