/** Runs and TaskRuns as values, and what one reconciliation of a Run amounts to. */
module RunModel {
  import opened Text
  import opened Types

  const API_VERSION := "custom.tekton.dev/v1alpha1"
  const KIND := "TaskGroup"

  /** The label that names the TaskGroup, on the Run. */
  const TASK_GROUP_LABEL := "custom.tekton.dev/taskGroup"

  /** The label that names the Run, on its TaskRuns. */
  const RUN_LABEL := "tekton.dev/run"

  type Labels = map<string, string>

  datatype TaskRunStatus = Unfinished(progress: string) | Finished(success: bool)

  datatype TaskRun = TaskRun(owner: string, labels: Labels, annotations: Labels, spec: TaskSpec,
                             status: TaskRunStatus, cancelled: bool)

  /** The Succeeded condition; an absent one counts as unknown. */
  datatype Condition = Unknown(reason: string) | True(reason: string) | False(reason: string)

  datatype GroupRef = GroupRef(apiVersion: string, kind: string, name: string)

  /** An embedded TaskGroup; there is no spec if the raw text cannot be decoded. */
  datatype Embedded = Embedded(apiVersion: string, kind: string, spec: Option<TaskGroupSpec>)

  datatype RunStatus = RunStatus(started: bool, condition: Condition, observedGeneration: nat,
                                 taskRun: Option<TaskRunStatus>, storedSpec: Option<TaskGroupSpec>)

  datatype Run = Run(name: string, ref: Option<GroupRef>, embedded: Option<Embedded>, cancelled: bool,
                     generation: nat, labels: Labels, annotations: Labels, status: RunStatus)

  datatype TaskGroup = TaskGroup(name: string, labels: Labels, annotations: Labels, spec: TaskGroupSpec)

  const NO_SPEC := TaskGroupSpec("", [], [], [], [], [], [], None)
  const NO_STATUS := Unfinished("")

  /** What a reconciliation finds outside the Run: the TaskGroups that can be fetched, which specs
      pass validation, from which a TaskRun can be made and what they compile to, and which API calls
      fail. */
  datatype World = World(groups: map<string, TaskGroup>, valid: TaskGroupSpec -> bool, creatable: TaskGroupSpec -> bool,
                         compiles: (TaskGroupSpec, TaskSpec) -> bool,
                         listFails: bool, cancelFails: bool, labelPatchFails: bool)

  predicate IsDone(run: Run) {
    !run.status.condition.Unknown?
  }

  /** The guard that only Runs of TaskGroups are reconciled. */
  predicate RefersToGroup(run: Run) {
    match run.ref
    case Some(r) => r.apiVersion == API_VERSION && r.kind == KIND
    case None => match run.embedded
      case Some(e) => e.apiVersion == API_VERSION && e.kind == KIND
      case None => false
  }

  function Fetch(run: Run, w: World): Option<TaskGroup> {
    if run.ref.Some? && run.ref.value.name != "" then
      if run.ref.value.name in w.groups then Some(w.groups[run.ref.value.name]) else None
    else match run.embedded
      case Some(Embedded(_, _, Some(spec))) => Some(TaskGroup("", map[], map[], spec))
      case Some(_) => None
      case None => Some(TaskGroup("", map[], map[], NO_SPEC))
  }

  // ---- Labels ----

  /** Labels and annotations of the TaskGroup are copied to the Run; the group's name comes last. */
  function GroupLabels(labels: Labels, g: TaskGroup): Labels {
    (labels + g.labels)[TASK_GROUP_LABEL := g.name]
  }

  /** The labels of a TaskRun: the Run's labels, if asked for, and the Run's name last. */
  function TaskRunLabels(run: Run, includeRunLabels: bool): Labels {
    (if includeRunLabels then run.labels else map[])[RUN_LABEL := run.name]
  }

  predicate Matches(selector: Labels, labels: Labels) {
    forall k :: k in selector ==> k in labels && labels[k] == selector[k]
  }

  /** The TaskRuns a lister returns for a Run. */
  function Listed(taskRuns: map<string, TaskRun>, run: Run): map<string, TaskRun> {
    map t | t in taskRuns && Matches(TaskRunLabels(run, false), taskRuns[t].labels) :: taskRuns[t]
  }

  // ---- One reconciliation ----

  /** A Run seen for the first time gets its start time and the condition reason Started. */
  function Start(run: Run): Run {
    if run.status.started then run
    else run.(status := run.status.(started := true, condition := run.status.condition.(reason := "Started")))
  }

  datatype Verdict =
    | Foreign                                          // not a Run of a TaskGroup
    | AlreadyDone
    | Unfetched                                        // no TaskGroup
    | Rejected(group: TaskGroup)                       // invalid TaskGroup
    | Unlistable(group: TaskGroup)                     // the lister failed
    | Ambiguous(group: TaskGroup)                      // several TaskRuns
    | CancelRefused(group: TaskGroup, name: string, taskRun: TaskRun)
    | Running(group: TaskGroup, name: string, taskRun: TaskRun, cancel: bool)
    | Completed(group: TaskGroup, name: string, taskRun: TaskRun)
    | Recorded(group: TaskGroup)                       // no TaskRun listed, but one on record
    | Creates(group: TaskGroup)
    | Uncreatable(group: TaskGroup)

  /** What the only listed TaskRun means for its Run. */
  function DecideSole(run: Run, g: TaskGroup, t: string, tr: TaskRun, w: World): Verdict {
    if tr.status.Finished? then Completed(g, t, tr)
    else if run.cancelled && !tr.cancelled then
      if w.cancelFails then CancelRefused(g, t, tr) else Running(g, t, tr, true)
    else Running(g, t, tr, false)
  }

  /** The verdict that the listed TaskRuns bring about, if any is listed or the lister fails. */
  ghost function DecideListed(run: Run, g: TaskGroup, listed: map<string, TaskRun>, w: World): Option<Verdict> {
    if w.listFails then Some(Unlistable(g))
    else if |listed| > 1 then Some(Ambiguous(g))
    else if |listed| == 0 then None
    else
      assert listed.Keys != {};
      var t :| t in listed;
      Some(DecideSole(run, g, t, listed[t], w))
  }

  ghost function DecideValid(run: Run, g: TaskGroup, listed: map<string, TaskRun>, w: World): Verdict {
    match DecideListed(run, g, listed, w)
    case Some(v) => v
    case None =>
      if run.status.taskRun.Some? then Recorded(g)
      else if w.creatable(g.spec) then Creates(g)
      else Uncreatable(g)
  }

  ghost function Decide(run: Run, listed: map<string, TaskRun>, w: World): Verdict {
    if !RefersToGroup(run) then Foreign
    else if IsDone(run) then AlreadyDone
    else match Fetch(run, w)
      case None => Unfetched
      case Some(g) =>
        if !w.valid(g.spec) then Rejected(g) else DecideValid(run, g, listed, w)
  }

  lemma ValidVerdictGroup(run: Run, g: TaskGroup, listed: map<string, TaskRun>, w: World)
    ensures GroupOf(DecideValid(run, g, listed, w)) == Some(g)
  {
  }

  /** The condition a verdict leads to. */
  function ConditionAfter(before: Condition, v: Verdict): Condition {
    match v
    case Unfetched => False("CouldntGetTaskGroup")
    case Rejected(_) => False("TaskGroupValidationFailed")
    case Uncreatable(_) => False("TaskGroupValidationFailed")
    case Completed(_, _, tr) => if tr.status == Finished(true) then True("Succeeded") else False("Failed")
    case Running(_, _, _, _) => Unknown("Running")
    case Recorded(_) => Unknown("Running")
    case Creates(_) => Unknown("Running")
    case _ => before
  }

  /** The recorded TaskRun status a verdict leads to. */
  function RecordAfter(before: Option<TaskRunStatus>, v: Verdict): Option<TaskRunStatus> {
    match v
    case CancelRefused(_, _, tr) => Some(tr.status)
    case Running(_, _, tr, _) => Some(tr.status)
    case Completed(_, _, tr) => Some(tr.status)
    case Creates(_) => Some(NO_STATUS)
    case _ => before
  }

  /** The TaskGroup a verdict was reached with. */
  function GroupOf(v: Verdict): Option<TaskGroup> {
    match v
    case Foreign => None
    case AlreadyDone => None
    case Unfetched => None
    case _ => Some(v.group)
  }

  /** The Run with the TaskGroup's spec on record and its labels and annotations. */
  function WithGroup(run: Run, g: TaskGroup): Run {
    run.(labels := GroupLabels(run.labels, g), annotations := run.annotations + g.annotations,
         status := run.status.(storedSpec := if run.status.storedSpec == None then Some(g.spec)
                                            else run.status.storedSpec))
  }

  /** The Run as the reconciliation leaves it. */
  function After(run: Run, v: Verdict): Run {
    var r := match GroupOf(v) case None => run case Some(g) => WithGroup(run, g);
    r.(status := r.status.(condition := ConditionAfter(run.status.condition, v),
                           taskRun := RecordAfter(run.status.taskRun, v)))
  }

  /** The TaskRun made for a Run. */
  function NewTaskRun(run: Run, compiled: TaskSpec): TaskRun {
    TaskRun(run.name, TaskRunLabels(run, true), run.annotations, compiled, NO_STATUS, false)
  }

  /** Everything one call of `ReconcileKind` does to the Run it is given. */
  ghost function Reconciled(run: Run, listed: map<string, TaskRun>, w: World): Run {
    if !RefersToGroup(run) then run else After(Start(run), Decide(Start(run), listed, w))
  }

  ghost function VerdictOn(run: Run, listed: map<string, TaskRun>, w: World): Verdict {
    if !RefersToGroup(run) then Foreign else Decide(Start(run), listed, w)
  }

  // ---- What one reconciliation does to the API server ----

  /** A cancellation is sent, or a TaskRun is created under the given name. */
  function TaskRunsAfter(taskRuns: map<string, TaskRun>, v: Verdict, name: string, run: Run, compiled: TaskSpec)
    : map<string, TaskRun>
  {
    match v
    case Running(_, t, _, true) => if t in taskRuns then taskRuns[t := taskRuns[t].(cancelled := true)] else taskRuns
    case Creates(_) => taskRuns[name := NewTaskRun(run, compiled)]
    case _ => taskRuns
  }

  /** A merge patch adds and overwrites labels and annotations, and removes none. */
  function Patched(server: Run, run: Run): Run {
    server.(labels := server.labels + run.labels, annotations := server.annotations + run.annotations)
  }

  /** The labels on the API server after `updateLabelsAndAnnotations`: patched if they differ from
      the lister's copy. */
  function RunsPatched(runs: map<string, Run>, lister: map<string, Run>, run: Run, w: World): map<string, Run> {
    if run.name !in lister || run.name !in runs || w.labelPatchFails then runs
    else if lister[run.name].labels == run.labels && lister[run.name].annotations == run.annotations then runs
    else runs[run.name := Patched(runs[run.name], run)]
  }

  /** `updateLabelsAndAnnotations` fails: the Run is not in the lister, or it needs a patch that fails. */
  predicate LabelsFail(runs: map<string, Run>, lister: map<string, Run>, run: Run, w: World) {
    run.name in lister ==>
      && (lister[run.name].labels != run.labels || lister[run.name].annotations != run.annotations)
      && (w.labelPatchFails || run.name !in runs)
  }

  function RunsAfter(runs: map<string, Run>, lister: map<string, Run>, v: Verdict, run: Run, w: World)
    : map<string, Run>
  {
    if v.Foreign? || v.AlreadyDone? then runs else RunsPatched(runs, lister, run, w)
  }

  /** Verdicts that come back as an error and are retried. */
  predicate Retried(v: Verdict) {
    v.Unfetched? || v.Unlistable? || v.Ambiguous? || v.CancelRefused?
  }

  // ---- What a reconciliation concludes ----

  predicate NamesTaskRun(v: Verdict) {
    v.Running? || v.Completed? || v.CancelRefused?
  }

  /** The condition a reconciliation starts from. */
  function StartCondition(run: Run): Condition {
    Start(run).status.condition
  }

  /** The verdict and the resulting Run, as far as a run of the whole system depends on them. */
  ghost predicate Concludes(run: Run, listed: map<string, TaskRun>, w: World, v: Verdict, r: Run) {
    && r.name == run.name && r.ref == run.ref && r.embedded == run.embedded
    && r.cancelled == run.cancelled && r.generation == run.generation
    && r.status.observedGeneration == run.status.observedGeneration
    && (v.Foreign? ==> r == run)
    && (v.AlreadyDone? ==> !run.status.condition.Unknown? && r == Start(run))
    && (!v.Foreign? && !v.AlreadyDone? ==> run.status.condition.Unknown?)
    && (!v.Foreign? ==> r.status.started)
    && (!v.Foreign? ==> r.status.condition == ConditionAfter(StartCondition(run), v))
    && r.status.taskRun == RecordAfter(run.status.taskRun, v)
    && (run.status.storedSpec.Some? ==> r.status.storedSpec == run.status.storedSpec)
    && (NamesTaskRun(v) ==> |listed| == 1 && v.name in listed && v.taskRun == listed[v.name])
    && (v.Completed? <==> NamesTaskRun(v) && v.taskRun.status.Finished?)
    && (v.Running? && v.cancel ==> run.cancelled && !v.taskRun.cancelled)
    && (v.Creates? ==>
        |listed| == 0 && run.status.taskRun == None && w.valid(v.group.spec) && w.creatable(v.group.spec))
    && (v.Creates? && run.status.storedSpec == None ==> r.status.storedSpec == Some(v.group.spec))
    && (v.Ambiguous? ==> |listed| > 1)
    && (v.Recorded? ==> |listed| == 0 && run.status.taskRun.Some?)
  }

  lemma StartConcludes(run: Run, listed: map<string, TaskRun>, w: World)
    ensures var r := Start(run);
      r.name == run.name && r.ref == run.ref && r.embedded == run.embedded && r.cancelled == run.cancelled
      && r.generation == run.generation && r.status.started && r.status.taskRun == run.status.taskRun
      && r.status.storedSpec == run.status.storedSpec && r.status.observedGeneration == run.status.observedGeneration
      && (r.status.condition.Unknown? <==> run.status.condition.Unknown?)
      && (run.status.started ==> r == run)
  {
  }

  lemma SoleConcludes(run: Run, g: TaskGroup, listed: map<string, TaskRun>, w: World)
    ensures var d := DecideListed(run, g, listed, w);
      && (d.None? <==> !w.listFails && |listed| == 0)
      && (d.Some? ==> var v := d.value;
        && (v.Unlistable? || v.Ambiguous? || NamesTaskRun(v))
        && (v.Unlistable? <==> w.listFails)
        && (v.Ambiguous? ==> |listed| > 1)
        && (NamesTaskRun(v) ==> |listed| == 1 && v.name in listed && v.taskRun == listed[v.name])
        && (v.Completed? <==> NamesTaskRun(v) && v.taskRun.status.Finished?)
        && (v.Running? && v.cancel ==> run.cancelled && !v.taskRun.cancelled))
  {
  }

  ghost predicate VerdictMeans(run: Run, listed: map<string, TaskRun>, w: World, v: Verdict) {
    && (NamesTaskRun(v) ==> |listed| == 1 && v.name in listed && v.taskRun == listed[v.name])
    && (v.Completed? <==> NamesTaskRun(v) && v.taskRun.status.Finished?)
    && (v.Running? && v.cancel ==> run.cancelled && !v.taskRun.cancelled)
    && (v.Creates? ==>
        |listed| == 0 && run.status.taskRun == None && w.valid(v.group.spec) && w.creatable(v.group.spec))
    && (v.Ambiguous? ==> |listed| > 1)
    && (v.Recorded? ==> |listed| == 0 && run.status.taskRun.Some?)
    && (v.AlreadyDone? ==> !run.status.condition.Unknown?)
    && (!v.Foreign? && !v.AlreadyDone? ==> run.status.condition.Unknown?)
  }

  lemma DecideMeans(run: Run, listed: map<string, TaskRun>, w: World)
    ensures VerdictMeans(run, listed, w, Decide(run, listed, w))
    ensures RefersToGroup(run) ==> !Decide(run, listed, w).Foreign?
  {
    var g := Fetch(run, w);
    if g.Some? {
      SoleConcludes(run, g.value, listed, w);
    }
  }

  lemma AfterConcludes(run: Run, v: Verdict)
    ensures var r := After(run, v);
      && r.name == run.name && r.ref == run.ref && r.embedded == run.embedded && r.cancelled == run.cancelled
      && r.generation == run.generation && r.status.observedGeneration == run.status.observedGeneration
      && r.status.started == run.status.started
      && r.status.condition == ConditionAfter(run.status.condition, v)
      && r.status.taskRun == RecordAfter(run.status.taskRun, v)
      && (v.AlreadyDone? ==> r == run)
      && (run.status.storedSpec.Some? ==> r.status.storedSpec == run.status.storedSpec)
      && (v.Creates? && run.status.storedSpec == None ==> r.status.storedSpec == Some(v.group.spec))
  {
  }

  /** The decision table, read off the code, has these consequences for every Run and every world. */
  lemma ReconciledConcludes(run: Run, listed: map<string, TaskRun>, w: World)
    ensures Concludes(run, listed, w, VerdictOn(run, listed, w), Reconciled(run, listed, w))
  {
    if RefersToGroup(run) {
      StartConcludes(run, listed, w);
      StartedConcludes(run, listed, w, Decide(Start(run), listed, w));
    }
  }

  lemma StartedConcludes(run: Run, listed: map<string, TaskRun>, w: World, v: Verdict)
    requires RefersToGroup(run) && v == Decide(Start(run), listed, w)
    ensures Concludes(run, listed, w, v, After(Start(run), v))
  {
    StartConcludes(run, listed, w);
    DecideMeans(Start(run), listed, w);
    AfterConcludes(Start(run), v);
  }
}
