# TaskGroup: compiler and controller

A `TaskGroup` is a Tekton custom task: a list of steps, some of which say that they use a whole Task. Its controller
compiles the group into one TaskSpec, makes a TaskRun from it, and carries the TaskRun's outcome over to the Run that
asked for it. The modules here model both halves and prove what they promise.

**The compiler** (`Text`, `Substitution`, `Bindings`, `Meaning`, `Arrays`, `Types`, `Merging`, `Names`, `Compiler`,
`CompilerFacts`, `Declarations`, `Existence`, `StepMeaning`, `StepNames`, `Closure`, `Literals`). Texts are character
sequences, references are the characters `$(key)`, and replacing them is a left-to-right pass over the characters.
`Text.Eval` is the meaning of a text, a simultaneous substitution; `Substitution` shows that the replacer computes it,
`Bindings` builds the replacement tables, `Meaning` shows that rewriting through bindings preserves what a text says
at run time and when it does not, `Arrays` the same for arguments, which may stand for the elements of an array.
`Merging` has the two loops that all five mergers share; a merger is told apart by its clash rule. `Compiler` is
`TaskSpec` with its loops and its object under construction, proved against the declarative specification
`CompileError` / `Compiled`. `CompilerFacts` says what that specification amounts to for the output steps,
`Declarations`, by the index of steps, bindings and declarations, when there is which error and what the output
declares; `Existence` shows that it can be met, `Literals` says letter by letter which references are rewritten and
evaluated, `StepMeaning`, `StepNames` and `Closure` what the compiled steps mean, how they are called and what they
refer to.

**The controller** (`Validation`, `RunModel`, `Reconciler`, `Controller`, `Protocol`, `ProtocolFacts`, `Convergence`,
`Verdicts`, `Creations`, `Endings`, `Accidents`, `Gate`, `Outcomes`). `RunModel` holds Runs and TaskRuns as values and
the decision table of a reconciliation, `Reconciler` the methods that update a Run object and the API server in place,
proved to carry out that table, `Outcomes` says by the fields of the Run and of the objects on the server what the
table amounts to, `Controller` the framework around them, proved to be a step of the system in `Protocol`. `Protocol`
puts reconciliations into a system with stale listers, lost status writes, users who cancel and delete, and TaskRuns
that progress, and proves its invariant; `ProtocolFacts` has the results over whole runs, `Convergence` the fixed
point, `Verdicts`, `Creations` and `Endings` the exact conditions, `Accidents` runs in which things go wrong outside
them, `Gate` the link to validation and compiler.

## How to read the results

- Names are clean: bound names and binding targets hold none of `$`, `(`, `)`, and for arrays no `[`. Kubernetes names
  do not; nothing in the repository checks it for binding targets (`Uses.Validate` has a TODO).
- `ApplyStepReplacements` is Tekton's and is in `vendor/`: it runs Go's `strings.Replacer`, which makes one pass. The
  model follows it, so chained and swapped bindings are handled correctly and no condition on targets is needed.
  Replacing entry by entry would need one; `Substitution.InTurnSafeExactly` says exactly which.
- At run time Tekton knows four ways to write a param reference and the compiler's table has three; it expands an
  argument that is one reference to an array, starred or not, while the table has no starred forms; and it resolves
  the exit code of a step by the step's name, which the compiler prefixes. So rewriting keeps what a text means
  exactly when it does not use the fourth form, `inputs.params.x`, for a param bound to another one, does not refer to
  the exit code of a step of the used Task itself, and to nothing else that a TaskRun of the Task gives other values,
  such as `context.task.name`, which is now the name of the TaskRun. The meaning of an argument is kept exactly when,
  besides, it is not a starred reference to a rebound param; in other texts, and inside a longer argument, a starred
  reference stands as it is before and after rewriting.
- A legacy or starred reference to a rebound param still names that param. It breaks reference closure exactly when
  the output does not declare it, that is, unless the group itself or another used Task declares a param of that name.
- README.md:156 of the repository says that params of the same name are one param. The mergers only compare used
  declarations with the group's own, so two used Tasks that share an undeclared name yield duplicates
  (`Merging.DistinctExactly`).
- Tekton's template merge is a parameter (`Templating`): it may reject a template, and otherwise works step by step.
  What is assumed of it beyond that is `StepFieldsWin`, stated where it is used. Templates of used Tasks are merged
  after rewriting, so references in them are not rewritten; the closure and meaning results say so.
- The protocol has the framework around `ReconcileKind` in it: the condition is reset when the generation is new, and
  the status is written back whole unless it equals what the lister had. Users edit labels, annotations and spec of a
  Run, for one to cancel it; an edit of the spec counts the generation up, and a cancellation is not taken back.
- The protocol's steps take the world as a parameter: which TaskGroups are valid and what they compile to.
  `Gate.RunsWhatItCompiles` puts the compiler there, `Controller` shows that the controller meets it.
- A fresh name for each TaskRun is assumed where Go draws a random suffix.

## Helpers

Not in the table, since they only read the decision table or a stand-in for the API server back: the methods of
`Reconciler.ApiServer` (a JSON patch `add`, section 4.1 of RFC 6902, cancels a TaskRun; a merge patch adds and
overwrites labels and removes none), `Verdicts.SoleVerdict`, `Verdicts.CreatesExactly`,
`Verdicts.DeletedLeavesRunning`, `Outcomes.LabelsFailExactly`, `Outcomes.TaskRunsLeftAlone`.

## Model

| member | source | states |
|---|---|---|
| `Substitution.ReplaceIsEval` | vendor/github.com/tektoncd/pipeline/pkg/substitution/substitution.go:176-185 | One left-to-right pass of the replacer over characters is the simultaneous substitution of every reference, for every listing order of the table and every text, when keys hold none of `$ ( )`: matches cannot overlap and a replacement cannot complete a match. |
| `Substitution.ApplyReplacements` | vendor/github.com/tektoncd/pipeline/pkg/substitution/substitution.go:176-185 | The loop that lists the map and the replacer run: the result is a one-pass replacement for some listing of exactly the table, and with clean keys the same simultaneous substitution whatever the iteration order. |
| `Substitution.ApplyArrayReplacements` | vendor/github.com/tektoncd/pipeline/pkg/substitution/substitution.go:190-209 | The loop over the arrays: an argument that is one reference to an array, starred or not, becomes its elements; any other is one replaced text; whatever the iteration order, if no text can refer to two arrays. |
| `Text.HeadRefExact` | vendor/github.com/tektoncd/pipeline/pkg/substitution/substitution.go:176-185 | The parser finds the reference `$(k)` at the head of a text exactly when the text starts with those characters. |
| `Text.EvalNothing` | vendor/github.com/tektoncd/pipeline/pkg/substitution/substitution.go:176-185 | Evaluating under the empty table gives the text back: reading a text into references and literals loses nothing. |
| `Text.RenamingKeepsRun` | vendor/github.com/tektoncd/pipeline/pkg/substitution/substitution.go:176-185 | Rewriting references keeps the leading run of ordinary characters and the character after it, the non-overlap argument for references that start further left. |
| `Text.TokensRenamed` | vendor/github.com/tektoncd/pipeline/pkg/substitution/substitution.go:176-185 | A rewritten text holds exactly the original references, each led to its new key, and the same literals; none is made across a boundary. |
| `Text.EvalRenamed` | vendor/github.com/tektoncd/pipeline/pkg/substitution/substitution.go:176-185 | Evaluating a renamed text is evaluating the original with the renamed keys. |
| `Text.RendersDiffer` | vendor/github.com/tektoncd/pipeline/pkg/substitution/substitution.go:176-185 | Two renderings that first disagree at a reference, in the first character of its value, are different texts; used for the only-if half of `MeaningKeptExactly`. |
| `Substitution.InTurnWalksKeys` | pkg/resolve/taskgroup.go:247-274 | Replacing one entry after another leads each reference through the entries on its own, in order. |
| `Substitution.ReboundWitness` | pkg/resolve/taskgroup.go:247-274 | If a binding target is itself bound elsewhere, two orders of entry-by-entry replacement give different texts; both orders and texts are constructed. |
| `Substitution.InTurnSafeExactly` | pkg/resolve/taskgroup.go:247-274 | Entry-by-entry replacement agrees with the one-pass replacer on every text and in every order, and does not depend on the order, if and only if no target is rebound to something else. |
| `Bindings.ReadExact` | pkg/resolve/taskgroup.go:252-254 | A key reads back to the form and name it was built from, and to nothing else. |
| `Bindings.KeyInjective` | pkg/resolve/taskgroup.go:266-269 | Keys are injective across names and across all reference forms, for params and workspaces together. |
| `Bindings.ParamTable` | pkg/resolve/taskgroup.go:249-255 | The loop over the bindings yields the same table for every iteration order of the map, with exactly three entries per bound param. |
| `Bindings.WorkspaceTable` | pkg/resolve/taskgroup.go:263-270 | The loop over the bindings yields the same table for every iteration order of the map, with exactly four entries per bound workspace. |
| `Bindings.TableSize` | pkg/resolve/taskgroup.go:249-255 | A table has exactly one entry for each form and each bound name: no two coincide. |
| `Meaning.PassesCommute` | pkg/resolve/taskgroup.go:85-88 | The param pass and the workspace pass commute on every text, and together lead every reference once. |
| `Meaning.MeaningPreserved` | pkg/resolve/taskgroup.go:247-274 | For every text, environment and bindings, chained and swapped ones included, evaluating the rewritten text gives what the original gives with each bound name standing for its target and the Task's own steps for themselves, if the bound names it refers to have texts as values and it holds no offending reference. |
| `Meaning.MeaningKeptExactly` | pkg/resolve/taskgroup.go:247-274 | The meaning of a text (image, script, env value and the like) is kept for all environments if and only if it holds no offending reference: no `inputs.params.x` to a param bound to another one, no exit code of a step whose container got another name, and no other reference that gives something else than in a TaskRun of the used Task, such as `context.task.name`. Starred references are not expanded in texts. |
| `Meaning.OffenceChangesMeaning` | vendor/github.com/tektoncd/pipeline/pkg/reconciler/taskrun/resources/apply.go:44-50 | For every text with an offending reference, constructs values for which rewriting changes what the text evaluates to. |
| `Meaning.ExitCodeAlwaysLost` | vendor/github.com/tektoncd/pipeline/pkg/reconciler/taskrun/resources/apply.go:218-228 | With the files Tekton uses, a text whose offending references are all to exit codes of renamed steps, and which has one, never keeps its meaning, whatever the values. |
| `Meaning.EntryByEntryExact` | pkg/resolve/taskgroup.go:247-274 | For binding maps: sequential replacement agrees with one pass, and is independent of Go map order, exactly when no bound name is the target of another binding that leads elsewhere. |
| `Meaning.SwapNeedsOnePass` | pkg/resolve/taskgroup.go:249-255 | A swapped pair: one pass swaps the references; some order of sequential replacement gives the original back. |
| `Meaning.RewrittenReferences` | pkg/resolve/taskgroup.go:247-274 | The references of a rewritten text are exactly the images of the original ones. |
| `Arrays.WholeStays` | pkg/resolve/taskgroup.go:247-274 | Rewriting neither makes nor breaks an argument that is one reference and nothing else. |
| `Arrays.ArraysUnambiguous` | vendor/github.com/tektoncd/pipeline/pkg/substitution/substitution.go:190-209 | With param names free of `[` no argument refers to two arrays, so Tekton's result does not depend on its map order. |
| `Arrays.WholeArg` | vendor/github.com/tektoncd/pipeline/pkg/substitution/substitution.go:190-209 | What an argument that is one reference stands for: the elements of the array it names, starred or not, in any of the four param forms; otherwise one text. |
| `Arrays.ArgMeaningPreserved` | pkg/resolve/taskgroup.go:247-274 | For every argument, environment with texts and arrays, and bindings, the rewritten argument stands for the same list of arguments as the original with each bound name standing for its target, if it holds no offending reference and is no starred reference to a rebound param. |
| `Arrays.ArgMeaningKeptExactly` | pkg/resolve/taskgroup.go:247-274 | The meaning of an argument is kept for all environments if and only if it holds no offending reference, as for texts, and is not itself a starred reference, in any of the four forms, to a param bound to another one. |
| `Arrays.StarChangesArg` | pkg/resolve/taskgroup.go:252-254 | For every starred argument that refers to a rebound param, constructs arrays for which rewriting changes what it stands for. |
| `Arrays.StarredReferenceKept` | pkg/resolve/taskgroup.go:252-254 | A starred reference comes out of rewriting as it went in. |
| `Literals.ParamsRewritten` | pkg/resolve/taskgroup.go:252-254 | Letter by letter: in front of any rest, `$(params.x)`, `$(params['x'])` and `$(params["x"])` become the same spelling with the bound target, or stay if `x` is not bound; `$(inputs.params.x)` stays. |
| `Literals.WorkspacesRewritten` | pkg/resolve/taskgroup.go:266-269 | Letter by letter: `$(workspaces.x.path)`, `.bound`, `.claim` and `.volume` become the same with the bound target, or stay; `$(steps.x.exitCode.path)` stays. |
| `Literals.RestCopied` | pkg/resolve/taskgroup.go:247-274 | The empty text stays empty and a character other than `$` is copied, the rest rewritten on its own. |
| `Literals.ParamsEvaluated` | vendor/github.com/tektoncd/pipeline/pkg/reconciler/taskrun/resources/apply.go:44-50 | When the TaskRun is executed each of the four spellings of a reference to a param gives its text. |
| `Literals.WorkspacesEvaluated` | vendor/github.com/tektoncd/pipeline/pkg/reconciler/taskrun/resources/apply.go:128-228 | References to the path, bound mark, claim and volume of a workspace, and to the exit code of a step, give their own values. |
| `Literals.ArraysEvaluated` | vendor/github.com/tektoncd/pipeline/pkg/substitution/substitution.go:190-209 | An argument that is one of the eight spellings of a reference to an array, four plain and four starred, stands for its elements. |
| `Merging.MergeNamed` | pkg/resolve/taskgroup.go:122-138 | The two loops of every merger: the error is the first used declaration that clashes with the last of the group's own of its name; otherwise the result is the group's list followed by what it keeps of the used ones. |
| `Merging.FailsExactly` | pkg/resolve/taskgroup.go:128-136 | A merge fails exactly when some used declaration clashes with the group's last declaration of its name. |
| `Merging.Multiplicity` | pkg/resolve/taskgroup.go:120-140 | Conservation: the group's list is a prefix of the result; a name it declares keeps its multiplicity and every other name has the multiplicity it has among the used ones. |
| `Merging.KeptExactly` | pkg/resolve/taskgroup.go:128-136 | What is kept is exactly the used declarations of names the group does not declare. |
| `Merging.NothingDropped` | pkg/resolve/taskgroup.go:198-203 | When group and used names are disjoint, as success demands for sidecars and volumes, nothing is dropped. |
| `Merging.DistinctExactly` | pkg/resolve/taskgroup.go:123-136 | The result has no duplicate name if and only if the group has none and no name it leaves undeclared comes twice from used Tasks (README.md:156 promises more). |
| `Merging.BatchedExactly` | pkg/resolve/taskgroup.go:120-140 | Merging two batches in one call equals merging one after the other, success included, exactly when no kept name of the second is a kept name of the first. |
| `Compiler.MergeStepsWithStepTemplate` | vendor/github.com/tektoncd/pipeline/pkg/apis/pipeline/v1beta1/merge.go:38-64 | No template leaves the steps alone; otherwise each step is laid over the template on its own, keeping number and order, or the template is rejected. |
| `Compiler.ReplaceArgs` | vendor/github.com/tektoncd/pipeline/pkg/apis/pipeline/v1beta1/container_replacements.go:30-35 | The loop over args or command: each becomes the elements of an array or one replaced text, in order; without arrays, as in the compiler, their number stays. |
| `Compiler.ApplyStepReplacements` | vendor/github.com/tektoncd/pipeline/pkg/apis/pipeline/v1beta1/step_replacements.go:24-27 | Each text of the step goes through the replacer, each with its own listing of the table; the numbers of args, command words, env variables and further texts, and the env names, stay. |
| `Compiler.InlineStep` | pkg/resolve/taskgroup.go:234-242 | Param pass, then workspace pass, then the prefix and a dash in front of the already rewritten name. |
| `Compiler.ResolveSteps` | pkg/resolve/taskgroup.go:230-245 | A fresh slice holding, at each index, the inlined form of the used Task's step at that index. |
| `Compiler.CollectBindings` | pkg/resolve/taskgroup.go:45-49 | The binding map: the last binding of a name counts. |
| `Compiler.CollectUnbound` | pkg/resolve/taskgroup.go:50-55 | The used declarations whose names are not bound, in order. |
| `Compiler.UnboundExactly` | pkg/resolve/taskgroup.go:50-55 | A used declaration is collected exactly when its name is not bound. |
| `Compiler.UnboundByNothing` | pkg/resolve/taskgroup.go:56-58 | Without bindings all used declarations are collected: the two branches agree. |
| `Compiler.TaskSpecObject.constructor` | pkg/resolve/taskgroup.go:21-30 | The output starts with the group's declarations, no steps and no step template. |
| `Compiler.TaskSpecObject.MergeParams` | pkg/resolve/taskgroup.go:120-140 | Params in place: merged, or unchanged and a type conflict. |
| `Compiler.TaskSpecObject.MergeWorkspaces` | pkg/resolve/taskgroup.go:142-168 | Workspaces in place: merged, or unchanged and the first of the mountPath, readOnly and optional conflicts. |
| `Compiler.TaskSpecObject.MergeResults` | pkg/resolve/taskgroup.go:170-188 | Results in place: merged, never a conflict. |
| `Compiler.TaskSpecObject.MergeSidecars` | pkg/resolve/taskgroup.go:190-208 | Sidecars in place: merged, or unchanged and a conflict for any shared name. |
| `Compiler.TaskSpecObject.MergeVolumes` | pkg/resolve/taskgroup.go:210-228 | Volumes in place: merged, or unchanged and a conflict for any shared name. |
| `Compiler.TaskSpecObject.MergeAll` | pkg/resolve/taskgroup.go:104-115 | The five mergers in order on the group's declarations; the first conflict is the error. |
| `Compiler.InlineGroupStep` | pkg/resolve/taskgroup.go:36-103 | One turn of the loop: the block of output steps of step `i`, what it adds to the collected declarations, and its error. |
| `Compiler.ResolveTaskSpec` | pkg/resolve/taskgroup.go:20-118 | The compiler refines its declarative specification: its error is `CompileError`, and without one the output is a `Compiled` spec (blocks flattened in order, own plus kept declarations). |
| `Declarations.SucceedsExactly` | pkg/resolve/taskgroup.go:20-118 | By index, for all inputs: compilation succeeds if and only if every `uses` has its Task and every template is accepted, each param a step gives (declared by its Task, not bound) has the type of the group's last declaration of its name, if there is one, each workspace the mount path, read-only mark and optional mark of the group's, and no sidecar or volume of a used Task has the name of one of the group's. |
| `Declarations.FirstBadStep` | pkg/resolve/taskgroup.go:36-101 | The first step that cannot be inlined gives the error: its own name if the Task is missing, else the rejected template; it comes before any conflict. |
| `Declarations.FirstBadParam` | pkg/resolve/taskgroup.go:128-134 | With all steps fine, the first collected param of another type gives a type conflict with its name. |
| `Declarations.FirstBadWorkspace` | pkg/resolve/taskgroup.go:150-163 | With all params agreeing, the first workspace that differs gives the error, with the first of mount path, read-only mark and optional mark in which it does. |
| `Declarations.FirstBadSidecar` | pkg/resolve/taskgroup.go:190-208 | After params and workspaces, the first used sidecar of a name the group declares gives the error. |
| `Declarations.FirstBadVolume` | pkg/resolve/taskgroup.go:210-228 | Last, the first used volume of a name the group declares gives the error. |
| `Declarations.CollectedInOrder` | pkg/resolve/taskgroup.go:36-79 | Collected is, step by step in order, all results, sidecars and volumes of the Task of each `uses` step and those of its params and workspaces, picked in order, whose names no binding of the step has; nothing for other steps. |
| `Declarations.LastBindingCounts` | pkg/resolve/taskgroup.go:45-49 | Bound are exactly the names of the bindings, each to the target of the last binding of the name. |
| `Declarations.OutputDeclares` | pkg/resolve/taskgroup.go:20-118 | On success the sidecars and volumes of the output are the group's followed by those of each step's Task in order, none dropped; its params, workspaces and results are the group's followed by the collected ones, picked in order, whose names the group does not declare; its description is the group's and it has no template. |
| `Declarations.FlattenSplit` | pkg/resolve/taskgroup.go:75-79 | Lists of all steps stand one behind the other, each at its place. |
| `Declarations.OwnStepOutput` | pkg/resolve/taskgroup.go:94-102 | A step of the group comes out as it is, or as the template merge with the group's template makes it. |
| `Declarations.UsedStepOutput` | pkg/resolve/taskgroup.go:81-102 | Step `j` of the Task of step `i` comes out with every text rewritten by the step's bindings, its name behind the step's own or `unamed-` and the index, and under the template of its own Task, not the group's. |
| `CompilerFacts.OutputSteps` | pkg/resolve/taskgroup.go:36-103 | The number of output steps is the sum of the inlined lengths, and each output step is the rewritten used step, or the group's own step, under its template, at the position the order gives it. |
| `CompilerFacts.PositionOf` | pkg/resolve/taskgroup.go:102 | Every output position belongs to one step of the group. |
| `CompilerFacts.CompiledUniquely` | pkg/resolve/taskgroup.go:20-118 | For given inputs there is one compiled spec, whatever the iteration order of every Go map on the way. |
| `Existence.CompiledExists` | pkg/resolve/taskgroup.go:20-118 | Every TaskGroup without a compile error has a compiled spec, for every templating. |
| `StepMeaning.CompiledMeaning` | pkg/resolve/taskgroup.go:85-102 | For every environment, the texts of an inlined step evaluate to what those of the used step do with the bound values, and its args and command, arrays expanded, to the same lists, if they hold no offending reference, those to steps of the Task itself included; the output holds it under the used Task's template, with script, image, args and command as the step sets them. |
| `StepMeaning.HomeLeadsAway` | pkg/resolve/taskgroup.go:242 | Every step of a used Task, named or not, gets a container of another name. |
| `StepMeaning.HomeStepsExactly` | vendor/github.com/tektoncd/pipeline/pkg/pod/entrypoint.go:282-287 | The steps a Task can speak of are `step-x` for each step named `x` and `step-unnamed-i` for an unnamed step `i`. |
| `StepMeaning.HomeStepLeads` | pkg/resolve/taskgroup.go:242 | In the TaskRun of the group such a step is `step-`, the prefix, a dash and its name. |
| `StepMeaning.ExitPathsExactly` | vendor/github.com/tektoncd/pipeline/pkg/reconciler/taskrun/resources/apply.go:218-228 | There is a file `/tekton/steps/<container>/exitCode` for the container of every step, and for no other. |
| `StepMeaning.OwnStepReferenceLost` | pkg/resolve/taskgroup.go:242 | So a text in which a used Task refers to the exit code of a step of its own never means in the TaskRun what the Task means: the reference stays as it is, and is left literal or read as another step. |
| `CompilerFacts.CompiledName` | pkg/resolve/taskgroup.go:242 | The name of an inlined step is the prefix, a dash and the rewritten inner name. |
| `StepNames.UnnamedStepsApart` | pkg/resolve/taskgroup.go:81-88 | Output steps of two unnamed `uses` steps never share a name, whatever the inner names. |
| `Names.DecimalStandsFor` | pkg/resolve/taskgroup.go:83 | A number is printed in digits that stand for it, without a leading zero. |
| `Names.DecimalInjective` | pkg/resolve/taskgroup.go:83 | Decimal printing is injective. |
| `Names.NumberedInjective` | pkg/resolve/taskgroup.go:83 | A number followed by a dash can be read back from whatever follows. |
| `StepNames.InnerNamesStayApart` | pkg/resolve/taskgroup.go:242 | Within one used Task, prefixed names are equal exactly when the rewritten inner names are. |
| `StepNames.DashedMeet` | pkg/resolve/taskgroup.go:242 | A prefix, a dash and an inner name give the text that others give if and only if they are the same, or one prefix continues the other by a dash and more that starts the other inner name. |
| `StepNames.NamedStepsCanMeet` | pkg/resolve/taskgroup.go:242 | Exactly when two inlined output steps of a compiled TaskGroup have the same name. |
| `StepNames.NamesCollide` | pkg/resolve/taskgroup.go:81-88 | Whenever names can meet in this way there is a TaskGroup that compiles, without an error, to two steps of one name. |
| `StepNames.CollidingGroups` | pkg/resolve/taskgroup.go:81-84 | For example with the step names `a` and `a-b`, or with an unnamed step beside one named `unamed-0`. |
| `Closure.RewrittenTextClosed` | pkg/resolve/taskgroup.go:44-73 | A text that refers, starred or not, only to its Task's declared params and workspaces is rewritten to one that refers only to what the output declares if and only if the output declares the params of its legacy and starred references to rebound params; the binding targets have to be declared. |
| `Closure.RewrittenStepClosed` | pkg/resolve/taskgroup.go:230-245 | The same equivalence for all texts of a used step. |
| `Closure.OutputClosed` | pkg/resolve/taskgroup.go:85-102 | Reference closure: every reference, starred or not, in an inlined output step names something the output declares if the output declares the params of the references that rewriting misses, and those of the used template; without a template, if and only if. |
| `Validation.ToUpstreamSteps` | pkg/apis/taskgroup/v1alpha1/taskgroup_validation.go:99-105 | A fresh slice with the plain step at each index. |
| `Validation.ValidateSteps` | pkg/apis/taskgroup/v1alpha1/taskgroup_validation.go:66-81 | The errors are exactly one kind, at exactly the steps whose `uses` names no Task. |
| `Validation.ValidateResults` | pkg/apis/taskgroup/v1alpha1/taskgroup_validation.go:59-64 | The result errors, collected in order. |
| `Validation.Validate` | pkg/apis/taskgroup/v1alpha1/taskgroup_validation.go:41-57 | No error if and only if there are steps, every `uses` names a Task and no Tekton validator objects; missing steps and missing names are reported exactly when they are missing, and a problem of Tekton's validators exactly when one of them reports it. |
| `Validation.ValidExactly` | pkg/apis/taskgroup/v1alpha1/taskgroup_validation.go:41-57 | By field: a TaskGroup is valid if and only if it has steps, every `uses` names a Task, and Tekton's validators find nothing in its volumes, its params, the param and resource variables of its steps, and any of its results. |
| `Validation.ResultErrorsExactly` | pkg/apis/taskgroup/v1alpha1/taskgroup_validation.go:59-64 | The errors of results are exactly those of the single results. |
| `RunModel.ReconciledConcludes` | pkg/reconciler/taskgroup/taskgroup.go:80-156 | For every Run, listing and world, what the verdict and the resulting Run can be: when a TaskRun is created, cancelled or taken as the end, and what becomes of condition, record and stored spec. |
| `Outcomes.GroupExactly` | pkg/reconciler/taskgroup/taskgroup.go:215-242 | By the Run's fields: the verdict on a Run that is open is about a TaskGroup if and only if it is the one of the name in the reference, or, without a name, has exactly the spec embedded in the Run, or is empty if there is neither. |
| `Outcomes.WithoutGroup` | pkg/reconciler/taskgroup/taskgroup.go:215-242 | If there is none (no TaskGroup of that name, an embedded spec that cannot be decoded) the Run fails with reason CouldntGetTaskGroup; nothing is stored and no label changes. |
| `Outcomes.GroupTakenOver` | pkg/reconciler/taskgroup/taskgroup.go:167-171 | A TaskGroup leaves, key by key, its labels, the label `custom.tekton.dev/taskGroup` with its name, and its annotations on the Run, and its spec if none is stored, whatever comes of it otherwise. |
| `Outcomes.LeftAlone` | pkg/reconciler/taskgroup/taskgroup.go:87-122 | A Run of anything but `custom.tekton.dev/v1alpha1` `TaskGroup` is left alone; one that is done only gets its start. |
| `Outcomes.InvalidFails` | pkg/reconciler/taskgroup/taskgroup.go:173-179 | An invalid TaskGroup fails the Run with reason TaskGroupValidationFailed and leaves the record. |
| `Outcomes.UnclearStays` | pkg/reconciler/taskgroup/taskgroup.go:335-347 | If the lister fails or several TaskRuns are listed, condition and record stay. |
| `Outcomes.OneDecides` | pkg/reconciler/taskgroup/taskgroup.go:348-386 | The one TaskRun listed is recorded; success, failure and running are taken over; it is cancelled if and only if the Run is and it is neither done nor cancelled; a cancellation that fails leaves the condition. |
| `Outcomes.NoneDecides` | pkg/reconciler/taskgroup/taskgroup.go:195-210 | With none listed the Run goes on if one is on record, else if one can be made, with an empty status on record, and else fails with reason TaskGroupValidationFailed. |
| `Outcomes.RetriedExactly` | pkg/reconciler/taskgroup/taskgroup.go:134-155 | A reconciliation is tried again if and only if the Run is open and its TaskGroup cannot be had, or is valid and the lister fails, several TaskRuns are listed, or the only one cannot be cancelled. |
| `Outcomes.ListedExactly` | pkg/reconciler/taskgroup/taskgroup.go:335-336 | Listed for a Run is exactly what has the label `tekton.dev/run` with its name, whatever its other labels. |
| `Outcomes.CreatedTaskRun` | pkg/reconciler/taskgroup/taskgroup.go:257-275 | A creating step adds one TaskRun and changes no other: its label keys are those of the resulting Run and `tekton.dev/run`, which has the Run's name, every other label has the Run's value; its annotations are the Run's, it runs the compiled spec, has not started and is not cancelled. |
| `Outcomes.CreatedFromItsGroup` | pkg/reconciler/taskgroup/taskgroup.go:200-209 | It is compiled from the TaskGroup that the Run's fields lead to, which is valid. |
| `Outcomes.EmbeddedSpecRuns` | pkg/reconciler/taskgroup/taskgroup.go:232-241 | A Run with an embedded spec and no name gets a TaskRun compiled from exactly that spec, and has it stored. |
| `Outcomes.NamedGroupRuns` | pkg/reconciler/taskgroup/taskgroup.go:218-231 | A Run with a name gets a TaskRun compiled from the spec of the TaskGroup of that name, and has it stored. |
| `Outcomes.CancelledTaskRun` | pkg/reconciler/taskgroup/taskgroup.go:377-385 | A cancelling step marks one TaskRun and changes nothing else of it and no other. |
| `Outcomes.LabelsPatched` | pkg/reconciler/taskgroup/taskgroup.go:306-326 | Labels and annotations are written, key by key, over those on the server if and only if the reconciliation went on, they differ from the lister's, and the patch succeeds; no other Run changes. |
| `Outcomes.StatusReplaced` | vendor/github.com/tektoncd/pipeline/pkg/client/injection/reconciler/pipeline/v1alpha1/run/reconciler.go:241-281 | The status on the server is the one the reconciliation came to with the generation it has seen, unless that is what the lister has. |
| `Convergence.ListedForItsRun` | pkg/reconciler/taskgroup/taskgroup.go:398-409 | A TaskRun created for a Run matches the selector of another Run exactly when that has the same name, whatever labels user, Run and TaskGroup carry. |
| `Convergence.GroupLabelsGrow` | pkg/reconciler/taskgroup/taskgroup.go:411-428 | Label propagation only adds or overwrites, and doing it twice is doing it once. |
| `Convergence.AfterOnlyGrows` | pkg/reconciler/taskgroup/taskgroup.go:411-435 | A reconciliation changes nothing of a Run but labels, annotations and status, and removes no label. |
| `Reconciler.RunObject.constructor` | vendor/github.com/tektoncd/pipeline/pkg/client/injection/reconciler/pipeline/v1alpha1/run/reconciler.go:217-218 | The object the controller works on starts as a copy of what the lister holds. |
| `Reconciler.CopyEntries` | pkg/reconciler/taskgroup/taskgroup.go:392-394 | Copying entries of a map in any order gives the overlay of the two maps. |
| `Reconciler.GetTaskRunLabels` | pkg/reconciler/taskgroup/taskgroup.go:398-409 | The Run's labels if asked for, and the Run label, written last. |
| `Reconciler.TaskGroupReconciler.GetTaskGroup` | pkg/reconciler/taskgroup/taskgroup.go:215-242 | The fetched or embedded TaskGroup, or the condition CouldntGetTaskGroup. |
| `Reconciler.TaskGroupReconciler.StoreTaskGroupSpec` | pkg/reconciler/taskgroup/taskgroup.go:430-435 | Only the first spec is stored. |
| `Reconciler.TaskGroupReconciler.Propagate` | pkg/reconciler/taskgroup/taskgroup.go:411-428 | Labels and annotations of the TaskGroup over those of the Run, the TaskGroup's name last. |
| `Reconciler.TaskGroupReconciler.FetchUsesTaskSpec` | pkg/reconciler/taskgroup/taskgroup.go:278-304 | The Tasks of the `uses` steps at their indices, or nothing if one cannot be fetched. |
| `Reconciler.TaskGroupReconciler.CreateTaskRun` | pkg/reconciler/taskgroup/taskgroup.go:244-276 | A TaskRun is made exactly when the Tasks can be fetched, the TaskGroup compiles and the call succeeds; it carries a compilation of the spec, the Run's labels and annotations, and the server changes by exactly it. |
| `Reconciler.TaskGroupReconciler.ProcessTaskRun` | pkg/reconciler/taskgroup/taskgroup.go:375-387 | A cancellation is sent exactly to an unfinished, uncancelled TaskRun of a cancelled Run. |
| `Reconciler.TaskGroupReconciler.UpdateTaskRunStatus` | pkg/reconciler/taskgroup/taskgroup.go:328-373 | What the listing means: nothing, several, failing, running or ended; record and cancellation accordingly. |
| `Reconciler.TaskGroupReconciler.UpdateLabelsAndAnnotations` | pkg/reconciler/taskgroup/taskgroup.go:306-326 | The Run on the server is patched exactly when labels or annotations differ from the lister's; it fails exactly when the Run is unknown to the lister or a needed patch fails. |
| `Reconciler.TaskGroupReconciler.LoadGroup` | pkg/reconciler/taskgroup/taskgroup.go:161-179 | Fetch, store, propagate, validate: the whole resulting Run and its condition. |
| `Reconciler.TaskGroupReconciler.FollowTaskRun` | pkg/reconciler/taskgroup/taskgroup.go:181-213 | The second half of `reconcile` agrees with the decision table: condition, record, server state, error. |
| `Reconciler.TaskGroupReconciler.Reconcile` | pkg/reconciler/taskgroup/taskgroup.go:158-213 | The imperative `reconcile` computes exactly the verdict, the resulting Run and the server state of the decision table. |
| `Reconciler.TaskGroupReconciler.ReconcileKind` | pkg/reconciler/taskgroup/taskgroup.go:80-156 | The whole reconciliation, started and done checks, label patch and exact error condition included, refines the pure specification that the protocol below is built on. |
| `Gate.BackendIsLawful` | pkg/apis/taskgroup/v1alpha1/taskgroup_validation.go:41-57 | The assumption on the world made in the protocol (only TaskGroups with steps and named Tasks pass) holds of every backend. |
| `Gate.UsedTasksExactly` | pkg/reconciler/taskgroup/taskgroup.go:278-304 | Fetching succeeds if and only if every used Task is there, and then returns exactly the `uses` indices with their Tasks. |
| `Gate.CreatableExactly` | pkg/reconciler/taskgroup/taskgroup.go:244-275 | A TaskRun can be made if and only if there are Tasks for exactly the `uses` steps, each found by its name, the TaskGroup compiles with them without an error, and the API server accepts it. |
| `Gate.BackendOffers` | pkg/reconciler/taskgroup/taskgroup.go:244-276 | What a TaskGroup compiles to in a backend is exactly what the compiler makes of it with those Tasks. |
| `Gate.NeverUsesNotFound` | pkg/resolve/taskgroup.go:40-43 | The compiler's not-found error cannot come up in `createTaskRun`. |
| `Gate.StoredIsCompiled` | pkg/reconciler/taskgroup/taskgroup.go:167-179 | When the first spec is stored by the reconciliation that creates the TaskRun, the TaskRun runs a compilation of exactly the stored spec. |
| `Gate.RunsWhatItCompiles` | pkg/reconciler/taskgroup/taskgroup.go:244-276 | In every reachable state every TaskRun runs what the compiler makes of a valid TaskGroup and the Tasks fetched for exactly its `uses` steps, with the backend of the reconciliation that made the TaskRun; that reconciliation is found on the path. |
| `Controller.ReconcileCopy` | vendor/github.com/tektoncd/pipeline/pkg/client/injection/reconciler/pipeline/v1alpha1/run/reconciler.go:217-239 | A copy of the lister's Run, its condition reset if its generation is new, is reconciled: verdict, Run, Runs and TaskRuns on the server are those of the protocol. |
| `Controller.WriteBack` | vendor/github.com/tektoncd/pipeline/pkg/client/injection/reconciler/pipeline/v1alpha1/run/reconciler.go:241-281 | The status is written back whole, with the generation noted, unless it is what the lister had or the write fails. |
| `Controller.ProcessRun` | vendor/github.com/tektoncd/pipeline/pkg/client/injection/reconciler/pipeline/v1alpha1/run/reconciler.go:196-281 | The whole of one work queue item leaves the API server exactly as the reconciliation step of the protocol leaves it, and compiles what that step assumes compiled; a Run the lister does not know is skipped. |
| `Controller.ProcessIsStep` | vendor/github.com/tektoncd/pipeline/pkg/client/injection/reconciler/pipeline/v1alpha1/run/reconciler.go:196-281 | Such a call, with a fresh name and a TaskRun to cancel that is still there, is an enabled step of the protocol. |
| `Protocol.StepKeepsInv` | vendor/github.com/tektoncd/pipeline/pkg/client/injection/reconciler/pipeline/v1alpha1/run/reconciler.go:217-281 | Every step (reconcile, progress, edit, cancel, delete, cache sync) keeps the invariant, with stale listers and lost status writes. |
| `Protocol.ReachableInv` | vendor/github.com/tektoncd/pipeline/pkg/client/injection/reconciler/pipeline/v1alpha1/run/reconciler.go:217-281 | The invariant holds in every state of every run. |
| `ProtocolFacts.EndsOnEvidence` | pkg/reconciler/taskgroup/taskgroup.go:181-198 | In every reachable state a Run that succeeded, or failed with reason Failed, has a TaskRun made for it that ended that way, and a record implies a TaskRun. |
| `ProtocolFacts.CancelsOnRequest` | pkg/reconciler/taskgroup/taskgroup.go:375-387 | In every reachable state each TaskRun the controller cancelled belongs to a cancelled Run. |
| `ProtocolFacts.MadeFromGated` | pkg/reconciler/taskgroup/taskgroup.go:173-209 | In every reachable state each TaskRun runs what a TaskGroup with steps and a named Task for each `uses` compiled to, in the world of a reconciliation of its Run that is found on the path. |
| `Creations.SecondExactly` | pkg/reconciler/taskgroup/taskgroup.go:200-210 | A step gives a Run a second TaskRun if and only if it is a reconciliation of a Run that had one, sees it neither listed nor on record, goes on and can make one. |
| `Creations.AtMostOneExactly` | pkg/reconciler/taskgroup/taskgroup.go:200-210 | Over whole runs, with stale listers and lost status writes: no Run has had two TaskRuns if and only if no such reconciliation has happened. |
| `Creations.AtMostOneEver` | pkg/reconciler/taskgroup/taskgroup.go:200-210 | In particular at most one TaskRun is ever created per Run if each reconciliation sees an earlier creation through the listing or the record. |
| `Creations.NeverBothWays` | pkg/reconciler/taskgroup/taskgroup.go:185-194 | As long as no second TaskRun is made, a Run never counts as succeeded at one time and Failed at another. |
| `ProtocolFacts.AlwaysRemembers` | pkg/reconciler/taskgroup/taskgroup.go:328-351 | In every reachable state the server has the stored spec and a record whenever the lister has them, although status writes replace the whole status. |
| `ProtocolFacts.NeverRecreated` | pkg/reconciler/taskgroup/taskgroup.go:200-210 | Once the lister has the record, no TaskRun is ever created for the Run again, even after a deletion. |
| `ProtocolFacts.StoredOnce` | pkg/reconciler/taskgroup/taskgroup.go:430-435 | Once the lister has a stored spec, it is the one on the server and never changes in any later state. |
| `Endings.StoredLostExactly` | pkg/reconciler/taskgroup/taskgroup.go:430-435 | A reconciliation of a copy without a stored spec replaces the one on the server if and only if it is written, the copy is not done or not on its own generation, and it brings another TaskGroup or none. |
| `ProtocolFacts.DoneForGood` | pkg/reconciler/taskgroup/taskgroup.go:119-122 | While reconciliations of it read copies, however stale, that are done on their own generation, the status of a Run never changes, whatever the user edits of its labels, annotations and spec. |
| `Endings.GoesOnExactly` | pkg/reconciler/taskgroup/taskgroup.go:158-213 | A Run that is not done is not done afterwards if and only if it is no Run of a TaskGroup, or its TaskGroup is there and valid and there is a TaskRun to wait for or to make. |
| `Endings.UpToDateExactly` | pkg/reconciler/taskgroup/taskgroup.go:181-210 | Exactly when a reconciliation that goes on leaves the status as it was, told from start, stored spec, record, condition and listing. |
| `Endings.ReopensExactly` | vendor/github.com/tektoncd/pipeline/pkg/client/injection/reconciler/pipeline/v1alpha1/run/reconciler.go:217-281 | A step takes back the end of a Run if and only if it is a reconciliation that is written, reads a copy that is not done or not on its own generation, goes on, and has something new to say. |
| `Endings.StaysDoneExactly` | pkg/reconciler/taskgroup/taskgroup.go:119-122 | Over whole runs, with stale reads, lost writes and edits: a Run that is done stays done if and only if no such reconciliation happens. |
| `ProtocolFacts.SeveralAbsorb` | pkg/reconciler/taskgroup/taskgroup.go:344-347 | While reconciliations of a Run see several TaskRuns with its label, no sequence of steps creates one for it or cancels one, stale copies of the Run and edits by the user, a cancellation included. |
| `ProtocolFacts.SeveralStaysOngoing` | pkg/reconciler/taskgroup/taskgroup.go:344-347 | If they also find its TaskGroup valid, a Run that is not done stays so, again with stale copies and edits. |
| `ProtocolFacts.SeveralHold` | pkg/reconciler/taskgroup/taskgroup.go:344-347 | With current reads of a Run that is not edited its condition stays the same, reason included. |
| `ProtocolFacts.OthersLeave` | pkg/reconciler/taskgroup/taskgroup.go:328-387 | A step that neither reconciles nor cancels a Run leaves it, its TaskRuns and their cancellations alone. |
| `Convergence.FirstRound` | pkg/reconciler/taskgroup/taskgroup.go:119-156 | One fresh, error-free reconciliation leaves nothing to do, except cancelling the TaskRun just created for an already cancelled Run. |
| `Convergence.CancelRound` | pkg/reconciler/taskgroup/taskgroup.go:375-387 | That cancellation is the last change. |
| `Convergence.QuietRound` | pkg/reconciler/taskgroup/taskgroup.go:119-156 | From then on a reconciliation changes nothing on the server. |
| `Convergence.Converges` | pkg/reconciler/taskgroup/taskgroup.go:119-213 | Two rounds reach a fixed point of server state and a third changes nothing; the second changes something if and only if the Run was cancelled before it had its TaskRun. |
| `Verdicts.EndsExactly` | pkg/reconciler/taskgroup/taskgroup.go:181-198 | A Run that is not done succeeds, or gets reason Failed, if and only if a single TaskRun with its label is visible and has ended that way. |
| `Verdicts.CancelReachesTaskRun` | pkg/reconciler/taskgroup/taskgroup.go:375-387 | A fresh, error-free reconciliation of a cancelled Run leaves its unfinished TaskRun cancelled, and sends nothing if it already was. |
| `Verdicts.BlindCreatesSecond` | pkg/reconciler/taskgroup/taskgroup.go:200-210 | From any reachable state with a TaskRun, a reconciliation that sees neither listing nor record, and can make one, makes a second; one half of `SecondExactly`. |
| `Verdicts.StaleReadReopens` | vendor/github.com/tektoncd/pipeline/pkg/client/injection/reconciler/pipeline/v1alpha1/run/reconciler.go:334 | A reconciliation of an old copy that comes to Running overwrites the end of a Run with it; `ReopensExactly` has the exact condition. |
| `Verdicts.EditReopens` | vendor/knative.dev/pkg/reconciler/reconcile_common.go:63-66 | A done Run without a TaskRun gets its first one after an edit, exactly when the generation is not yet observed. |
| `Accidents.TwoTaskRuns` | pkg/reconciler/taskgroup/taskgroup.go:200-210 | A run of the system from its initial state that ends with two TaskRuns for one Run: a status write is lost and the listers lag behind. |
| `Accidents.DoneThenRunning` | vendor/github.com/tektoncd/pipeline/pkg/client/injection/reconciler/pipeline/v1alpha1/run/reconciler.go:334 | A run of the system from its initial state in which a Run that is done is running later: the retry after a TaskGroup could not be fetched reads an old copy. |
| `Accidents.SomeRunStarts` | pkg/reconciler/taskgroup/taskgroup.go:200-210 | There are a Run and two backends, of which one compiles a TaskGroup of one step, to which the two apply: the controller can have these runs. |

## Left out

- Compiler.ApplyStepReplacements: the pull policy, the working directory and the texts in env sources and volume mounts are one list of texts, not fields of their own.
- Compiler.ResolveSteps: a step is a value, so that the args, env and mount slices of a rewritten step still point into the used Task's is not captured.
- Compiler.MergeStepsWithStepTemplate: the strategic merge itself is Tekton's; only whether it rejects a template and what it does to one step are parameters, and rejection depends on the template alone.
- Meaning.MeaningPreserved: run time is one table of values, applied once; Tekton applies params, then workspaces, then others, so that a value that itself holds a reference is evaluated again, and per-step workspace mount paths differ from step to step.  Names that Go's `%q` would escape are read as plain quoted names.
- StepMeaning.CompiledMeaning: a text the template contributes is not evaluated, since the compiler does not rewrite it; a rewritten name is stated by `CompiledName`; the workspaces a step asks for (`Step.Workspaces`) are in `other`, not rewritten, and can name a workspace the output does not declare.
- StepMeaning.OwnStepReferenceLost: of steps whose names hold no references; a name that is only known when the TaskRun is executed is not followed.  Which other references mean something else in a TaskRun of the used Task (contexts, pipeline resources, which the output does not carry over) is a parameter.
- Closure.OutputClosed: of steps; the texts of used sidecars and volumes, the mount paths of workspaces and the workspaces sidecars ask for are taken over without rewriting (README.md:299-301 of the repository), so that references in them to bound names are not followed.
- Reconciler.TaskGroupReconciler.CreateTaskRun: params, workspaces, service account and pod template, which are copied from the Run, and the owner reference are not modelled.
- Reconciler.TaskGroupReconciler.FetchUsesTaskSpec: a Task is found by name in one namespace; bundles, cluster Tasks and the transient-error classification are left out, since every creation error ends the Run.
- Reconciler.TaskGroupReconciler.ReconcileKind: messages, events, logging and times are left out, with them the adjustment of `CompletionTime` (whose comment speaks of the start time); extra status fields are assumed to decode and encode.
- Creations.AtMostOneExactly: assumes that no one else puts the controller's label on a TaskRun and that the response to a creation is not lost.
- ProtocolFacts.DoneForGood: needs reads of copies that are done; `Endings.StaysDoneExactly` has the exact condition for staying done, `Accidents.DoneThenRunning` a run that violates it.
- ProtocolFacts.StoredOnce: needs the stored spec in the lister; before that it can be replaced, as `Endings.StoredLostExactly` says.
- Convergence.Converges: speaks of server state; an empty map may differ from an absent one in Go, so a patch that changes nothing can still be sent.
- Deletion of a Run, several namespaces, leader election and conflicts between concurrent status writes.
- Validation inside Tekton's own validators (volumes, param types and variables, resources, results) and of object metadata: parameters of `Validation.Validate`.
- Generated clients, informers, listers and deep copies under `pkg/client` and in `zz_generated.deepcopy.go`, the controller wiring and `cmd/controller`.
