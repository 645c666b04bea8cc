/** The API objects: what a TaskGroup and the Tasks it uses declare. */
module Types {
  import opened Text

  /** Everything that is declared in a list and found by its name. */
  datatype Named<B> = Named(name: string, body: B)

  datatype ParamType = StringParam | ArrayParam
  datatype ParamBody = ParamBody(kind: ParamType, description: string, default: Option<seq<string>>)
  type ParamSpec = Named<ParamBody>

  datatype WorkspaceBody = WorkspaceBody(description: string, mountPath: string, readOnly: bool, optional: bool)
  type Workspace = Named<WorkspaceBody>

  type TaskResult = Named<string>
  type Sidecar = Named<string>
  type Volume = Named<string>

  datatype EnvVar = EnvVar(name: string, value: string)

  /** A step.  `texts` are the texts the replacer goes over one by one besides the named ones: the
      pull policy, the working directory, and those in env sources and volume mounts.  `other` stands
      for the fields it neither reads nor writes. */
  datatype Step = Step(name: string, image: string, script: string, args: seq<string>, command: seq<string>,
                       env: seq<EnvVar>, texts: seq<string>, other: string)

  /** A step template. */
  datatype Container = Container(image: string, args: seq<string>, command: seq<string>, env: seq<EnvVar>,
                                 texts: seq<string>, other: string)

  datatype TaskSpec = TaskSpec(description: string, params: seq<ParamSpec>, steps: seq<Step>,
                               workspaces: seq<Workspace>, results: seq<TaskResult>,
                               sidecars: seq<Sidecar>, volumes: seq<Volume>,
                               stepTemplate: Option<Container>)

  /** `name` of the used Task stands for `target` of the TaskGroup. */
  datatype Binding = Binding(name: string, target: string)

  datatype Uses = Uses(taskRef: string, paramBindings: seq<Binding>, workspaceBindings: seq<Binding>)

  datatype GroupStep = GroupStep(step: Step, uses: Option<Uses>)

  datatype TaskGroupSpec = TaskGroupSpec(description: string, params: seq<ParamSpec>, steps: seq<GroupStep>,
                                         workspaces: seq<Workspace>, results: seq<TaskResult>,
                                         sidecars: seq<Sidecar>, volumes: seq<Volume>,
                                         stepTemplate: Option<Container>)

  /** A `uses` without the name of a Task. */
  predicate NamelessUses(step: GroupStep) {
    step.uses.Some? && step.uses.value.taskRef == ""
  }
}
