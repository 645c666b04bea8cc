/** When a TaskGroup compiles and what the output declares, told by the index of the steps, of the
    declarations and of the bindings. */
module Declarations {
  import opened Text
  import opened Substitution
  import opened Bindings
  import opened Meaning
  import opened Types
  import opened Merging
  import opened Names
  import opened Compiler
  import opened CompilerFacts

  // ---- Names by index ----

  ghost function NamesOf<B>(ds: seq<Named<B>>): set<string> {
    set d | d in ds :: d.name
  }

  ghost function BoundNames(bs: seq<Binding>): set<string> {
    set b | b in bs :: b.name
  }

  /** The declaration at `i` is the last one of the name. */
  ghost predicate IsLast<B>(ds: seq<Named<B>>, i: int, name: string) {
    && 0 <= i < |ds| && ds[i].name == name
    && forall j :: i < j < |ds| ==> ds[j].name != name
  }

  /** The binding at `i` is the last one of the name. */
  ghost predicate IsLastBinding(bs: seq<Binding>, i: int, name: string) {
    && 0 <= i < |bs| && bs[i].name == name
    && forall j :: i < j < |bs| ==> bs[j].name != name
  }

  /** `kept` is what `ds` has at the indices `at`, in order. */
  ghost predicate Picked<B>(ds: seq<Named<B>>, at: seq<int>, kept: seq<Named<B>>) {
    && |at| == |kept|
    && (forall k :: 0 <= k < |at| ==> 0 <= at[k] < |ds| && kept[k] == ds[at[k]])
    && forall k, l :: 0 <= k < l < |at| ==> at[k] < at[l]
  }

  ghost predicate AtOthers<B>(ds: seq<Named<B>>, names: set<string>, at: seq<int>) {
    forall i :: i in at <==> 0 <= i < |ds| && ds[i].name !in names
  }

  /** `kept` is `ds` without the declarations of the names, in order. */
  ghost predicate Without<B>(ds: seq<Named<B>>, names: set<string>, kept: seq<Named<B>>) {
    exists at :: Picked(ds, at, kept) && AtOthers(ds, names, at)
  }

  lemma {:induction false} LastNamedAt<B>(ds: seq<Named<B>>, i: int, name: string)
    requires IsLast(ds, i, name)
    ensures LastNamed(ds, name) == Some(ds[i].body)
  {
    if ds[|ds| - 1].name != name {
      LastNamedAt(ds[..|ds| - 1], i, name);
    }
  }

  lemma {:induction false} SomeLast<B>(ds: seq<Named<B>>, name: string) returns (i: int)
    requires Declares(ds, name)
    ensures IsLast(ds, i, name)
  {
    if ds[|ds| - 1].name == name {
      i := |ds| - 1;
    } else {
      var j :| 0 <= j < |ds| && ds[j].name == name;
      assert ds[..|ds| - 1][j].name == name;
      i := SomeLast(ds[..|ds| - 1], name);
    }
  }

  /** The last binding of a name counts, and no other name is bound. */
  lemma {:induction false} LastBindingCounts(bs: seq<Binding>)
    ensures BindingMap(bs).Keys == BoundNames(bs)
    ensures forall i, name :: IsLastBinding(bs, i, name) ==>
              name in BindingMap(bs) && BindingMap(bs)[name] == bs[i].target
  {
    if bs != [] {
      var front, b := bs[..|bs| - 1], bs[|bs| - 1];
      LastBindingCounts(front);
      assert BoundNames(bs) == BoundNames(front) + {b.name} by {
        assert bs == front + [b];
      }
      forall i, name | IsLastBinding(bs, i, name) && name != b.name
        ensures IsLastBinding(front, i, name)
      {
      }
    }
  }

  // ---- Lists without some names ----

  lemma PickedMore<B>(ds: seq<Named<B>>, d: Named<B>, at: seq<int>, kept: seq<Named<B>>)
    requires Picked(ds, at, kept)
    ensures Picked(ds + [d], at, kept) && Picked(ds + [d], at + [|ds|], kept + [d])
  {
  }

  lemma OthersMore<B>(ds: seq<Named<B>>, d: Named<B>, names: set<string>, at: seq<int>)
    requires AtOthers(ds, names, at)
    ensures AtOthers(ds + [d], names, if d.name in names then at else at + [|ds|])
  {
    var at' := if d.name in names then at else at + [|ds|];
    forall i ensures i in at' <==> 0 <= i < |ds + [d]| && (ds + [d])[i].name !in names {
      assert i in at' <==> i in at || (d.name !in names && i == |ds|);
      if 0 <= i < |ds| { assert (ds + [d])[i] == ds[i]; }
    }
  }

  /** `kept` with `d` behind it, if its name stays. */
  lemma WithoutSnoc<B>(ds: seq<Named<B>>, d: Named<B>, names: set<string>, kept: seq<Named<B>>)
    requires Without(ds, names, kept)
    ensures Without(ds + [d], names, kept + if d.name in names then [] else [d])
  {
    var at :| Picked(ds, at, kept) && AtOthers(ds, names, at);
    PickedMore(ds, d, at, kept);
    OthersMore(ds, d, names, at);
    assert kept + [] == kept;
  }

  lemma WithoutNothing<B>(names: set<string>)
    ensures Without<B>([], names, [])
  {
    var at: seq<int> := [];
    assert Picked<B>([], at, []) && AtOthers<B>([], names, at);
  }

  /** The indices in order are determined by which there are. */
  lemma {:induction false} SameIndices(at: seq<int>, at': seq<int>)
    requires forall i :: i in at <==> i in at'
    requires forall k, l :: 0 <= k < l < |at| ==> at[k] < at[l]
    requires forall k, l :: 0 <= k < l < |at'| ==> at'[k] < at'[l]
    ensures at == at'
  {
    assert |at'| > 0 ==> at'[0] in at' && at'[0] in at;
    if at != [] {
      assert at[0] in at && at[0] in at';
      var k :| 0 <= k < |at'| && at'[k] == at[0];
      var l :| 0 <= l < |at| && at[l] == at'[0];
      assert at[0] == at'[0];
      forall i ensures i in at[1..] <==> i in at'[1..] {
        assert i in at <==> i == at[0] || i in at[1..];
        assert i in at' <==> i == at'[0] || i in at'[1..];
      }
      SameIndices(at[1..], at'[1..]);
    }
  }

  lemma WithoutUnique<B>(ds: seq<Named<B>>, names: set<string>, x: seq<Named<B>>, y: seq<Named<B>>)
    requires Without(ds, names, x) && Without(ds, names, y)
    ensures x == y
  {
    var at :| Picked(ds, at, x) && AtOthers(ds, names, at);
    var at' :| Picked(ds, at', y) && AtOthers(ds, names, at');
    SameIndices(at, at');
  }

  lemma UnboundSnoc<B>(ds: seq<Named<B>>, d: Named<B>, b: map<string, string>)
    ensures Unbound(ds + [d], b) == Unbound(ds, b) + if d.name in b then [] else [d]
  {
    assert (ds + [d])[..|ds|] == ds;
  }

  lemma {:induction false} UnboundWithout<B>(ds: seq<Named<B>>, b: map<string, string>)
    ensures Without(ds, b.Keys, Unbound(ds, b))
  {
    if ds == [] {
      WithoutNothing<B>(b.Keys);
    } else {
      var front, d := ds[..|ds| - 1], ds[|ds| - 1];
      assert front + [d] == ds;
      UnboundWithout(front, b);
      UnboundOneMore(front, d, b);
    }
  }

  lemma UnboundOneMore<B>(ds: seq<Named<B>>, d: Named<B>, b: map<string, string>)
    requires Without(ds, b.Keys, Unbound(ds, b))
    ensures Without(ds + [d], b.Keys, Unbound(ds + [d], b))
  {
    WithoutSnoc(ds, d, b.Keys, Unbound(ds, b));
    UnboundSnoc(ds, d, b);
  }

  lemma {:induction false} KeptWithout<B>(own: seq<Named<B>>, used: seq<Named<B>>)
    ensures Without(used, NamesOf(own), Kept(own, used))
  {
    if used == [] {
      WithoutNothing<B>(NamesOf(own));
    } else {
      var front, d := used[..|used| - 1], used[|used| - 1];
      KeptWithout(own, front);
      WithoutSnoc(front, d, NamesOf(own), Kept(own, front));
      DeclaresNames(own, d.name);
      assert front + [d] == used;
    }
  }

  lemma DeclaresNames<B>(ds: seq<Named<B>>, name: string)
    ensures Declares(ds, name) <==> name in NamesOf(ds)
  {
    if Declares(ds, name) {
      var i :| 0 <= i < |ds| && ds[i].name == name;
      assert ds[i] in ds;
    }
  }

  // ---- The declarations of the used Tasks, step by step ----

  /** For each step what its Task declares, list by list. */
  datatype Gathered = Gathered(params: seq<seq<ParamSpec>>, workspaces: seq<seq<Workspace>>,
                               results: seq<seq<TaskResult>>, sidecars: seq<seq<Sidecar>>, volumes: seq<seq<Volume>>)

  /** One list for each of the first `n` steps. */
  ghost predicate Spans(g: Gathered, n: nat) {
    |g.params| == |g.workspaces| == |g.results| == |g.sidecars| == |g.volumes| == n
  }

  /** A `uses` step gives what its Task declares, without the params and workspaces it binds; another
      step gives nothing. */
  ghost predicate Gives(step: GroupStep, used: map<int, TaskSpec>, i: nat, g: Gathered, n: nat)
    requires Spans(g, n) && i < n
  {
    if step.uses.Some? && i in used then
      && Without(used[i].params, BoundNames(step.uses.value.paramBindings), g.params[i])
      && Without(used[i].workspaces, BoundNames(step.uses.value.workspaceBindings), g.workspaces[i])
      && g.results[i] == used[i].results && g.sidecars[i] == used[i].sidecars && g.volumes[i] == used[i].volumes
    else
      && g.params[i] == [] && g.workspaces[i] == []
      && g.results[i] == [] && g.sidecars[i] == [] && g.volumes[i] == []
  }

  ghost predicate Gathers(steps: seq<GroupStep>, used: map<int, TaskSpec>, g: Gathered) {
    && Spans(g, |steps|)
    && forall i :: 0 <= i < |steps| ==> Gives(steps[i], used, i, g, |steps|)
  }

  function Joined(g: Gathered): Collected {
    Collected(Flatten(g.params), Flatten(g.workspaces), Flatten(g.results), Flatten(g.sidecars), Flatten(g.volumes))
  }

  function Front(g: Gathered, n: nat): Gathered
    requires n <= |g.params| && n <= |g.workspaces| && n <= |g.results| && n <= |g.sidecars| && n <= |g.volumes|
  {
    Gathered(g.params[..n], g.workspaces[..n], g.results[..n], g.sidecars[..n], g.volumes[..n])
  }

  lemma GathersFront(steps: seq<GroupStep>, used: map<int, TaskSpec>, g: Gathered, n: nat)
    requires Gathers(steps, used, g) && n <= |steps|
    ensures Gathers(steps[..n], used, Front(g, n))
  {
    forall i | 0 <= i < n ensures Gives(steps[..n][i], used, i, Front(g, n), n) {
      assert Gives(steps[i], used, i, g, |steps|);
    }
  }

  /** What a used Task gives is its own list without the bound names. */
  lemma UnboundIs<B>(ds: seq<Named<B>>, bs: seq<Binding>, kept: seq<Named<B>>)
    requires Without(ds, BoundNames(bs), kept)
    ensures kept == Unbound(ds, BindingMap(bs))
  {
    LastBindingCounts(bs);
    UnboundWithout(ds, BindingMap(bs));
    WithoutUnique(ds, BoundNames(bs), kept, Unbound(ds, BindingMap(bs)));
  }

  lemma GivesIsAdded(step: GroupStep, used: map<int, TaskSpec>, g: Gathered, i: nat)
    requires Spans(g, i + 1) && Gives(step, used, i, g, i + 1)
    ensures Joined(g) == if step.uses.Some? && i in used then Add(Joined(Front(g, i)), step.uses.value, used[i])
                         else Joined(Front(g, i))
  {
    if step.uses.Some? && i in used {
      UnboundIs(used[i].params, step.uses.value.paramBindings, g.params[i]);
      UnboundIs(used[i].workspaces, step.uses.value.workspaceBindings, g.workspaces[i]);
    }
  }

  /** Collected is what each step gives, one after the other. */
  lemma {:induction false} CollectedInOrder(steps: seq<GroupStep>, used: map<int, TaskSpec>, g: Gathered)
    requires Gathers(steps, used, g)
    ensures Collect(steps, used) == Joined(g)
  {
    if steps != [] {
      var i := |steps| - 1;
      GathersFront(steps, used, g, i);
      CollectedInOrder(steps[..i], used, Front(g, i));
      assert Gives(steps[i], used, i, g, i + 1);
      GivesIsAdded(steps[i], used, g, i);
    }
  }

  lemma SomeGiven(step: GroupStep, used: map<int, TaskSpec>, g: Gathered, i: nat) returns (g': Gathered)
    requires Spans(g, i)
    ensures Spans(g', i + 1) && Front(g', i) == g && Gives(step, used, i, g', i + 1)
  {
    if step.uses.Some? && i in used {
      var u, t := step.uses.value, used[i];
      LastBindingCounts(u.paramBindings);
      LastBindingCounts(u.workspaceBindings);
      UnboundWithout(t.params, BindingMap(u.paramBindings));
      UnboundWithout(t.workspaces, BindingMap(u.workspaceBindings));
      g' := Gathered(g.params + [Unbound(t.params, BindingMap(u.paramBindings))],
                     g.workspaces + [Unbound(t.workspaces, BindingMap(u.workspaceBindings))],
                     g.results + [t.results], g.sidecars + [t.sidecars], g.volumes + [t.volumes]);
    } else {
      g' := Gathered(g.params + [[]], g.workspaces + [[]], g.results + [[]], g.sidecars + [[]], g.volumes + [[]]);
    }
  }

  lemma GathersSnoc(steps: seq<GroupStep>, used: map<int, TaskSpec>, g: Gathered, i: nat)
    requires |steps| == i + 1 && Spans(g, i + 1)
    requires Gathers(steps[..i], used, Front(g, i)) && Gives(steps[i], used, i, g, i + 1)
    ensures Gathers(steps, used, g)
  {
    forall j | 0 <= j < i ensures Gives(steps[j], used, j, g, i + 1) {
      assert Gives(steps[..i][j], used, j, Front(g, i), i);
    }
  }

  /** There is something to gather from any steps. */
  lemma {:induction false} SomeGathered(steps: seq<GroupStep>, used: map<int, TaskSpec>) returns (g: Gathered)
    ensures Gathers(steps, used, g)
  {
    if steps == [] {
      g := Gathered([], [], [], [], []);
    } else {
      var i := |steps| - 1;
      var before := SomeGathered(steps[..i], used);
      g := SomeGiven(steps[i], used, before, i);
      GathersSnoc(steps, used, g, i);
    }
  }

  // ---- Lists of lists ----

  /** The lists stand one behind the other. */
  lemma {:induction false} FlattenSplit<T>(a: seq<seq<T>>, b: seq<T>, c: seq<seq<T>>)
    ensures Flatten(a + [b] + c) == Flatten(a) + b + Flatten(c)
  {
    var all := a + [b] + c;
    if c == [] {
      assert all[..|all| - 1] == a && all[|all| - 1] == b;
    } else {
      assert all[..|all| - 1] == a + [b] + c[..|c| - 1] && all[|all| - 1] == c[|c| - 1];
      FlattenSplit(a, b, c[..|c| - 1]);
    }
  }

  // ---- When compilation succeeds ----

  /** Step `i` names a Task that was supplied, and a template under its steps is accepted. */
  ghost predicate StepFine(spec: TaskGroupSpec, used: map<int, TaskSpec>, m: Templating, i: nat)
    requires i < |spec.steps|
  {
    if spec.steps[i].uses.None? then forall c :: spec.stepTemplate == Some(c) ==> m.accepts(c)
    else i in used && forall c :: used[i].stepTemplate == Some(c) ==> m.accepts(c)
  }

  /** The group's last declaration of the name has another type. */
  ghost predicate TypeDiffers(own: seq<ParamSpec>, d: ParamSpec) {
    exists k :: IsLast(own, k, d.name) && own[k].body.kind != d.body.kind
  }

  /** The group's last declaration of the name differs in what a used workspace has to agree in. */
  ghost predicate WorkspaceDiffers(own: seq<Workspace>, d: Workspace) {
    exists k :: IsLast(own, k, d.name) && WorkspaceDiffersFrom(own[k].body, d.body)
  }

  predicate WorkspaceDiffersFrom(own: WorkspaceBody, used: WorkspaceBody) {
    own.mountPath != used.mountPath || own.readOnly != used.readOnly || own.optional != used.optional
  }

  /** Step `i` gives the param: its Task declares it and the step does not bind it. */
  ghost predicate GivesParam(steps: seq<GroupStep>, used: map<int, TaskSpec>, i: int, d: ParamSpec) {
    && 0 <= i < |steps| && steps[i].uses.Some? && i in used
    && d in used[i].params && d.name !in BoundNames(steps[i].uses.value.paramBindings)
  }

  ghost predicate GivesWorkspace(steps: seq<GroupStep>, used: map<int, TaskSpec>, i: int, d: Workspace) {
    && 0 <= i < |steps| && steps[i].uses.Some? && i in used
    && d in used[i].workspaces && d.name !in BoundNames(steps[i].uses.value.workspaceBindings)
  }

  ghost predicate GivesSidecar(steps: seq<GroupStep>, used: map<int, TaskSpec>, i: int, d: Sidecar) {
    0 <= i < |steps| && steps[i].uses.Some? && i in used && d in used[i].sidecars
  }

  ghost predicate GivesVolume(steps: seq<GroupStep>, used: map<int, TaskSpec>, i: int, d: Volume) {
    0 <= i < |steps| && steps[i].uses.Some? && i in used && d in used[i].volumes
  }

  lemma UnboundMember<B>(ds: seq<Named<B>>, bs: seq<Binding>, d: Named<B>)
    ensures d in Unbound(ds, BindingMap(bs)) <==> d in ds && d.name !in BoundNames(bs)
  {
    LastBindingCounts(bs);
    UnboundExactly(ds, BindingMap(bs), d);
  }

  lemma {:induction false} ParamGiven(steps: seq<GroupStep>, used: map<int, TaskSpec>, d: ParamSpec)
    ensures d in Collect(steps, used).params <==> exists i :: GivesParam(steps, used, i, d)
  {
    if steps != [] {
      var n := |steps| - 1;
      var front := steps[..n];
      ParamGiven(front, used, d);
      assert forall i :: i != n ==> (GivesParam(front, used, i, d) <==> GivesParam(steps, used, i, d));
      if steps[n].uses.Some? && n in used {
        UnboundMember(used[n].params, steps[n].uses.value.paramBindings, d);
      }
      assert d in Collect(steps, used).params <==> d in Collect(front, used).params || GivesParam(steps, used, n, d);
    }
  }

  lemma {:induction false} WorkspaceGiven(steps: seq<GroupStep>, used: map<int, TaskSpec>, d: Workspace)
    ensures d in Collect(steps, used).workspaces <==> exists i :: GivesWorkspace(steps, used, i, d)
  {
    if steps != [] {
      var n := |steps| - 1;
      var front := steps[..n];
      WorkspaceGiven(front, used, d);
      assert forall i :: i != n ==> (GivesWorkspace(front, used, i, d) <==> GivesWorkspace(steps, used, i, d));
      if steps[n].uses.Some? && n in used {
        UnboundMember(used[n].workspaces, steps[n].uses.value.workspaceBindings, d);
      }
      assert d in Collect(steps, used).workspaces <==>
             d in Collect(front, used).workspaces || GivesWorkspace(steps, used, n, d);
    }
  }

  lemma {:induction false} SidecarGiven(steps: seq<GroupStep>, used: map<int, TaskSpec>, d: Sidecar)
    ensures d in Collect(steps, used).sidecars <==> exists i :: GivesSidecar(steps, used, i, d)
  {
    if steps != [] {
      var n := |steps| - 1;
      var front := steps[..n];
      SidecarGiven(front, used, d);
      assert forall i :: i != n ==> (GivesSidecar(front, used, i, d) <==> GivesSidecar(steps, used, i, d));
      assert d in Collect(steps, used).sidecars <==>
             d in Collect(front, used).sidecars || GivesSidecar(steps, used, n, d);
    }
  }

  lemma {:induction false} VolumeGiven(steps: seq<GroupStep>, used: map<int, TaskSpec>, d: Volume)
    ensures d in Collect(steps, used).volumes <==> exists i :: GivesVolume(steps, used, i, d)
  {
    if steps != [] {
      var n := |steps| - 1;
      var front := steps[..n];
      VolumeGiven(front, used, d);
      assert forall i :: i != n ==> (GivesVolume(front, used, i, d) <==> GivesVolume(steps, used, i, d));
      assert d in Collect(steps, used).volumes <==>
             d in Collect(front, used).volumes || GivesVolume(steps, used, n, d);
    }
  }

  /** A conflict is one with the group's last declaration of the name. */
  lemma ConflictWithLast<B>(own: seq<Named<B>>, d: Named<B>, clash: (B, B) -> Option<Clash>)
    ensures d.name !in NamesOf(own) ==> ConflictOf(own, d, clash).None?
    ensures forall k :: IsLast(own, k, d.name) ==>
              ConflictOf(own, d, clash) == match clash(own[k].body, d.body)
                case None => None
                case Some(c) => Some(Conflict(c, d.name))
  {
    DeclaresNames(own, d.name);
    LastNamedDeclares(own, d.name);
    forall k | IsLast(own, k, d.name) ensures LastNamed(own, d.name) == Some(own[k].body) {
      LastNamedAt(own, k, d.name);
    }
  }

  lemma ParamConflicts(own: seq<ParamSpec>, d: ParamSpec)
    ensures ConflictOf(own, d, ParamClash) == if TypeDiffers(own, d) then Some(Conflict(Type, d.name)) else None
  {
    ConflictWithLast(own, d, ParamClash);
    DeclaresNames(own, d.name);
    if Declares(own, d.name) {
      var k := SomeLast(own, d.name);
    }
  }

  /** Of two attributes that differ, the error names the first. */
  predicate IsWorkspaceClash(own: WorkspaceBody, used: WorkspaceBody, c: Clash) {
    match c
    case MountPath => own.mountPath != used.mountPath
    case ReadOnly => own.mountPath == used.mountPath && own.readOnly != used.readOnly
    case Optional => own.mountPath == used.mountPath && own.readOnly == used.readOnly && own.optional != used.optional
    case _ => false
  }

  lemma WorkspaceConflicts(own: seq<Workspace>, d: Workspace)
    ensures ConflictOf(own, d, WorkspaceClash).Some? <==> WorkspaceDiffers(own, d)
    ensures forall k, c :: IsLast(own, k, d.name) && IsWorkspaceClash(own[k].body, d.body, c) ==>
              ConflictOf(own, d, WorkspaceClash) == Some(Conflict(c, d.name))
  {
    ConflictWithLast(own, d, WorkspaceClash);
    DeclaresNames(own, d.name);
    if Declares(own, d.name) {
      var k := SomeLast(own, d.name);
    }
  }

  lemma NameConflicts(own: seq<Named<string>>, d: Named<string>)
    ensures ConflictOf(own, d, SidecarClash) ==
            if d.name in NamesOf(own) then Some(Conflict(Sidecars, d.name)) else None
    ensures ConflictOf(own, d, VolumeClash) ==
            if d.name in NamesOf(own) then Some(Conflict(Volumes, d.name)) else None
    ensures ConflictOf(own, d, ResultClash) == None
  {
    ConflictWithLast(own, d, SidecarClash);
    ConflictWithLast(own, d, VolumeClash);
    ConflictWithLast(own, d, ResultClash);
    DeclaresNames(own, d.name);
    if Declares(own, d.name) {
      var k := SomeLast(own, d.name);
    }
  }

  /** The first declaration in conflict gives the error of a merge. */
  lemma {:induction false} FirstConflictAt<B>(own: seq<Named<B>>, used: seq<Named<B>>, clash: (B, B) -> Option<Clash>,
                                              j: nat)
    requires j <= |used| && forall l :: 0 <= l < j ==> ConflictOf(own, used[l], clash).None?
    ensures j == |used| ==> FirstConflict(own, used, clash).None?
    ensures j < |used| && ConflictOf(own, used[j], clash).Some? ==>
              FirstConflict(own, used, clash) == ConflictOf(own, used[j], clash)
  {
    if j > 0 {
      assert forall l :: 0 <= l < |used| - 1 ==> used[1..][l] == used[l + 1];
      FirstConflictAt(own, used[1..], clash, j - 1);
    }
  }

  lemma {:induction false} NoConflictExactly<B>(own: seq<Named<B>>, used: seq<Named<B>>,
                                                clash: (B, B) -> Option<Clash>)
    ensures FirstConflict(own, used, clash).None? <==> forall d :: d in used ==> ConflictOf(own, d, clash).None?
  {
    if used != [] {
      NoConflictExactly(own, used[1..], clash);
    }
  }

  ghost predicate StepsFine(spec: TaskGroupSpec, used: map<int, TaskSpec>, m: Templating) {
    forall i :: 0 <= i < |spec.steps| ==> StepFine(spec, used, m, i)
  }

  lemma StepFails(spec: TaskGroupSpec, used: map<int, TaskSpec>, m: Templating, i: nat)
    requires i < |spec.steps|
    ensures StepError(spec, used, m, i) ==
            if StepFine(spec, used, m, i) then None
            else if spec.steps[i].uses.Some? && i !in used then Some(UsesNotFound(spec.steps[i].step.name))
            else Some(TemplateRejected)
  {
  }

  lemma StepsFineExactly(spec: TaskGroupSpec, used: map<int, TaskSpec>, m: Templating)
    ensures StepsError(spec, used, m, 0).None? <==> StepsFine(spec, used, m)
  {
    StepsErrorExactly(spec, used, m, 0);
    forall i | 0 <= i < |spec.steps| ensures StepError(spec, used, m, i).None? <==> StepFine(spec, used, m, i) {
      StepFails(spec, used, m, i);
    }
  }

  lemma ParamsAgreeExactly(spec: TaskGroupSpec, used: map<int, TaskSpec>)
    ensures FirstConflict(spec.params, Collect(spec.steps, used).params, ParamClash).None? <==>
            forall i, d :: GivesParam(spec.steps, used, i, d) ==> !TypeDiffers(spec.params, d)
  {
    var all := Collect(spec.steps, used).params;
    NoConflictExactly(spec.params, all, ParamClash);
    forall d
      ensures d in all <==> exists i :: GivesParam(spec.steps, used, i, d)
      ensures ConflictOf(spec.params, d, ParamClash).None? <==> !TypeDiffers(spec.params, d)
    {
      ParamGiven(spec.steps, used, d);
      ParamConflicts(spec.params, d);
    }
  }

  lemma WorkspacesAgreeExactly(spec: TaskGroupSpec, used: map<int, TaskSpec>)
    ensures FirstConflict(spec.workspaces, Collect(spec.steps, used).workspaces, WorkspaceClash).None? <==>
            forall i, d :: GivesWorkspace(spec.steps, used, i, d) ==> !WorkspaceDiffers(spec.workspaces, d)
  {
    var all := Collect(spec.steps, used).workspaces;
    NoConflictExactly(spec.workspaces, all, WorkspaceClash);
    forall d
      ensures d in all <==> exists i :: GivesWorkspace(spec.steps, used, i, d)
      ensures ConflictOf(spec.workspaces, d, WorkspaceClash).None? <==> !WorkspaceDiffers(spec.workspaces, d)
    {
      WorkspaceGiven(spec.steps, used, d);
      WorkspaceConflicts(spec.workspaces, d);
    }
  }

  lemma SidecarsApartExactly(spec: TaskGroupSpec, used: map<int, TaskSpec>)
    ensures FirstConflict(spec.sidecars, Collect(spec.steps, used).sidecars, SidecarClash).None? <==>
            forall i, d :: GivesSidecar(spec.steps, used, i, d) ==> d.name !in NamesOf(spec.sidecars)
  {
    var all := Collect(spec.steps, used).sidecars;
    NoConflictExactly(spec.sidecars, all, SidecarClash);
    forall d
      ensures d in all <==> exists i :: GivesSidecar(spec.steps, used, i, d)
      ensures ConflictOf(spec.sidecars, d, SidecarClash).None? <==> d.name !in NamesOf(spec.sidecars)
    {
      SidecarGiven(spec.steps, used, d);
      NameConflicts(spec.sidecars, d);
    }
  }

  lemma VolumesApartExactly(spec: TaskGroupSpec, used: map<int, TaskSpec>)
    ensures FirstConflict(spec.volumes, Collect(spec.steps, used).volumes, VolumeClash).None? <==>
            forall i, d :: GivesVolume(spec.steps, used, i, d) ==> d.name !in NamesOf(spec.volumes)
  {
    var all := Collect(spec.steps, used).volumes;
    NoConflictExactly(spec.volumes, all, VolumeClash);
    forall d
      ensures d in all <==> exists i :: GivesVolume(spec.steps, used, i, d)
      ensures ConflictOf(spec.volumes, d, VolumeClash).None? <==> d.name !in NamesOf(spec.volumes)
    {
      VolumeGiven(spec.steps, used, d);
      NameConflicts(spec.volumes, d);
    }
  }

  lemma NoResultConflict(own: seq<TaskResult>, used: seq<TaskResult>)
    ensures FirstConflict(own, used, ResultClash).None?
  {
    NoConflictExactly(own, used, ResultClash);
    forall d | d in used ensures ConflictOf(own, d, ResultClash).None? {
      NameConflicts(own, d);
    }
  }

  /** Compilation succeeds exactly when every `uses` has its Task and every template is accepted, no
      step gives a param of another type than the group's last declaration of its name, or a workspace
      with another mount path, read-only mark or optional mark than the group's, and none a sidecar or a
      volume of a name the group declares.  Results never conflict. */
  lemma SucceedsExactly(spec: TaskGroupSpec, used: map<int, TaskSpec>, m: Templating)
    ensures CompileError(spec, used, m).None? <==>
      && StepsFine(spec, used, m)
      && (forall i, d :: GivesParam(spec.steps, used, i, d) ==> !TypeDiffers(spec.params, d))
      && (forall i, d :: GivesWorkspace(spec.steps, used, i, d) ==> !WorkspaceDiffers(spec.workspaces, d))
      && (forall i, d :: GivesSidecar(spec.steps, used, i, d) ==> d.name !in NamesOf(spec.sidecars))
      && (forall i, d :: GivesVolume(spec.steps, used, i, d) ==> d.name !in NamesOf(spec.volumes))
  {
    StepsFineExactly(spec, used, m);
    ParamsAgreeExactly(spec, used);
    WorkspacesAgreeExactly(spec, used);
    SidecarsApartExactly(spec, used);
    VolumesApartExactly(spec, used);
    NoResultConflict(spec.results, Collect(spec.steps, used).results);
  }

  /** A TaskGroup that declares nothing compiles if its steps are fine. */
  lemma BareCompiles(spec: TaskGroupSpec, used: map<int, TaskSpec>, m: Templating)
    requires spec.params == [] && spec.workspaces == [] && spec.sidecars == [] && spec.volumes == []
    requires StepsFine(spec, used, m)
    ensures CompileError(spec, used, m).None?
  {
    SucceedsExactly(spec, used, m);
  }

  // ---- Which error there is ----

  /** The first step that is not fine gives the error: its Task is missing, or the template is rejected. */
  lemma FirstBadStep(spec: TaskGroupSpec, used: map<int, TaskSpec>, m: Templating, i: nat)
    requires i < |spec.steps| && !StepFine(spec, used, m, i)
    requires forall l :: 0 <= l < i ==> StepFine(spec, used, m, l)
    ensures CompileError(spec, used, m) ==
            Some(if spec.steps[i].uses.Some? && i !in used then UsesNotFound(spec.steps[i].step.name)
                 else TemplateRejected)
  {
    forall l | 0 <= l <= i ensures StepError(spec, used, m, l).None? <==> l != i {
      StepFails(spec, used, m, l);
    }
    StepFails(spec, used, m, i);
    FirstStepFails(spec, used, m, 0, i);
  }

  /** No param that the steps give is of another type than the group's. */
  ghost predicate TypesAgree(spec: TaskGroupSpec, g: Gathered) {
    forall d :: d in Flatten(g.params) ==> !TypeDiffers(spec.params, d)
  }

  ghost predicate WorkspacesAgree(spec: TaskGroupSpec, g: Gathered) {
    forall d :: d in Flatten(g.workspaces) ==> !WorkspaceDiffers(spec.workspaces, d)
  }

  ghost predicate SidecarsApart(spec: TaskGroupSpec, g: Gathered) {
    forall d :: d in Flatten(g.sidecars) ==> d.name !in NamesOf(spec.sidecars)
  }

  lemma TypesAgreeMerge(spec: TaskGroupSpec, g: Gathered)
    requires TypesAgree(spec, g)
    ensures FirstConflict(spec.params, Flatten(g.params), ParamClash).None?
  {
    NoConflictExactly(spec.params, Flatten(g.params), ParamClash);
    forall d | d in Flatten(g.params) ensures ConflictOf(spec.params, d, ParamClash).None? {
      ParamConflicts(spec.params, d);
    }
  }

  lemma WorkspacesAgreeMerge(spec: TaskGroupSpec, g: Gathered)
    requires WorkspacesAgree(spec, g)
    ensures FirstConflict(spec.workspaces, Flatten(g.workspaces), WorkspaceClash).None?
  {
    NoConflictExactly(spec.workspaces, Flatten(g.workspaces), WorkspaceClash);
    forall d | d in Flatten(g.workspaces) ensures ConflictOf(spec.workspaces, d, WorkspaceClash).None? {
      WorkspaceConflicts(spec.workspaces, d);
    }
  }

  lemma SidecarsApartMerge(spec: TaskGroupSpec, g: Gathered)
    requires SidecarsApart(spec, g)
    ensures FirstConflict(spec.sidecars, Flatten(g.sidecars), SidecarClash).None?
  {
    NoConflictExactly(spec.sidecars, Flatten(g.sidecars), SidecarClash);
    forall d | d in Flatten(g.sidecars) ensures ConflictOf(spec.sidecars, d, SidecarClash).None? {
      NameConflicts(spec.sidecars, d);
    }
  }

  lemma GatheredMerge(spec: TaskGroupSpec, used: map<int, TaskSpec>, m: Templating, g: Gathered)
    requires StepsFine(spec, used, m) && Gathers(spec.steps, used, g)
    ensures CompileError(spec, used, m) == MergeError(spec, Joined(g))
  {
    StepsFineExactly(spec, used, m);
    CollectedInOrder(spec.steps, used, g);
  }

  /** The first param of another type gives the error. */
  lemma FirstBadParam(spec: TaskGroupSpec, used: map<int, TaskSpec>, m: Templating, g: Gathered, j: nat)
    requires StepsFine(spec, used, m) && Gathers(spec.steps, used, g)
    requires j < |Flatten(g.params)| && TypeDiffers(spec.params, Flatten(g.params)[j])
    requires forall l :: 0 <= l < j ==> !TypeDiffers(spec.params, Flatten(g.params)[l])
    ensures CompileError(spec, used, m) == Some(Clashing(Conflict(Type, Flatten(g.params)[j].name)))
  {
    var all := Flatten(g.params);
    GatheredMerge(spec, used, m, g);
    forall l | 0 <= l < j ensures ConflictOf(spec.params, all[l], ParamClash).None? {
      ParamConflicts(spec.params, all[l]);
    }
    ParamConflicts(spec.params, all[j]);
    FirstConflictAt(spec.params, all, ParamClash, j);
  }

  /** If the params agree, the first workspace that differs gives the error, with the first of the mount
      path, the read-only mark and the optional mark in which it does. */
  lemma FirstBadWorkspace(spec: TaskGroupSpec, used: map<int, TaskSpec>, m: Templating, g: Gathered, j: nat, k: nat,
                          c: Clash)
    requires StepsFine(spec, used, m) && Gathers(spec.steps, used, g) && TypesAgree(spec, g)
    requires j < |Flatten(g.workspaces)| && IsLast(spec.workspaces, k, Flatten(g.workspaces)[j].name)
    requires IsWorkspaceClash(spec.workspaces[k].body, Flatten(g.workspaces)[j].body, c)
    requires forall l :: 0 <= l < j ==> !WorkspaceDiffers(spec.workspaces, Flatten(g.workspaces)[l])
    ensures CompileError(spec, used, m) == Some(Clashing(Conflict(c, Flatten(g.workspaces)[j].name)))
  {
    var all := Flatten(g.workspaces);
    GatheredMerge(spec, used, m, g);
    TypesAgreeMerge(spec, g);
    forall l | 0 <= l < j ensures ConflictOf(spec.workspaces, all[l], WorkspaceClash).None? {
      WorkspaceConflicts(spec.workspaces, all[l]);
    }
    WorkspaceConflicts(spec.workspaces, all[j]);
    FirstConflictAt(spec.workspaces, all, WorkspaceClash, j);
  }

  /** If those agree as well, the first sidecar of a name the group declares gives the error. */
  lemma FirstBadSidecar(spec: TaskGroupSpec, used: map<int, TaskSpec>, m: Templating, g: Gathered, j: nat)
    requires StepsFine(spec, used, m) && Gathers(spec.steps, used, g)
    requires TypesAgree(spec, g) && WorkspacesAgree(spec, g)
    requires j < |Flatten(g.sidecars)| && Flatten(g.sidecars)[j].name in NamesOf(spec.sidecars)
    requires forall l :: 0 <= l < j ==> Flatten(g.sidecars)[l].name !in NamesOf(spec.sidecars)
    ensures CompileError(spec, used, m) == Some(Clashing(Conflict(Sidecars, Flatten(g.sidecars)[j].name)))
  {
    var all := Flatten(g.sidecars);
    GatheredMerge(spec, used, m, g);
    TypesAgreeMerge(spec, g);
    WorkspacesAgreeMerge(spec, g);
    NoResultConflict(spec.results, Flatten(g.results));
    forall l | 0 <= l < j ensures ConflictOf(spec.sidecars, all[l], SidecarClash).None? {
      NameConflicts(spec.sidecars, all[l]);
    }
    NameConflicts(spec.sidecars, all[j]);
    FirstConflictAt(spec.sidecars, all, SidecarClash, j);
  }

  /** A volume of a name the group declares gives the error if there is no other. */
  lemma FirstBadVolume(spec: TaskGroupSpec, used: map<int, TaskSpec>, m: Templating, g: Gathered, j: nat)
    requires StepsFine(spec, used, m) && Gathers(spec.steps, used, g)
    requires TypesAgree(spec, g) && WorkspacesAgree(spec, g) && SidecarsApart(spec, g)
    requires j < |Flatten(g.volumes)| && Flatten(g.volumes)[j].name in NamesOf(spec.volumes)
    requires forall l :: 0 <= l < j ==> Flatten(g.volumes)[l].name !in NamesOf(spec.volumes)
    ensures CompileError(spec, used, m) == Some(Clashing(Conflict(Volumes, Flatten(g.volumes)[j].name)))
  {
    var all := Flatten(g.volumes);
    GatheredMerge(spec, used, m, g);
    TypesAgreeMerge(spec, g);
    WorkspacesAgreeMerge(spec, g);
    NoResultConflict(spec.results, Flatten(g.results));
    SidecarsApartMerge(spec, g);
    forall l | 0 <= l < j ensures ConflictOf(spec.volumes, all[l], VolumeClash).None? {
      NameConflicts(spec.volumes, all[l]);
    }
    NameConflicts(spec.volumes, all[j]);
    FirstConflictAt(spec.volumes, all, VolumeClash, j);
  }

  // ---- What the output declares ----

  /** The used declarations behind the group's own are those whose names the group does not declare. */
  ghost predicate Extends<B>(own: seq<Named<B>>, used: seq<Named<B>>, all: seq<Named<B>>) {
    own <= all && Without(used, NamesOf(own), all[|own|..])
  }

  lemma ExtendsKept<B>(own: seq<Named<B>>, used: seq<Named<B>>)
    ensures Extends(own, used, own + Kept(own, used))
  {
    KeptWithout(own, used);
    assert (own + Kept(own, used))[|own|..] == Kept(own, used);
  }

  /** Where every shared name is in conflict, a merge without one keeps everything. */
  lemma SidecarsKept(own: seq<Sidecar>, used: seq<Sidecar>)
    requires FirstConflict(own, used, SidecarClash).None?
    ensures Kept(own, used) == used
  {
    NoConflictExactly(own, used, SidecarClash);
    forall d | d in used ensures !Declares(own, d.name) {
      NameConflicts(own, d);
      DeclaresNames(own, d.name);
    }
    NothingDropped(own, used);
  }

  lemma VolumesKept(own: seq<Volume>, used: seq<Volume>)
    requires FirstConflict(own, used, VolumeClash).None?
    ensures Kept(own, used) == used
  {
    NoConflictExactly(own, used, VolumeClash);
    forall d | d in used ensures !Declares(own, d.name) {
      NameConflicts(own, d);
      DeclaresNames(own, d.name);
    }
    NothingDropped(own, used);
  }

  lemma NoConflicts(spec: TaskGroupSpec, c: Collected)
    requires MergeError(spec, c).None?
    ensures FirstConflict(spec.sidecars, c.sidecars, SidecarClash).None?
    ensures FirstConflict(spec.volumes, c.volumes, VolumeClash).None?
  {
  }

  /** The output declares what the group declares, followed by what its steps give in their order:
      params, workspaces and results without those whose names the group declares, sidecars and
      volumes all of them. */
  lemma OutputDeclares(spec: TaskGroupSpec, used: map<int, TaskSpec>, m: Templating, out: TaskSpec, g: Gathered)
    requires CompileError(spec, used, m).None? && Compiled(spec, used, m, out) && Gathers(spec.steps, used, g)
    ensures Extends(spec.params, Flatten(g.params), out.params)
    ensures Extends(spec.workspaces, Flatten(g.workspaces), out.workspaces)
    ensures Extends(spec.results, Flatten(g.results), out.results)
    ensures out.sidecars == spec.sidecars + Flatten(g.sidecars)
    ensures out.volumes == spec.volumes + Flatten(g.volumes)
    ensures out.description == spec.description && out.stepTemplate.None?
  {
    CollectedInOrder(spec.steps, used, g);
    ExtendsKept(spec.params, Flatten(g.params));
    ExtendsKept(spec.workspaces, Flatten(g.workspaces));
    ExtendsKept(spec.results, Flatten(g.results));
    NoConflicts(spec, Joined(g));
    SidecarsKept(spec.sidecars, Flatten(g.sidecars));
    VolumesKept(spec.volumes, Flatten(g.volumes));
  }

  // ---- Output steps ----

  /** The step under a template, if there is one. */
  ghost predicate UnderTemplate(m: Templating, template: Option<Container>, r: Step, s: Step) {
    (template.None? ==> s == r) && forall c :: template == Some(c) ==> s == m.overlay(c, r)
  }

  /** What precedes the names of the inlined steps: the name of the step, or one with its index. */
  ghost predicate IsPrefix(step: Step, i: nat, prefix: string) {
    if step.name == "" then prefix == "unamed-" + Decimal(i) else prefix == step.name
  }

  /** A step of the group comes out as it is, under the group's template. */
  lemma OwnStepOutput(spec: TaskGroupSpec, used: map<int, TaskSpec>, m: Templating, out: TaskSpec, i: nat)
    requires CleanSpec(spec) && Compiled(spec, used, m, out) && i < |spec.steps| && spec.steps[i].uses.None?
    ensures Offset(spec, used, i) < |out.steps|
    ensures UnderTemplate(m, spec.stepTemplate, spec.steps[i].step, out.steps[Offset(spec, used, i)])
  {
    OutputSteps(spec, used, m, out, i, 0);
  }

  /** A step of a used Task comes out rewritten and renamed, under the template of its Task. */
  lemma UsedStepOutput(spec: TaskGroupSpec, used: map<int, TaskSpec>, m: Templating, out: TaskSpec, i: nat, j: nat,
                       prefix: string)
    returns (r: Step)
    requires CleanSpec(spec) && Compiled(spec, used, m, out) && i < |spec.steps| && spec.steps[i].uses.Some?
    requires i in used && j < |used[i].steps| && IsPrefix(spec.steps[i].step, i, prefix)
    ensures var uses := spec.steps[i].uses.value;
      IsRewritten(prefix, BindingMap(uses.paramBindings), BindingMap(uses.workspaceBindings), used[i].steps[j], r)
    ensures Offset(spec, used, i) + j < |out.steps|
    ensures UnderTemplate(m, used[i].stepTemplate, r, out.steps[Offset(spec, used, i) + j])
  {
    r := InlinedStep(spec, used, m, out, i, j);
  }
}
