/** Whether the references of compiled steps name something the output declares. */
module Closure {
  import opened Text
  import opened Bindings
  import opened Meaning
  import opened Arrays
  import opened Types
  import opened Merging
  import opened Compiler
  import opened CompilerFacts

  // ---- References of the compiled steps ----

  /** A param reference, starred or not, or a workspace reference to something the spec declares. */
  ghost predicate RefDeclared(t: TaskSpec, k: string) {
    match ParamRead(k)
    case Reads(_, n) => Declares(t.params, n)
    case Other => match Read(k)
      case Reads(f, n) => IsParam(f) || f.ExitCode? || Declares(t.workspaces, n)
      case Other => true
  }

  /** A legacy or starred reference to a param that is bound to another one: it is not rewritten. */
  ghost predicate Missed(k: string, b: map<string, string>) {
    LegacyOffends(k, b) || StarOffends(k, b)
  }

  ghost predicate Closed(t: TaskSpec, text: string) {
    forall k :: k in References(text) ==> RefDeclared(t, k)
  }

  lemma DeclaresMember<B>(ds: seq<Named<B>>, d: Named<B>)
    requires d in ds
    ensures Declares(ds, d.name)
  {
  }

  /** A collected name is declared in the output: by the group itself, or as a kept declaration. */
  lemma MergedDeclares<B>(own: seq<Named<B>>, used: seq<Named<B>>, name: string)
    requires Declares(used, name)
    ensures Declares(own + Kept(own, used), name)
  {
    Multiplicity(own, used, name);
    CountDeclares(own, name);
    CountDeclares(used, name);
    CountDeclares(own + Kept(own, used), name);
  }

  lemma {:induction false} CollectedFrom(steps: seq<GroupStep>, used: map<int, TaskSpec>, i: nat)
    requires i < |steps| && steps[i].uses.Some? && i in used
    ensures forall d :: d in Unbound(used[i].params, ParamBindings(steps[i])) ==> d in Collect(steps, used).params
    ensures forall d :: d in Unbound(used[i].workspaces, WorkspaceBindings(steps[i])) ==>
              d in Collect(steps, used).workspaces
  {
    if i < |steps| - 1 {
      CollectedFrom(steps[..|steps| - 1], used, i);
    }
  }

  lemma UnboundNameCollected<B>(ds: seq<Named<B>>, b: map<string, string>, all: seq<Named<B>>, name: string)
    requires Declares(ds, name) && name !in b && forall d :: d in Unbound(ds, b) ==> d in all
    ensures Declares(all, name)
  {
    var i :| 0 <= i < |ds| && ds[i].name == name;
    UnboundExactly(ds, b, ds[i]);
    DeclaresMember(all, ds[i]);
  }

  /** Every binding target of step `i` is declared in the output. */
  ghost predicate TargetsDeclared(step: GroupStep, out: TaskSpec) {
    && (forall n :: n in ParamBindings(step) ==> Declares(out.params, ParamBindings(step)[n]))
    && (forall n :: n in WorkspaceBindings(step) ==> Declares(out.workspaces, WorkspaceBindings(step)[n]))
  }

  /** A name that is not bound is declared in the output under the same name. */
  lemma UnboundStaysDeclared(spec: TaskGroupSpec, used: map<int, TaskSpec>, out: TaskSpec, i: nat, n: string)
    requires out == Declared(spec, used, out.steps) && i < |spec.steps| && spec.steps[i].uses.Some? && i in used
    ensures n !in ParamBindings(spec.steps[i]) && Declares(used[i].params, n) ==> Declares(out.params, n)
    ensures n !in WorkspaceBindings(spec.steps[i]) && Declares(used[i].workspaces, n) ==> Declares(out.workspaces, n)
  {
    var c := Collect(spec.steps, used);
    CollectedFrom(spec.steps, used, i);
    if n !in ParamBindings(spec.steps[i]) && Declares(used[i].params, n) {
      UnboundNameCollected(used[i].params, ParamBindings(spec.steps[i]), c.params, n);
      MergedDeclares(spec.params, c.params, n);
    }
    if n !in WorkspaceBindings(spec.steps[i]) && Declares(used[i].workspaces, n) {
      UnboundNameCollected(used[i].workspaces, WorkspaceBindings(spec.steps[i]), c.workspaces, n);
      MergedDeclares(spec.workspaces, c.workspaces, n);
    }
  }

  lemma KeyClosed(spec: TaskGroupSpec, used: map<int, TaskSpec>, out: TaskSpec, i: nat, k: string,
                  b: map<string, string>, wb: map<string, string>)
    requires out == Declared(spec, used, out.steps) && i < |spec.steps| && spec.steps[i].uses.Some? && i in used
    requires b == ParamBindings(spec.steps[i]) && wb == WorkspaceBindings(spec.steps[i]) && PlainNames(b)
    requires TargetsDeclared(spec.steps[i], out) && RefDeclared(used[i], k) && !Missed(k, b)
    ensures RefDeclared(out, RewiredKey(b, wb, k))
  {
    if ParamRead(k).Reads? {
      var f, n := ParamRead(k).form, ParamRead(k).name;
      BaseLeads(k, b, wb);
      LedNameDeclared(spec, used, out, i, n, b);
      LedKeyDeclared(out, RewiredKey(b, wb, k), f, LedBy(b, n));
    } else {
      OtherKeyClosed(spec, used, out, i, k, b, wb);
    }
  }

  lemma LedNameDeclared(spec: TaskGroupSpec, used: map<int, TaskSpec>, out: TaskSpec, i: nat, n: string,
                        b: map<string, string>)
    requires out == Declared(spec, used, out.steps) && i < |spec.steps| && spec.steps[i].uses.Some? && i in used
    requires b == ParamBindings(spec.steps[i]) && TargetsDeclared(spec.steps[i], out) && Declares(used[i].params, n)
    ensures Declares(out.params, LedBy(b, n))
  {
    UnboundStaysDeclared(spec, used, out, i, n);
  }

  lemma LedKeyDeclared(out: TaskSpec, k: string, f: Form, n: string)
    requires IsParam(f) && Base(k) == KeyOf(f, n) && Declares(out.params, n)
    ensures RefDeclared(out, k)
  {
    ReadExact(Base(k), f, n);
  }

  lemma LedWorkspaceDeclared(spec: TaskGroupSpec, used: map<int, TaskSpec>, out: TaskSpec, i: nat, n: string,
                             wb: map<string, string>)
    requires out == Declared(spec, used, out.steps) && i < |spec.steps| && spec.steps[i].uses.Some? && i in used
    requires wb == WorkspaceBindings(spec.steps[i]) && TargetsDeclared(spec.steps[i], out) &&
              Declares(used[i].workspaces, n)
    ensures Declares(out.workspaces, LedBy(wb, n))
  {
    UnboundStaysDeclared(spec, used, out, i, n);
  }

  lemma OtherKeyClosed(spec: TaskGroupSpec, used: map<int, TaskSpec>, out: TaskSpec, i: nat, k: string,
                       b: map<string, string>, wb: map<string, string>)
    requires out == Declared(spec, used, out.steps) && i < |spec.steps| && spec.steps[i].uses.Some? && i in used
    requires b == ParamBindings(spec.steps[i]) && wb == WorkspaceBindings(spec.steps[i]) && PlainNames(b)
    requires TargetsDeclared(spec.steps[i], out) && RefDeclared(used[i], k) && ParamRead(k).Other?
    ensures RefDeclared(out, RewiredKey(b, wb, k))
  {
    OtherKeeps(k, b, wb);
    if Read(k).Reads? {
      RewiredReading(b, wb, k);
      if !IsParam(Read(k).form) && !Read(k).form.ExitCode? {
        LedWorkspaceDeclared(spec, used, out, i, Read(k).name, wb);
        LedReading(out, b, wb, Read(k).form, Read(k).name, RewiredKey(b, wb, k));
      }
    }
  }

  lemma LedReading(out: TaskSpec, b: map<string, string>, wb: map<string, string>, f: Form, n: string, k: string)
    requires !IsParam(f) && Read(k) == Reads(f, LedBy(Applied(f, b, wb), n)) && ParamRead(k).Other?
    requires Declares(out.workspaces, LedBy(wb, n))
    ensures RefDeclared(out, k)
  {
  }

  lemma RewiredReading(b: map<string, string>, wb: map<string, string>, k: string)
    requires Read(k).Reads?
    ensures Read(RewiredKey(b, wb, k)) == Reads(Read(k).form, LedBy(Applied(Read(k).form, b, wb), Read(k).name))
  {
    var f, n := Read(k).form, LedBy(Applied(Read(k).form, b, wb), Read(k).name);
    ReadExact(KeyOf(f, n), f, n);
  }

  /** A missed reference stays, and is to a param. */
  lemma MissedKey(k: string, b: map<string, string>, wb: map<string, string>)
    requires PlainNames(b) && Missed(k, b)
    ensures ParamRead(k).Reads? && RewiredKey(b, wb, k) == k
  {
    if StarOffends(k, b) {
      StarredStays(k, b, wb);
    } else {
      ReadExact(k, Legacy, Read(k).name);
      PlainKeyUnstarred(Legacy, Read(k).name);
    }
  }

  /** The output declares the params of the missed references, as it does if the group declares them. */
  ghost predicate MissedDeclared(out: TaskSpec, t: string, b: map<string, string>) {
    forall k :: k in References(t) && Missed(k, b) ==> ParamRead(k).Reads? && Declares(out.params, ParamRead(k).name)
  }

  /** Rewriting a text that refers only to what its Task declares gives a text that refers only to what
      the output declares exactly if the output declares the params of the references it misses; the
      binding targets have to be declared. */
  lemma RewrittenTextClosed(spec: TaskGroupSpec, used: map<int, TaskSpec>, out: TaskSpec, i: nat, t: string,
                            b: map<string, string>, wb: map<string, string>)
    requires CleanSpec(spec) && out == Declared(spec, used, out.steps)
    requires i < |spec.steps| && spec.steps[i].uses.Some? && i in used && TargetsDeclared(spec.steps[i], out)
    requires b == ParamBindings(spec.steps[i]) && wb == WorkspaceBindings(spec.steps[i]) && PlainNames(b)
    requires Closed(used[i], t)
    ensures Closed(out, Rewrite(t, b, wb)) <==> MissedDeclared(out, t, b)
  {
    assert CleanStep(spec.steps[i]);
    RewrittenReferences(t, b, wb);
    forall k | k in References(t)
      ensures RefDeclared(out, RewiredKey(b, wb, k)) <==> (Missed(k, b) ==> MissedIsDeclared(out, k))
    {
      KeyClosedExactly(spec, used, out, i, k, b, wb);
    }
    ClosedByKeys(out, t, b, wb);
  }

  ghost predicate MissedIsDeclared(out: TaskSpec, k: string) {
    ParamRead(k).Reads? && Declares(out.params, ParamRead(k).name)
  }

  lemma KeyClosedExactly(spec: TaskGroupSpec, used: map<int, TaskSpec>, out: TaskSpec, i: nat, k: string,
                         b: map<string, string>, wb: map<string, string>)
    requires out == Declared(spec, used, out.steps) && i < |spec.steps| && spec.steps[i].uses.Some? && i in used
    requires b == ParamBindings(spec.steps[i]) && wb == WorkspaceBindings(spec.steps[i]) && PlainNames(b)
    requires TargetsDeclared(spec.steps[i], out) && RefDeclared(used[i], k)
    ensures RefDeclared(out, RewiredKey(b, wb, k)) <==> (Missed(k, b) ==> MissedIsDeclared(out, k))
  {
    if Missed(k, b) {
      MissedKey(k, b, wb);
    } else {
      KeyClosed(spec, used, out, i, k, b, wb);
    }
  }

  lemma ClosedByKeys(out: TaskSpec, t: string, b: map<string, string>, wb: map<string, string>)
    requires References(Rewrite(t, b, wb)) == set k | k in References(t) :: RewiredKey(b, wb, k)
    requires forall k :: k in References(t) ==>
              (RefDeclared(out, RewiredKey(b, wb, k)) <==> (Missed(k, b) ==> MissedIsDeclared(out, k)))
    ensures Closed(out, Rewrite(t, b, wb)) <==> MissedDeclared(out, t, b)
  {
    if Closed(out, Rewrite(t, b, wb)) {
      forall k | k in References(t) && Missed(k, b) ensures MissedIsDeclared(out, k) {
        assert RewiredKey(b, wb, k) in References(Rewrite(t, b, wb));
      }
    }
  }

  /** Every text of the step refers only to what the Task declares. */
  ghost predicate WellReferenced(t: TaskSpec, s: Step) {
    forall x :: x in StepTexts(s) ==> Closed(t, x)
  }

  ghost predicate MissesDeclared(out: TaskSpec, s: Step, b: map<string, string>) {
    forall x :: x in StepTexts(s) ==> MissedDeclared(out, x, b)
  }

  lemma RewrittenMember(b: map<string, string>, wb: map<string, string>, xs: seq<string>, ys: seq<string>, t': string)
    returns (t: string)
    requires ListRewritten(b, wb, xs, ys) && t' in ys
    ensures t in xs && t in Members(xs) && t' == Rewrite(t, b, wb)
  {
    var n :| 0 <= n < |ys| && ys[n] == t';
    t := xs[n];
  }

  lemma RewrittenEnvText(b: map<string, string>, wb: map<string, string>, xs: seq<EnvVar>, ys: seq<EnvVar>, t': string)
    returns (t: string)
    requires |ys| == |xs| && t' in EnvTexts(ys)
    requires forall i :: 0 <= i < |xs| ==> ys[i] == EnvVar(xs[i].name, Rewrite(xs[i].value, b, wb))
    ensures t in EnvTexts(xs) && t' == Rewrite(t, b, wb)
  {
    var e :| e in ys && e.value == t';
    var n :| 0 <= n < |ys| && ys[n] == e;
    assert xs[n] in xs;
    t := xs[n].value;
  }

  lemma RewrittenTexts(prefix: string, b: map<string, string>, wb: map<string, string>, s: Step, r: Step, t': string)
    returns (t: string)
    requires IsRewritten(prefix, b, wb, s, r) && t' in StepTexts(r)
    ensures t in StepTexts(s) && t' == Rewrite(t, b, wb)
  {
    if t' == r.image { return s.image; }
    if t' == r.script { return s.script; }
    if t' in r.args {
      t := RewrittenMember(b, wb, s.args, r.args, t');
      return;
    }
    if t' in r.command {
      t := RewrittenMember(b, wb, s.command, r.command, t');
      return;
    }
    if t' in r.texts {
      t := RewrittenMember(b, wb, s.texts, r.texts, t');
      return;
    }
    t := RewrittenEnvText(b, wb, s.env, r.env, t');
  }

  /** Every text of the used step is there, rewritten. */
  lemma RewrittenBack(prefix: string, b: map<string, string>, wb: map<string, string>, s: Step, r: Step, t: string)
    requires IsRewritten(prefix, b, wb, s, r) && t in StepTexts(s)
    ensures Rewrite(t, b, wb) in StepTexts(r)
  {
    if t in Members(s.args) {
      MemberBack(b, wb, s.args, r.args, t);
    } else if t in Members(s.command) {
      MemberBack(b, wb, s.command, r.command, t);
    } else if t in Members(s.texts) {
      MemberBack(b, wb, s.texts, r.texts, t);
    } else if t in EnvTexts(s.env) {
      EnvBack(b, wb, s.env, r.env, t);
    }
  }

  lemma MemberBack(b: map<string, string>, wb: map<string, string>, xs: seq<string>, ys: seq<string>, t: string)
    requires ListRewritten(b, wb, xs, ys) && t in Members(xs)
    ensures Rewrite(t, b, wb) in Members(ys)
  {
    var n :| 0 <= n < |xs| && xs[n] == t;
    assert ys[n] in ys;
  }

  lemma EnvBack(b: map<string, string>, wb: map<string, string>, xs: seq<EnvVar>, ys: seq<EnvVar>, t: string)
    requires |ys| == |xs| && t in EnvTexts(xs)
    requires forall i :: 0 <= i < |xs| ==> ys[i] == EnvVar(xs[i].name, Rewrite(xs[i].value, b, wb))
    ensures Rewrite(t, b, wb) in EnvTexts(ys)
  {
    var e :| e in xs && e.value == t;
    var n :| 0 <= n < |xs| && xs[n] == e;
    assert ys[n] in ys;
  }

  /** The rewritten step refers only to what the output declares exactly if the output declares the params
      of the references that rewriting misses. */
  lemma RewrittenStepClosed(spec: TaskGroupSpec, used: map<int, TaskSpec>, out: TaskSpec, i: nat, s: Step, r: Step,
                            b: map<string, string>, wb: map<string, string>)
    requires CleanSpec(spec) && out == Declared(spec, used, out.steps)
    requires i < |spec.steps| && spec.steps[i].uses.Some? && i in used && TargetsDeclared(spec.steps[i], out)
    requires b == ParamBindings(spec.steps[i]) && wb == WorkspaceBindings(spec.steps[i]) && PlainNames(b)
    requires WellReferenced(used[i], s) && IsRewritten(StepPrefix(spec, i), b, wb, s, r)
    ensures WellReferenced(out, r) <==> MissesDeclared(out, s, b)
  {
    forall t | t in StepTexts(s) ensures Closed(out, Rewrite(t, b, wb)) <==> MissedDeclared(out, t, b) {
      RewrittenTextClosed(spec, used, out, i, t, b, wb);
    }
    StepClosedByTexts(StepPrefix(spec, i), out, s, r, b, wb);
  }

  lemma StepClosedByTexts(prefix: string, out: TaskSpec, s: Step, r: Step, b: map<string, string>, wb: map<string,
                          string>)
    requires IsRewritten(prefix, b, wb, s, r)
    requires forall t :: t in StepTexts(s) ==> (Closed(out, Rewrite(t, b, wb)) <==> MissedDeclared(out, t, b))
    ensures WellReferenced(out, r) <==> MissesDeclared(out, s, b)
  {
    if MissesDeclared(out, s, b) {
      forall t' | t' in StepTexts(r) ensures Closed(out, t') {
        var t := RewrittenTexts(prefix, b, wb, s, r, t');
      }
    }
    if WellReferenced(out, r) {
      forall t | t in StepTexts(s) ensures MissedDeclared(out, t, b) {
        RewrittenBack(prefix, b, wb, s, r, t);
      }
    }
  }

  ghost predicate TemplateClosed(t: TaskSpec, template: Option<Container>) {
    template.Some? ==> forall x :: x in ContainerTexts(template.value) ==> Closed(t, x)
  }

  lemma ClosedUnderTemplate(m: Templating, template: Option<Container>, r: Step, out: TaskSpec)
    requires StepFieldsWin(m) && TemplateClosed(out, template) && WellReferenced(out, r)
    ensures WellReferenced(out, Overlaid(m, template, r))
  {
    OverlayKeeps(m, template, r);
  }

  /** Reference closure: an inlined output step refers only to params and workspaces the output declares
      if the output declares the params of the references that rewriting misses, and the template's
      references; without a template, exactly then. */
  lemma OutputClosed(spec: TaskGroupSpec, used: map<int, TaskSpec>, m: Templating, out: TaskSpec, i: nat, j: nat,
                     b: map<string, string>)
    returns (p: nat)
    requires StepFieldsWin(m) && CleanSpec(spec) && Compiled(spec, used, m, out) && Inlines(spec, used, i, j)
    requires TargetsDeclared(spec.steps[i], out) && WellReferenced(used[i], used[i].steps[j])
    requires b == ParamBindings(spec.steps[i]) && PlainNames(b)
    ensures p == Offset(spec, used, i) + j < |out.steps|
    ensures MissesDeclared(out, used[i].steps[j], b) && TemplateClosed(out, used[i].stepTemplate) ==>
              WellReferenced(out, out.steps[p])
    ensures used[i].stepTemplate.None? ==>
              (WellReferenced(out, out.steps[p]) <==> MissesDeclared(out, used[i].steps[j], b))
  {
    p := Offset(spec, used, i) + j;
    var r := InlinedStep(spec, used, m, out, i, j);
    RewrittenStepClosed(spec, used, out, i, used[i].steps[j], r, b, WorkspaceBindings(spec.steps[i]));
    if MissesDeclared(out, used[i].steps[j], b) && TemplateClosed(out, used[i].stepTemplate) {
      ClosedUnderTemplate(m, used[i].stepTemplate, r, out);
    }
  }
}
