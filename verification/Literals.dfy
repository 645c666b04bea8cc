/** What is rewritten and evaluated, letter by letter. */
module Literals {
  import opened Text
  import opened Substitution
  import opened Bindings
  import opened Meaning
  import opened Arrays

  // ---- Rewriting ----

  /** A reference at the head of a text is rewritten on its own. */
  lemma RewriteHead(k: string, rest: string, b: map<string, string>, wb: map<string, string>)
    requires IsClean(k) && CleanNames(b) && CleanNames(wb)
    ensures Rewrite(Ref(k) + rest, b, wb) == Ref(RewiredKey(b, wb, k)) + Rewrite(rest, b, wb)
  {
    var r := RefTable(Rewiring(b, wb));
    PassesCommute(Ref(k) + rest, b, wb);
    PassesCommute(rest, b, wb);
    HeadRefExact(Ref(k) + rest, k);
    EvalHeadRef(Ref(k) + rest, r);
    assert (Ref(k) + rest)[|k| + 3..] == rest;
    RewiringLeads(b, wb, k);
    LookupRefTable(Rewiring(b, wb), k);
  }

  lemma RewrittenForm(f: Form, x: string, rest: string, b: map<string, string>, wb: map<string, string>)
    requires IsClean(x) && CleanNames(b) && CleanNames(wb)
    ensures Rewrite(Ref(KeyOf(f, x)) + rest, b, wb) == Ref(KeyOf(f, LedBy(Applied(f, b, wb), x))) + Rewrite(rest, b, wb)
  {
    KeyClean(f, x);
    RewriteHead(KeyOf(f, x), rest, b, wb);
    ReadExact(KeyOf(f, x), f, x);
  }

  /** What stands before and after the name in a reference of a form. */
  predicate Around(f: Form, before: string, after: string) {
    before == "$(" + Prefix(f) && after == Suffix(f) + ")"
  }

  lemma RefText(f: Form, before: string, x: string, after: string)
    requires Around(f, before, after)
    ensures Ref(KeyOf(f, x)) == before + x + after
  {
    var p, s := Prefix(f), Suffix(f);
    assert "$(" + (p + x + s) + ")" == ("$(" + p) + x + (s + ")");
  }

  lemma StarredText(f: Form, before: string, x: string, after: string, starred: string)
    requires Around(f, before, after) && AfterStarred(f, starred)
    ensures Ref(KeyOf(f, x) + "[*]") == before + x + starred
  {
    var p, s := Prefix(f), Suffix(f);
    assert "$(" + (p + x + s + "[*]") + ")" == ("$(" + p) + x + (s + "[*])");
  }

  lemma ParamTexts()
    ensures Around(Dot, "$(params.", ")") && Around(Single, "$(params['", "'])")
    ensures Around(Double, "$(params[\"", "\"])") && Around(Legacy, "$(inputs.params.", ")")
  {
  }

  /** What stands after the name in a starred reference. */
  predicate AfterStarred(f: Form, starred: string) {
    starred == Suffix(f) + "[*])"
  }

  lemma StarredEnds()
    ensures AfterStarred(Dot, "[*])") && AfterStarred(Single, "'][*])")
    ensures AfterStarred(Double, "\"][*])") && AfterStarred(Legacy, "[*])")
  {
  }

  lemma WorkspaceTexts()
    ensures Around(Path, "$(workspaces.", ".path)") && Around(Bound, "$(workspaces.", ".bound)")
    ensures Around(Claim, "$(workspaces.", ".claim)") && Around(Volume, "$(workspaces.", ".volume)")
    ensures Around(ExitCode, "$(steps.", ".exitCode.path)")
  {
  }

  lemma FormRewritten(f: Form, before: string, x: string, y: string, after: string, rest: string,
                      b: map<string, string>, wb: map<string, string>)
    requires Around(f, before, after) && IsClean(x) && CleanNames(b) && CleanNames(wb)
    requires y == LedBy(Applied(f, b, wb), x)
    ensures Rewrite(before + x + after + rest, b, wb) == before + y + after + Rewrite(rest, b, wb)
  {
    RefText(f, before, x, after);
    RefText(f, before, y, after);
    RewrittenForm(f, x, rest, b, wb);
  }

  /** What a bound name stands for. */
  ghost predicate StandsFor(b: map<string, string>, x: string, y: string) {
    if x in b then y == b[x] else y == x
  }

  lemma ParamRewritten(f: Form, before: string, x: string, y: string, after: string, rest: string,
                       b: map<string, string>, wb: map<string, string>)
    requires (f.Dot? || f.Single? || f.Double?) && Around(f, before, after) && StandsFor(b, x, y)
    requires IsClean(x) && CleanNames(b) && CleanNames(wb)
    ensures Rewrite(before + x + after + rest, b, wb) == before + y + after + Rewrite(rest, b, wb)
  {
    FormRewritten(f, before, x, y, after, rest, b, wb);
  }

  lemma WorkspaceRewritten(f: Form, before: string, x: string, y: string, after: string, rest: string,
                           b: map<string, string>, wb: map<string, string>)
    requires (f.Path? || f.Bound? || f.Claim? || f.Volume?) && Around(f, before, after) && StandsFor(wb, x, y)
    requires IsClean(x) && CleanNames(b) && CleanNames(wb)
    ensures Rewrite(before + x + after + rest, b, wb) == before + y + after + Rewrite(rest, b, wb)
  {
    FormRewritten(f, before, x, y, after, rest, b, wb);
  }

  lemma FormStays(f: Form, before: string, x: string, after: string, rest: string,
                  b: map<string, string>, wb: map<string, string>)
    requires (f.Legacy? || f.ExitCode?) && Around(f, before, after) && IsClean(x) && CleanNames(b) && CleanNames(wb)
    ensures Rewrite(before + x + after + rest, b, wb) == before + x + after + Rewrite(rest, b, wb)
  {
    FormRewritten(f, before, x, x, after, rest, b, wb);
  }

  /** Every spelling of a param reference, wherever it stands, becomes the same spelling of a reference to
      the param it is bound to; except for the old spelling, which stays. */
  lemma ParamsRewritten(x: string, y: string, rest: string, b: map<string, string>, wb: map<string, string>)
    requires IsClean(x) && CleanNames(b) && CleanNames(wb) && StandsFor(b, x, y)
    ensures Rewrite("$(params." + x + ")" + rest, b, wb) == "$(params." + y + ")" + Rewrite(rest, b, wb)
    ensures Rewrite("$(params['" + x + "'])" + rest, b, wb) == "$(params['" + y + "'])" + Rewrite(rest, b, wb)
    ensures Rewrite("$(params[\"" + x + "\"])" + rest, b, wb) == "$(params[\"" + y + "\"])" + Rewrite(rest, b, wb)
    ensures Rewrite("$(inputs.params." + x + ")" + rest, b, wb) == "$(inputs.params." + x + ")" + Rewrite(rest, b, wb)
  {
    ParamTexts();
    ParamRewritten(Dot, "$(params.", x, y, ")", rest, b, wb);
    ParamRewritten(Single, "$(params['", x, y, "'])", rest, b, wb);
    ParamRewritten(Double, "$(params[\"", x, y, "\"])", rest, b, wb);
    FormStays(Legacy, "$(inputs.params.", x, ")", rest, b, wb);
  }

  /** Every reference to a workspace becomes the same reference to the workspace it is bound to; references
      to steps stay. */
  lemma WorkspacesRewritten(x: string, y: string, rest: string, b: map<string, string>, wb: map<string, string>)
    requires IsClean(x) && CleanNames(b) && CleanNames(wb) && StandsFor(wb, x, y)
    ensures Rewrite("$(workspaces." + x + ".path)" + rest, b, wb) ==
            "$(workspaces." + y + ".path)" + Rewrite(rest, b, wb)
    ensures Rewrite("$(workspaces." + x + ".bound)" + rest, b, wb) ==
            "$(workspaces." + y + ".bound)" + Rewrite(rest, b, wb)
    ensures Rewrite("$(workspaces." + x + ".claim)" + rest, b, wb) ==
            "$(workspaces." + y + ".claim)" + Rewrite(rest, b, wb)
    ensures Rewrite("$(workspaces." + x + ".volume)" + rest, b, wb) ==
            "$(workspaces." + y + ".volume)" + Rewrite(rest, b, wb)
    ensures Rewrite("$(steps." + x + ".exitCode.path)" + rest, b, wb) ==
            "$(steps." + x + ".exitCode.path)" + Rewrite(rest, b, wb)
  {
    WorkspaceTexts();
    WorkspaceRewritten(Path, "$(workspaces.", x, y, ".path)", rest, b, wb);
    WorkspaceRewritten(Bound, "$(workspaces.", x, y, ".bound)", rest, b, wb);
    WorkspaceRewritten(Claim, "$(workspaces.", x, y, ".claim)", rest, b, wb);
    WorkspaceRewritten(Volume, "$(workspaces.", x, y, ".volume)", rest, b, wb);
    FormStays(ExitCode, "$(steps.", x, ".exitCode.path)", rest, b, wb);
  }

  /** Everything else is copied: a text is rewritten from the left, character by character where no
      reference starts. */
  lemma RestCopied(c: char, rest: string, b: map<string, string>, wb: map<string, string>)
    requires CleanNames(b) && CleanNames(wb) && c != '$'
    ensures Rewrite("", b, wb) == ""
    ensures Rewrite([c] + rest, b, wb) == [c] + Rewrite(rest, b, wb)
  {
    var r := RefTable(Rewiring(b, wb));
    PassesCommute([c] + rest, b, wb);
    PassesCommute(rest, b, wb);
    PassesCommute("", b, wb);
    EvalNonRef([c] + rest, r);
    assert ([c] + rest)[1..] == rest;
  }

  // ---- Evaluating ----

  lemma EvalHead(f: Form, before: string, x: string, after: string, rest: string, env: Environment)
    requires Around(f, before, after) && IsClean(x) && x in ValuesFor(env, f)
    ensures Eval(before + x + after + rest, RunTable(env)) == ValuesFor(env, f)[x] + Eval(rest, RunTable(env))
  {
    var k := KeyOf(f, x);
    RefText(f, before, x, after);
    KeyClean(f, x);
    HeadRefExact(Ref(k) + rest, k);
    EvalHeadRef(Ref(k) + rest, RunTable(env));
    assert (Ref(k) + rest)[|k| + 3..] == rest;
    RunLookup(env, k);
    ValueOfKey(env, f, x);
  }

  /** When the TaskRun is executed, every spelling of a reference to a param gives its text. */
  lemma ParamsEvaluated(x: string, v: string, rest: string, env: Environment)
    requires IsClean(x) && x in env.params && env.params[x] == One(v)
    ensures Eval("$(params." + x + ")" + rest, RunTable(env)) == v + Eval(rest, RunTable(env))
    ensures Eval("$(params['" + x + "'])" + rest, RunTable(env)) == v + Eval(rest, RunTable(env))
    ensures Eval("$(params[\"" + x + "\"])" + rest, RunTable(env)) == v + Eval(rest, RunTable(env))
    ensures Eval("$(inputs.params." + x + ")" + rest, RunTable(env)) == v + Eval(rest, RunTable(env))
  {
    ParamTexts();
    EvalHead(Dot, "$(params.", x, ")", rest, env);
    EvalHead(Single, "$(params['", x, "'])", rest, env);
    EvalHead(Double, "$(params[\"", x, "\"])", rest, env);
    EvalHead(Legacy, "$(inputs.params.", x, ")", rest, env);
  }

  /** References to a workspace and to the exit code of a step give what they are called after. */
  lemma WorkspacesEvaluated(x: string, rest: string, env: Environment)
    requires IsClean(x)
    ensures x in env.paths ==>
              Eval("$(workspaces." + x + ".path)" + rest, RunTable(env)) == env.paths[x] + Eval(rest, RunTable(env))
    ensures x in env.bounds ==>
              Eval("$(workspaces." + x + ".bound)" + rest, RunTable(env)) == env.bounds[x] + Eval(rest, RunTable(env))
    ensures x in env.claims ==>
              Eval("$(workspaces." + x + ".claim)" + rest, RunTable(env)) == env.claims[x] + Eval(rest, RunTable(env))
    ensures x in env.volumes ==>
              Eval("$(workspaces." + x + ".volume)" + rest, RunTable(env)) == env.volumes[x] + Eval(rest, RunTable(env))
    ensures x in env.steps ==>
              Eval("$(steps." + x + ".exitCode.path)" + rest, RunTable(env)) == env.steps[x] + Eval(rest, RunTable(env))
  {
    WorkspaceTexts();
    if x in env.paths { EvalHead(Path, "$(workspaces.", x, ".path)", rest, env); }
    if x in env.bounds { EvalHead(Bound, "$(workspaces.", x, ".bound)", rest, env); }
    if x in env.claims { EvalHead(Claim, "$(workspaces.", x, ".claim)", rest, env); }
    if x in env.volumes { EvalHead(Volume, "$(workspaces.", x, ".volume)", rest, env); }
    if x in env.steps { EvalHead(ExitCode, "$(steps.", x, ".exitCode.path)", rest, env); }
  }

  lemma ArrayHead(f: Form, before: string, x: string, after: string, starred: string, env: Environment)
    requires Around(f, before, after) && AfterStarred(f, starred)
    requires IsParam(f) && IsPlain(x) && PlainEnvironment(env) && x in env.params && env.params[x].Many?
    ensures ArgValue(before + x + after, env) == env.params[x].items
    ensures ArgValue(before + x + starred, env) == env.params[x].items
  {
    var k := KeyOf(f, x);
    RefText(f, before, x, after);
    StarredText(f, before, x, after, starred);
    KeyClean(f, x);
    StarClean(k);
    ReadExact(k, f, x);
    PlainKeyUnstarred(f, x);
    BaseOfStarred(k);
    WholeArg(k, env);
    WholeArg(k + "[*]", env);
  }

  /** An argument that is a reference to an array, in any spelling, starred or not, becomes its elements. */
  lemma ArraysEvaluated(x: string, env: Environment)
    requires IsPlain(x) && PlainEnvironment(env) && x in env.params && env.params[x].Many?
    ensures ArgValue("$(params." + x + ")", env) == env.params[x].items
    ensures ArgValue("$(params." + x + "[*])", env) == env.params[x].items
    ensures ArgValue("$(params['" + x + "'])", env) == env.params[x].items
    ensures ArgValue("$(params['" + x + "'][*])", env) == env.params[x].items
    ensures ArgValue("$(params[\"" + x + "\"])", env) == env.params[x].items
    ensures ArgValue("$(params[\"" + x + "\"][*])", env) == env.params[x].items
    ensures ArgValue("$(inputs.params." + x + ")", env) == env.params[x].items
    ensures ArgValue("$(inputs.params." + x + "[*])", env) == env.params[x].items
  {
    ParamTexts();
    StarredEnds();
    ArrayHead(Dot, "$(params.", x, ")", "[*])", env);
    ArrayHead(Single, "$(params['", x, "'])", "'][*])", env);
    ArrayHead(Double, "$(params[\"", x, "\"])", "\"][*])", env);
    ArrayHead(Legacy, "$(inputs.params.", x, ")", "[*])", env);
  }
}
