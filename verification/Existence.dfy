/** Whatever compiles without an error compiles to something: the specification of the compiler can be met
    by every templating. */
module Existence {
  import opened Text
  import opened Substitution
  import opened Bindings
  import opened Types
  import opened Compiler
  import opened CompilerFacts
  import opened Declarations

  lemma {:induction false} SomeListing(r: map<string, string>, keys: set<string>) returns (pairs: seq<Pair>)
    requires keys <= r.Keys
    ensures forall p :: p in pairs ==> p.key in r && p.text == r[p.key]
    ensures forall k :: k in keys ==> Pair(k, r[k]) in pairs
  {
    if keys == {} {
      pairs := [];
    } else {
      var k :| k in keys;
      pairs := SomeListing(r, keys - {k});
      pairs := pairs + [Pair(k, r[k])];
    }
  }

  lemma SomeText(r: map<string, string>, t: string) returns (t': string)
    ensures TextReplaced(r, t, t')
  {
    var pairs := SomeListing(r, r.Keys);
    assert Lists(pairs, r);
    t' := Replace(t, pairs);
  }

  lemma {:induction false} SomeTexts(r: map<string, string>, xs: seq<string>) returns (ys: seq<string>)
    ensures ListReplaced(r, xs, ys)
  {
    if xs == [] {
      ys := [];
    } else {
      ys := SomeTexts(r, xs[..|xs| - 1]);
      var y := SomeText(r, xs[|xs| - 1]);
      ys := ys + [y];
    }
  }

  lemma {:induction false} SomeEnv(r: map<string, string>, xs: seq<EnvVar>) returns (ys: seq<EnvVar>)
    ensures |ys| == |xs|
    ensures forall i :: 0 <= i < |xs| ==> ys[i].name == xs[i].name && TextReplaced(r, xs[i].value, ys[i].value)
  {
    if xs == [] {
      ys := [];
    } else {
      ys := SomeEnv(r, xs[..|xs| - 1]);
      var y := SomeText(r, xs[|xs| - 1].value);
      ys := ys + [EnvVar(xs[|xs| - 1].name, y)];
    }
  }

  lemma SomeStep(r: map<string, string>, s: Step) returns (s': Step)
    ensures StepReplaced(r, s, s')
  {
    var name := SomeText(r, s.name);
    var image := SomeText(r, s.image);
    var script := SomeText(r, s.script);
    var args := SomeTexts(r, s.args);
    var command := SomeTexts(r, s.command);
    var env := SomeEnv(r, s.env);
    var texts := SomeTexts(r, s.texts);
    s' := Step(name, image, script, args, command, env, texts, s.other);
  }

  lemma SomeInlined(prefix: string, b: map<string, string>, wb: map<string, string>, s: Step) returns (s': Step)
    ensures StepInlined(prefix, b, wb, s, s')
  {
    var mid := SomeStep(RefTable(Renaming(PARAM_FORMS, b)), s);
    var r := SomeStep(RefTable(Renaming(WORKSPACE_FORMS, wb)), mid);
    s' := r.(name := prefix + "-" + r.name);
  }

  lemma {:induction false} SomeInlinedSteps(prefix: string, b: map<string, string>, wb: map<string, string>,
                                            ss: seq<Step>)
    returns (out: seq<Step>)
    ensures StepsInlined(prefix, b, wb, ss, out)
  {
    if ss == [] {
      out := [];
    } else {
      var i := |ss| - 1;
      out := SomeInlinedSteps(prefix, b, wb, ss[..i]);
      var s := SomeInlined(prefix, b, wb, ss[i]);
      OneMoreInlined(prefix, b, wb, ss, i, out, s);
      assert ss[..i + 1] == ss;
      out := out + [s];
    }
  }

  lemma {:induction false} SomeOverlaid(m: Templating, template: Option<Container>, steps: seq<Step>)
    returns (block: seq<Step>)
    ensures OverlaidAll(m, template, steps, block)
  {
    if steps == [] {
      block := [];
    } else {
      var i := |steps| - 1;
      block := SomeOverlaid(m, template, steps[..i]);
      block := block + [Overlaid(m, template, steps[i])];
    }
  }

  lemma SomeBlock(spec: TaskGroupSpec, used: map<int, TaskSpec>, m: Templating, i: nat) returns (block: seq<Step>)
    requires i < |spec.steps| && (spec.steps[i].uses.Some? ==> i in used)
    ensures BlockFor(spec, used, m, i, block)
  {
    match spec.steps[i].uses
    case None => block := [Overlaid(m, spec.stepTemplate, spec.steps[i].step)];
    case Some(uses) =>
      var inlined := SomeInlinedSteps(StepPrefix(spec, i), BindingMap(uses.paramBindings),
                                      BindingMap(uses.workspaceBindings), used[i].steps);
      block := SomeOverlaid(m, used[i].stepTemplate, inlined);
  }

  lemma {:induction false} SomeBlocks(spec: TaskGroupSpec, used: map<int, TaskSpec>, m: Templating, n: nat)
    returns (blocks: seq<seq<Step>>)
    requires AllUsesSupplied(spec, used) && n <= |spec.steps|
    ensures Blocks(spec, used, m, n, blocks)
  {
    if n == 0 {
      blocks := [];
    } else {
      blocks := SomeBlocks(spec, used, m, n - 1);
      var block := SomeBlock(spec, used, m, n - 1);
      OneMoreBlock(spec, used, m, n - 1, blocks, block);
      blocks := blocks + [block];
    }
  }

  lemma OneMoreBlock(spec: TaskGroupSpec, used: map<int, TaskSpec>, m: Templating, n: nat, blocks: seq<seq<Step>>,
                     block: seq<Step>)
    requires Blocks(spec, used, m, n, blocks) && n < |spec.steps| && BlockFor(spec, used, m, n, block)
    ensures Blocks(spec, used, m, n + 1, blocks + [block])
  {
  }

  /** A TaskGroup that compiles without an error compiles to something. */
  lemma CompiledExists(spec: TaskGroupSpec, used: map<int, TaskSpec>, m: Templating) returns (out: TaskSpec)
    requires CompileError(spec, used, m) == None
    ensures Compiled(spec, used, m, out)
  {
    SucceedsExactly(spec, used, m);
    forall i | 0 <= i < |spec.steps| && spec.steps[i].uses.Some? ensures i in used {
      assert StepFine(spec, used, m, i);
    }
    var blocks := SomeBlocks(spec, used, m, |spec.steps|);
    out := Declared(spec, used, Flatten(blocks));
  }
}
