/** What rewriting an argument means.  An argument that is nothing but a reference to an array param,
    starred or not, becomes the elements of the array when the TaskRun is executed; everywhere else
    such a reference is left as it stands. */
module Arrays {
  import opened Text
  import opened Substitution
  import opened Bindings
  import opened Meaning

  // ---- Starred references ----

  /** `[` stands in no param name, so that a star cannot be taken for part of one. */
  predicate IsPlain(n: string) {
    IsClean(n) && '[' !in n
  }

  ghost predicate PlainNames(b: map<string, string>) {
    forall n {:trigger b[n]} :: n in b ==> IsPlain(n) && IsPlain(b[n])
  }

  predicate Starred(k: string) {
    |k| >= 3 && k[|k| - 3] == '[' && k[|k| - 2] == '*' && k[|k| - 1] == ']'
  }

  /** The key without its star. */
  function Base(k: string): string {
    if Starred(k) then k[..|k| - 3] else k
  }

  /** The param a key refers to, starred or not. */
  ghost function ParamRead(k: string): Reading {
    match Read(Base(k))
    case Reads(f, n) => if IsParam(f) then Reads(f, n) else Other
    case Other => Other
  }

  lemma BaseOfStarred(k: string)
    ensures Starred(k + "[*]") && Base(k + "[*]") == k
    ensures Starred(k) ==> Base(k) + "[*]" == k
  {
    assert (k + "[*]")[..|k|] == k;
    if Starred(k) {
      assert k[|k| - 3..] == "[*]";
      assert k == k[..|k| - 3] + k[|k| - 3..];
    }
  }

  lemma SuffixedUnstarred(f: Form, n: string)
    requires Suffix(f) != ""
    ensures !Starred(KeyOf(f, n))
  {
    var k, c := KeyOf(f, n), Suffix(f);
    assert k[|k| - 2] == c[|c| - 2] != '*';
  }

  lemma BareKey(f: Form, n: string)
    requires Suffix(f) == ""
    ensures '[' in KeyOf(f, n) <==> '[' in n
  {
    assert '[' !in Prefix(f);
    assert KeyOf(f, n) == Prefix(f) + n;
  }

  lemma PlainKeyUnstarred(f: Form, n: string)
    requires IsParam(f) ==> '[' !in n
    ensures !Starred(KeyOf(f, n))
  {
    if Suffix(f) != "" {
      SuffixedUnstarred(f, n);
    } else {
      BareKey(f, n);
    }
  }

  /** A starred key reads as a longer name, or as nothing. */
  lemma StarredReading(k: string)
    requires Starred(k) && Read(k).Reads?
    ensures (Read(k).form.Dot? || Read(k).form.Legacy?) && '[' in Read(k).name
  {
    var f, n := Read(k).form, Read(k).name;
    ReadExact(k, f, n);
    if Suffix(f) != "" {
      SuffixedUnstarred(f, n);
    }
    assert '[' in k;
    BareKey(f, n);
  }

  /** Rewriting leaves a starred reference to a param alone. */
  lemma StarredStays(k: string, b: map<string, string>, wb: map<string, string>)
    requires PlainNames(b) && Starred(k)
    ensures RewiredKey(b, wb, k) == k
    ensures Read(k).Reads? ==> Read(k).name !in b && (Read(k).form.Dot? || Read(k).form.Legacy?)
    ensures !LegacyOffends(k, b)
  {
    if Read(k).Reads? {
      StarredReading(k);
      ReadExact(k, Read(k).form, Read(k).name);
    }
  }

  /** The key an unstarred one is led to is not starred either. */
  lemma UnstarredStays(k: string, b: map<string, string>, wb: map<string, string>)
    requires PlainNames(b) && !Starred(k)
    ensures !Starred(RewiredKey(b, wb, k))
  {
    if Read(k).Reads? {
      var f, n := Read(k).form, Read(k).name;
      ReadExact(k, f, n);
      var names := Applied(f, b, wb);
      if LedBy(names, n) != n {
        assert IsParam(f) ==> '[' !in names[n];
        PlainKeyUnstarred(f, names[n]);
      }
    }
  }

  // ---- Arguments at run time ----

  ghost predicate PlainEnvironment(env: Environment) {
    forall n :: n in env.params ==> IsPlain(n)
  }

  ghost function ItemsOf(env: Environment, k: string): seq<string> {
    match Read(k)
    case Reads(f, n) => if n in env.params && env.params[n].Many? then env.params[n].items else []
    case Other => []
  }

  /** The arrays Tekton expands: every form of every param that has an array as its value. */
  ghost function ArrayTable(env: Environment): map<string, seq<string>> {
    map k | k in (set f: Form, n | IsParam(f) && n in env.params &&
        env.params[n].Many? :: KeyOf(f, n)) :: ItemsOf(env, k)
  }

  ghost predicate ReadsArray(env: Environment, k: string) {
    match Read(k)
    case Reads(f, n) => IsParam(f) && n in env.params && env.params[n].Many?
    case Other => false
  }

  lemma ArrayTableExact(env: Environment, k: string)
    ensures k in ArrayTable(env) <==> ReadsArray(env, k)
    ensures ReadsArray(env, k) ==> ArrayTable(env)[k] == env.params[Read(k).name].items
  {
    if k in ArrayTable(env) {
      var f: Form, n :| IsParam(f) && n in env.params && env.params[n].Many? && k == KeyOf(f, n);
      ReadExact(k, f, n);
    } else if Read(k).Reads? {
      ReadExact(k, Read(k).form, Read(k).name);
    }
  }

  lemma ArrayKeyUnstarred(env: Environment, k: string)
    requires PlainEnvironment(env) && k in ArrayTable(env)
    ensures !Starred(k)
  {
    ArrayTableExact(env, k);
    ReadExact(k, Read(k).form, Read(k).name);
    PlainKeyUnstarred(Read(k).form, Read(k).name);
  }

  /** No argument refers to two arrays, so the order in which they are tried does not matter. */
  lemma ArraysUnambiguous(env: Environment)
    requires PlainEnvironment(env)
    ensures Unambiguous(ArrayTable(env))
  {
    forall j, k | j in ArrayTable(env) && k in ArrayTable(env) ensures j != k + "[*]" {
      ArrayKeyUnstarred(env, j);
      BaseOfStarred(k);
    }
  }

  ghost function ArgValue(t: string, env: Environment): seq<string> {
    EvalArg(t, RunTable(env), ArrayTable(env))
  }

  /** What an argument that is nothing but `$(k)` stands for. */
  ghost function WholeValue(k: string, env: Environment): seq<string> {
    if ReadsArray(env, Base(k)) then env.params[Read(Base(k)).name].items else [ValueOf(env, k)]
  }

  lemma ExpandsBase(k: string, j: string)
    requires !Starred(j)
    ensures Expands(Ref(k), j) <==> j == Base(k)
  {
    BaseOfStarred(j);
    BaseOfStarred(k);
    if Ref(k) == Ref(j) {
      RefInjective(k, j);
    }
    if Ref(k) == Ref(j + "[*]") {
      RefInjective(k, j + "[*]");
    }
  }

  lemma WholeArg(k: string, env: Environment)
    requires IsClean(k) && PlainEnvironment(env)
    ensures ArgValue(Ref(k), env) == WholeValue(k, env)
  {
    var arrays := ArrayTable(env);
    forall j | j in arrays ensures Expands(Ref(k), j) <==> j == Base(k) {
      ArrayKeyUnstarred(env, j);
      ExpandsBase(k, j);
    }
    ArrayTableExact(env, Base(k));
    if ReadsArray(env, Base(k)) {
      assert Base(k) in arrays && Expands(Ref(k), Base(k));
    }
    EvalOfRef(k, RunTable(env));
    RunLookup(env, k);
  }

  /** The text is one reference and nothing else. */
  predicate IsWhole(t: string) {
    HeadRef(t).Some? && t == Ref(HeadRef(t).value)
  }

  lemma WholeExactly(t: string, k: string)
    requires IsClean(k)
    ensures t == Ref(k) <==> IsWhole(t) && HeadRef(t).value == k
  {
    HeadRefExact(t, k);
  }

  lemma ArrayKeyClean(env: Environment, k: string)
    requires PlainEnvironment(env) && k in ArrayTable(env)
    ensures IsClean(k) && IsClean(k + "[*]")
  {
    ArrayTableExact(env, k);
    ReadExact(k, Read(k).form, Read(k).name);
    KeyClean(Read(k).form, Read(k).name);
    StarClean(k);
  }

  lemma StarClean(k: string)
    requires IsClean(k)
    ensures IsClean(k + "[*]")
  {
  }

  /** An argument with more to it than one reference stays one argument. */
  lemma PartArg(t: string, env: Environment)
    requires !IsWhole(t) && PlainEnvironment(env)
    ensures ArgValue(t, env) == [Eval(t, RunTable(env))]
  {
    forall j | j in ArrayTable(env) ensures !Expands(t, j) {
      ArrayKeyClean(env, j);
      WholeExactly(t, j);
      WholeExactly(t, j + "[*]");
    }
  }

  lemma RewriteOfRef(k: string, b: map<string, string>, wb: map<string, string>)
    requires IsClean(k) && CleanNames(b) && CleanNames(wb)
    ensures Rewrite(Ref(k), b, wb) == Ref(RewiredKey(b, wb, k))
    ensures IsClean(RewiredKey(b, wb, k))
  {
    PassesCommute(Ref(k), b, wb);
    RewiringLeads(b, wb, k);
    EvalOfRef(k, RefTable(Rewiring(b, wb)));
    LookupRefTable(Rewiring(b, wb), k);
    RewiringIsClean(b, wb);
    assert k in Rewiring(b, wb) ==> IsClean(Rewiring(b, wb)[k]);
  }

  /** Rewriting neither makes nor breaks an argument that is one reference. */
  lemma WholeStays(t: string, b: map<string, string>, wb: map<string, string>)
    requires CleanNames(b) && CleanNames(wb)
    ensures IsWhole(Rewrite(t, b, wb)) <==> IsWhole(t)
  {
    var t', ren := Rewrite(t, b, wb), Rewiring(b, wb);
    if IsWhole(t) {
      HeadRefClean(t);
      RewriteOfRef(HeadRef(t).value, b, wb);
      WholeExactly(t', RewiredKey(b, wb, HeadRef(t).value));
    }
    if IsWhole(t') {
      PassesCommute(t, b, wb);
      RewiringIsClean(b, wb);
      TokensRenamed(t, ren);
      HeadRefClean(t');
      OneToken(t', HeadRef(t').value);
      assert |Tokens(t)| == 1 && Tokens(t)[0].Key?;
      OnlyToken(t);
    }
  }

  lemma OneToken(t: string, k: string)
    requires IsClean(k) && t == Ref(k)
    ensures Tokens(t) == [Key(k)]
  {
    TokensOfRef(k, "");
    assert Ref(k) + "" == Ref(k);
  }

  lemma OnlyToken(t: string)
    requires |Tokens(t)| == 1 && Tokens(t)[0].Key?
    ensures IsWhole(t)
  {
    assert t != "";
    assert HeadRef(t).Some?;
    var k := HeadRef(t).value;
    var rest := t[|k| + 3..];
    assert Tokens(t) == [Key(k)] + Tokens(rest);
    assert |Tokens(rest)| == 0;
    assert rest == "";
    SplitHeadRef(t, k, rest);
  }

  // ---- The meaning of an argument ----

  /** Bound names an argument refers to are bound to something that has a value: any value where the
      argument is the reference, a text elsewhere. */
  ghost predicate ArgSupplied(t: string, b: map<string, string>, wb: map<string, string>, h: Home, env: Environment) {
    if IsWhole(t) then WholeSupplied(HeadRef(t).value, b, wb, h, env) else Supplied(t, b, wb, h, env)
  }

  ghost predicate WholeSupplied(k: string, b: map<string, string>, wb: map<string, string>, h: Home, env: Environment) {
    match ParamRead(k)
    case Reads(_, n) => n in b ==> b[n] in env.params
    case Other => KeySupplied(k, b, wb, h, env)
  }

  /** A starred reference, of any of the four param forms, to a param that is bound to another one. */
  ghost predicate StarOffends(k: string, b: map<string, string>) {
    Starred(k) && ParamRead(k).Reads? && LedBy(b, ParamRead(k).name) != ParamRead(k).name
  }

  /** The argument holds no offending reference, and is no starred reference to a rebound param. */
  ghost predicate ArgSafe(t: string, b: map<string, string>, h: Home) {
    && (forall k :: k in References(t) ==> !Offends(k, b, h))
    && (IsWhole(t) ==> !StarOffends(HeadRef(t).value, b))
  }

  ghost predicate SameArg(t: string, b: map<string, string>, wb: map<string, string>, h: Home, env: Environment) {
    ArgValue(Rewrite(t, b, wb), env) == ArgValue(t, Composed(env, b, wb, h))
  }

  lemma ComposedPlain(env: Environment, b: map<string, string>, wb: map<string, string>, h: Home)
    requires PlainEnvironment(env) && PlainNames(b)
    ensures PlainEnvironment(Composed(env, b, wb, h))
  {
    assert forall n :: n in Through(env.params, b) ==> n in env.params || n in b;
  }

  /** The array a param reference is led to. */
  lemma ArrayThrough(f: Form, n: string, b: map<string, string>, wb: map<string, string>, h: Home, env: Environment)
    requires IsParam(f) && (n in b ==> b[n] in env.params)
    ensures ReadsArray(Composed(env, b, wb, h), KeyOf(f, n)) <==> ReadsArray(env, KeyOf(f, LedBy(b, n)))
    ensures ReadsArray(env, KeyOf(f, LedBy(b, n))) ==>
              n in Composed(env, b, wb, h).params && Composed(env, b, wb, h).params[n] == env.params[LedBy(b, n)]
  {
    ReadExact(KeyOf(f, n), f, n);
    ReadExact(KeyOf(f, LedBy(b, n)), f, LedBy(b, n));
    NameMeaning(env.params, b, n);
  }

  /** The base of the key a reference is led to is the base led on. */
  lemma BaseLeads(k: string, b: map<string, string>, wb: map<string, string>)
    requires PlainNames(b) && ParamRead(k).Reads? && !StarOffends(k, b) && !LegacyOffends(k, b)
    ensures Base(k) == KeyOf(ParamRead(k).form, ParamRead(k).name)
    ensures Base(RewiredKey(b, wb, k)) == KeyOf(ParamRead(k).form, LedBy(b, ParamRead(k).name))
  {
    var f, n := ParamRead(k).form, ParamRead(k).name;
    ReadExact(Base(k), f, n);
    if Starred(k) {
      StarredStays(k, b, wb);
    } else {
      UnstarredStays(k, b, wb);
      assert LedBy(Applied(f, b, wb), n) == LedBy(b, n);
    }
  }

  lemma ParamMeaning(k: string, b: map<string, string>, wb: map<string, string>, h: Home, env: Environment)
    requires PlainNames(b) && ParamRead(k).Reads? && !StarOffends(k, b) && !Offends(k, b, h)
    requires WholeSupplied(k, b, wb, h, env)
    ensures WholeValue(RewiredKey(b, wb, k), env) == WholeValue(k, Composed(env, b, wb, h))
  {
    var f, n := ParamRead(k).form, ParamRead(k).name;
    BaseLeads(k, b, wb);
    ArrayThrough(f, n, b, wb, h, env);
    ReadExact(KeyOf(f, n), f, n);
    ReadExact(KeyOf(f, LedBy(b, n)), f, LedBy(b, n));
    if !ReadsArray(env, KeyOf(f, LedBy(b, n))) {
      NotArraySupplied(k, b, wb, h, env);
      KeyMeaning(k, b, wb, h, env);
    }
  }

  lemma NotArraySupplied(k: string, b: map<string, string>, wb: map<string, string>, h: Home, env: Environment)
    requires PlainNames(b) && ParamRead(k).Reads? && WholeSupplied(k, b, wb, h, env)
    requires !ReadsArray(env, KeyOf(ParamRead(k).form, LedBy(b, ParamRead(k).name)))
    ensures KeySupplied(k, b, wb, h, env)
  {
    if Starred(k) {
      StarredStays(k, b, wb);
    } else {
      TextSupplied(ParamRead(k).form, ParamRead(k).name, b, env);
    }
  }

  lemma TextSupplied(f: Form, n: string, b: map<string, string>, env: Environment)
    requires IsParam(f) && (n in b ==> b[n] in env.params) && !ReadsArray(env, KeyOf(f, LedBy(b, n)))
    ensures n in b ==> b[n] in Texts(env.params)
  {
    ReadExact(KeyOf(f, LedBy(b, n)), f, LedBy(b, n));
  }

  /** A reference that is not to a param is not led to an array either. */
  lemma OtherMeaning(k: string, b: map<string, string>, wb: map<string, string>, h: Home, env: Environment)
    requires PlainNames(b) && ParamRead(k).Other? && KeySupplied(k, b, wb, h, env) && !Offends(k, b, h)
    ensures WholeValue(RewiredKey(b, wb, k), env) == WholeValue(k, Composed(env, b, wb, h))
  {
    OtherKeeps(k, b, wb);
    KeyMeaning(k, b, wb, h, env);
  }

  lemma OtherKeeps(k: string, b: map<string, string>, wb: map<string, string>)
    requires PlainNames(b) && ParamRead(k).Other?
    ensures ParamRead(RewiredKey(b, wb, k)).Other?
  {
    if Starred(k) {
      StarredStays(k, b, wb);
    } else {
      UnstarredStays(k, b, wb);
      if Read(k).Reads? {
        var f, n := Read(k).form, LedBy(Applied(Read(k).form, b, wb), Read(k).name);
        ReadExact(KeyOf(f, n), f, n);
      }
    }
  }

  /** Rewriting keeps the meaning of an argument, arrays included. */
  lemma ArgMeaningPreserved(t: string, b: map<string, string>, wb: map<string, string>, h: Home, env: Environment)
    requires PlainNames(b) && CleanNames(b) && CleanNames(wb) && PlainEnvironment(env)
    requires ArgSupplied(t, b, wb, h, env) && ArgSafe(t, b, h)
    ensures SameArg(t, b, wb, h, env)
  {
    ComposedPlain(env, b, wb, h);
    WholeStays(t, b, wb);
    if IsWhole(t) {
      var k := HeadRef(t).value;
      HeadRefClean(t);
      EvalOfRef(k, map[]);
      assert k in References(t);
      RewriteOfRef(k, b, wb);
      WholeArg(RewiredKey(b, wb, k), env);
      WholeArg(k, Composed(env, b, wb, h));
      if ParamRead(k).Reads? {
        ParamMeaning(k, b, wb, h, env);
      } else {
        OtherMeaning(k, b, wb, h, env);
      }
    } else {
      PartArg(t, Composed(env, b, wb, h));
      PartArg(Rewrite(t, b, wb), env);
      MeaningPreserved(t, b, wb, h, env);
    }
  }

  /** The meaning of an argument is kept for all values a TaskRun can supply. */
  ghost predicate KeepsArg(t: string, b: map<string, string>, wb: map<string, string>, h: Home) {
    forall env: Environment :: PlainEnvironment(env) && ArgSupplied(t, b, wb, h, env) ==> SameArg(t, b, wb, h, env)
  }

  lemma TextArg(t: string, env: Environment)
    requires forall n :: n in env.params ==> env.params[n].One?
    ensures ArgValue(t, env) == [Eval(t, RunTable(env))]
  {
    forall j ensures j !in ArrayTable(env) {
      ArrayTableExact(env, j);
    }
  }

  lemma OffenceChangesArg(t: string, b: map<string, string>, wb: map<string, string>, h: Home, k: string)
    returns (env: Environment)
    requires PlainNames(b) && CleanNames(b) && CleanNames(wb) && Speaks(h) && k in References(t) && Offends(k, b, h)
    ensures PlainEnvironment(env) && ArgSupplied(t, b, wb, h, env) && !SameArg(t, b, wb, h, env)
  {
    env := OffenceChangesMeaning(t, b, wb, h, k);
    assert forall n :: n in b.Values ==> exists m :: m in b && b[m] == n;
    TextArg(Rewrite(t, b, wb), env);
    assert forall n :: n in Composed(env, b, wb, h).params ==> LedBy(b, n) in env.params;
    TextArg(t, Composed(env, b, wb, h));
    if IsWhole(t) {
      WholeReferred(t);
    }
  }

  lemma WholeReferred(t: string)
    requires IsWhole(t)
    ensures IsClean(HeadRef(t).value) && References(t) == {HeadRef(t).value}
  {
    HeadRefClean(t);
    EvalOfRef(HeadRef(t).value, map[]);
  }

  /** Arrays that tell a param from the one it is bound to. */
  function TellingArrays(b: map<string, string>, n: string): Environment
    requires n in b
  {
    Environment((map m | m in b.Values :: One(""))[n := Many([])][b[n] := Many(["1"])],
                map[], map[], map[], map[], map[], map[])
  }

  lemma TellingArraysTell(b: map<string, string>, wb: map<string, string>, h: Home, n: string)
    requires PlainNames(b) && n in b && b[n] != n
    ensures var env := TellingArrays(b, n);
      && PlainEnvironment(env) && (forall m :: m in b ==> b[m] in env.params)
      && n in env.params && env.params[n] == Many([])
      && n in Composed(env, b, wb, h).params && Composed(env, b, wb, h).params[n] == Many(["1"])
  {
    var env := TellingArrays(b, n);
    assert forall m :: m in b.Values ==> exists l :: l in b && b[l] == m;
    assert forall m :: m in b ==> b[m] in b.Values;
    NameMeaning(env.params, b, n);
  }

  lemma StarChangesArg(t: string, b: map<string, string>, wb: map<string, string>, h: Home) returns (env: Environment)
    requires PlainNames(b) && CleanNames(b) && CleanNames(wb) && IsWhole(t) && StarOffends(HeadRef(t).value, b)
    ensures PlainEnvironment(env) && ArgSupplied(t, b, wb, h, env) && !SameArg(t, b, wb, h, env)
  {
    var k := HeadRef(t).value;
    var f, n := ParamRead(k).form, ParamRead(k).name;
    env := TellingArrays(b, n);
    TellingArraysTell(b, wb, h, n);
    ComposedPlain(env, b, wb, h);
    WholeReferred(t);
    StarredStays(k, b, wb);
    RewriteOfRef(k, b, wb);
    WholeArg(k, env);
    WholeArg(k, Composed(env, b, wb, h));
    assert WholeValue(k, env) == [] && WholeValue(k, Composed(env, b, wb, h)) == ["1"];
  }

  /** The meaning of an argument is kept exactly if it holds no offending reference, as for texts, and is
      no starred reference to a rebound param. */
  lemma ArgMeaningKeptExactly(t: string, b: map<string, string>, wb: map<string, string>, h: Home)
    requires PlainNames(b) && CleanNames(b) && CleanNames(wb) && Speaks(h)
    ensures KeepsArg(t, b, wb, h) <==> ArgSafe(t, b, h)
  {
    if ArgSafe(t, b, h) {
      forall env: Environment | PlainEnvironment(env) &&
          ArgSupplied(t, b, wb, h, env) ensures SameArg(t, b, wb, h, env) {
        ArgMeaningPreserved(t, b, wb, h, env);
      }
    } else if k :| k in References(t) && Offends(k, b, h) {
      var env := OffenceChangesArg(t, b, wb, h, k);
    } else {
      var env := StarChangesArg(t, b, wb, h);
    }
  }

  /** A starred reference to a param that is bound to another one comes out as it went in. */
  lemma StarredReferenceKept(k: string, b: map<string, string>, wb: map<string, string>)
    requires PlainNames(b) && CleanNames(b) && CleanNames(wb) && IsClean(k) && Starred(k)
    ensures Rewrite(Ref(k), b, wb) == Ref(k)
  {
    StarredStays(k, b, wb);
    RewriteOfRef(k, b, wb);
  }
}
