/** What rewriting a used step's text through its bindings means: the text is evaluated, when the
    TaskRun executes, as if the params and workspaces of the used Task had the values of the ones
    they are bound to. */
module Meaning {
  import opened Text
  import opened Substitution
  import opened Bindings

  // ---- The two passes as one renaming ----

  /** One text of a used step after the param pass and the workspace pass. */
  ghost function Rewrite(t: string, b: map<string, string>, wb: map<string, string>): string {
    Eval(Eval(t, RefTable(Renaming(PARAM_FORMS, b))), RefTable(Renaming(WORKSPACE_FORMS, wb)))
  }

  /** The binding the tables apply to references of a form; none for the legacy form. */
  ghost function Applied(f: Form, b: map<string, string>, wb: map<string, string>): map<string, string> {
    if f in PARAM_FORMS then b else if f in WORKSPACE_FORMS then wb else map[]
  }

  ghost function RewiredKey(b: map<string, string>, wb: map<string, string>, k: string): string {
    match Read(k)
    case Reads(f, n) => KeyOf(f, LedBy(Applied(f, b, wb), n))
    case Other => k
  }

  ghost function Rewiring(b: map<string, string>, wb: map<string, string>): map<string, string> {
    map k | k in KeysFor(PARAM_FORMS, b.Keys) + KeysFor(WORKSPACE_FORMS, wb.Keys) :: RewiredKey(b, wb, k)
  }

  lemma RewiringLeads(b: map<string, string>, wb: map<string, string>, k: string)
    ensures LedBy(Rewiring(b, wb), k) == RewiredKey(b, wb, k)
  {
    KeysForExact(PARAM_FORMS, b.Keys, k);
    KeysForExact(WORKSPACE_FORMS, wb.Keys, k);
    if Read(k).Reads? {
      ReadExact(k, Read(k).form, Read(k).name);
    }
  }

  /** After a renaming of the names of one form, the other forms are as they were. */
  lemma LedElsewhere(forms: set<Form>, b: map<string, string>, f: Form, n: string)
    ensures LedBy(Renaming(forms, b), KeyOf(f, n)) == KeyOf(f, if f in forms then LedBy(b, n) else n)
  {
    RenamingLeads(forms, b, KeyOf(f, n));
    ReadExact(KeyOf(f, n), f, n);
  }

  lemma PassesLead(b: map<string, string>, wb: map<string, string>, k: string)
    ensures LedBy(Renaming(WORKSPACE_FORMS, wb), LedBy(Renaming(PARAM_FORMS, b), k)) == RewiredKey(b, wb, k)
    ensures LedBy(Renaming(PARAM_FORMS, b), LedBy(Renaming(WORKSPACE_FORMS, wb), k)) == RewiredKey(b, wb, k)
  {
    if Read(k).Reads? {
      var f, n := Read(k).form, Read(k).name;
      ReadExact(k, f, n);
      LedElsewhere(PARAM_FORMS, b, f, n);
      LedElsewhere(WORKSPACE_FORMS, wb, f, n);
      LedElsewhere(WORKSPACE_FORMS, wb, f, LedBy(b, n));
      LedElsewhere(PARAM_FORMS, b, f, LedBy(wb, n));
    } else {
      RenamingLeads(PARAM_FORMS, b, k);
      RenamingLeads(WORKSPACE_FORMS, wb, k);
    }
  }

  lemma RewiringIsClean(b: map<string, string>, wb: map<string, string>)
    requires CleanNames(b) && CleanNames(wb)
    ensures IsRenaming(Rewiring(b, wb))
  {
    var ren := Rewiring(b, wb);
    forall k {:trigger ren[k]} | k in ren ensures IsClean(k) && IsClean(ren[k]) {
      KeysForExact(PARAM_FORMS, b.Keys, k);
      KeysForExact(WORKSPACE_FORMS, wb.Keys, k);
      var f, n := Read(k).form, Read(k).name;
      ReadExact(k, f, n);
      var names := Applied(f, b, wb);
      assert n in names && IsClean(names[n]);
      KeyClean(f, n);
      KeyClean(f, names[n]);
    }
  }

  /** Neither pass makes or breaks a match of the other: their order does not matter and together
      they rename every reference once. */
  lemma PassesCommute(t: string, b: map<string, string>, wb: map<string, string>)
    requires CleanNames(b) && CleanNames(wb)
    ensures Rewrite(t, b, wb) == Eval(t, RefTable(Rewiring(b, wb)))
    ensures Rewrite(t, b, wb) ==
            Eval(Eval(t, RefTable(Renaming(WORKSPACE_FORMS, wb))), RefTable(Renaming(PARAM_FORMS, b)))
  {
    var P, W := Renaming(PARAM_FORMS, b), Renaming(WORKSPACE_FORMS, wb);
    RenamingIsClean(PARAM_FORMS, b);
    RenamingIsClean(WORKSPACE_FORMS, wb);
    var c := RefTable(Rewiring(b, wb));
    forall k | k in References(t)
      ensures Lookup(c, k) == Lookup(RefTable(W), LedBy(P, k)) == Lookup(RefTable(P), LedBy(W, k))
    {
      PassesLead(b, wb, k);
      RewiringLeads(b, wb, k);
      LookupRefTable(Rewiring(b, wb), k);
      LookupRefTable(W, LedBy(P, k));
      LookupRefTable(P, LedBy(W, k));
    }
    EvalRenamed(t, P, RefTable(W), c);
    EvalRenamed(t, W, RefTable(P), c);
  }

  // ---- Values at run time ----

  /** A param is a text or an array of texts. */
  datatype Value = One(text: string) | Many(items: seq<string>)

  /** The values a TaskRun gives to its params, its workspaces and its steps (by their containers), and to
      the other references that it resolves. */
  datatype Environment = Environment(params: map<string, Value>, paths: map<string, string>,
                                     bounds: map<string, string>, claims: map<string, string>,
                                     volumes: map<string, string>, steps: map<string, string>,
                                     others: map<string, string>)

  /** What a used Task means by its own things: by the container of one of its steps, the container that
      the step has in the TaskRun, and by other references, what they give in a TaskRun of the Task. */
  datatype Home = Home(steps: map<string, string>, others: map<string, string>)

  function Texts(values: map<string, Value>): map<string, string> {
    map n | n in values && values[n].One? :: values[n].text
  }

  function ValuesFor(env: Environment, f: Form): map<string, string> {
    match f
    case Path => env.paths
    case Bound => env.bounds
    case Claim => env.claims
    case Volume => env.volumes
    case ExitCode => env.steps
    case _ => Texts(env.params)
  }

  ghost function ValueOf(env: Environment, k: string): string {
    match Read(k)
    case Reads(f, n) => if n in ValuesFor(env, f) then ValuesFor(env, f)[n] else Ref(k)
    case Other => Lookup(env.others, k)
  }

  ghost function FormKeys(env: Environment): set<string> {
    set f: Form, n | n in ValuesFor(env, f) :: KeyOf(f, n)
  }

  ghost function OtherKeys(env: Environment): set<string> {
    set k | k in env.others && Read(k).Other?
  }

  /** The table Tekton fills for a TaskRun: every form of every name that has a text as its value. */
  ghost function RunTable(env: Environment): map<string, string> {
    map k | k in FormKeys(env) + OtherKeys(env) :: ValueOf(env, k)
  }

  lemma RunLookup(env: Environment, k: string)
    ensures Lookup(RunTable(env), k) == ValueOf(env, k)
  {
    if k !in FormKeys(env) && Read(k).Reads? {
      ReadExact(k, Read(k).form, Read(k).name);
    }
  }

  /** The values as the used Task sees them: a bound name has the value of its target. */
  function Through<V>(values: map<string, V>, b: map<string, string>): map<string, V> {
    map n | n in values.Keys + b.Keys && LedBy(b, n) in values :: values[LedBy(b, n)]
  }

  function Composed(env: Environment, b: map<string, string>, wb: map<string, string>, h: Home): Environment {
    Environment(Through(env.params, b), Through(env.paths, wb), Through(env.bounds, wb),
                Through(env.claims, wb), Through(env.volumes, wb), Through(env.steps, h.steps), env.others + h.others)
  }

  /** The binding a form is about, whether or not the tables apply it. */
  ghost function Meant(f: Form, b: map<string, string>, wb: map<string, string>, h: Home): map<string, string> {
    if IsParam(f) then b else if f.ExitCode? then h.steps else wb
  }

  /** Every bound name the text refers to is bound to something that has a text as its value. */
  ghost predicate Supplied(t: string, b: map<string, string>, wb: map<string, string>, h: Home, env: Environment) {
    forall k :: k in References(t) ==> KeySupplied(k, b, wb, h, env)
  }

  ghost predicate KeySupplied(k: string, b: map<string, string>, wb: map<string, string>, h: Home, env: Environment) {
    match Read(k)
    case Reads(f, n) => n in Meant(f, b, wb, h) ==> Meant(f, b, wb, h)[n] in ValuesFor(env, f)
    case Other => true
  }

  /** A legacy reference to a param that is bound to another one. */
  ghost predicate LegacyOffends(k: string, b: map<string, string>) {
    match Read(k)
    case Reads(f, n) => f.Legacy? && LedBy(b, n) != n
    case Other => false
  }

  /** A reference to the exit code of a step of the used Task whose container has another name. */
  ghost predicate StepOffends(k: string, h: Home) {
    match Read(k)
    case Reads(f, n) => f.ExitCode? && LedBy(h.steps, n) != n
    case Other => false
  }

  /** A reference that means something else in the TaskRun and that rewriting leaves alone. */
  ghost predicate Offends(k: string, b: map<string, string>, h: Home) {
    LegacyOffends(k, b) || StepOffends(k, h) || (Read(k).Other? && k in h.others)
  }

  lemma ValueOfKey(env: Environment, f: Form, n: string)
    ensures ValueOf(env, KeyOf(f, n)) == if n in ValuesFor(env, f) then ValuesFor(env, f)[n] else Ref(KeyOf(f, n))
  {
    ReadExact(KeyOf(f, n), f, n);
  }

  lemma TextsThrough(values: map<string, Value>, b: map<string, string>)
    ensures Texts(Through(values, b)) == Through(Texts(values), b)
  {
    var x, y := Texts(Through(values, b)), Through(Texts(values), b);
    assert forall n :: n in x <==> LedBy(b, n) in values && values[LedBy(b, n)].One?;
    assert forall n :: n in y <==> LedBy(b, n) in values && values[LedBy(b, n)].One?;
  }

  lemma ComposedValues(env: Environment, b: map<string, string>, wb: map<string, string>, h: Home, f: Form)
    ensures ValuesFor(Composed(env, b, wb, h), f) == Through(ValuesFor(env, f), Meant(f, b, wb, h))
  {
    TextsThrough(env.params, b);
  }

  lemma NameMeaning<V>(values: map<string, V>, b: map<string, string>, n: string)
    requires n in b ==> b[n] in values
    ensures n in Through(values, b) <==> LedBy(b, n) in values
    ensures n in Through(values, b) ==> Through(values, b)[n] == values[LedBy(b, n)]
    ensures n !in Through(values, b) ==> LedBy(b, n) == n
  {
  }

  lemma FormMeaning(f: Form, n: string, b: map<string, string>, wb: map<string, string>, h: Home, env: Environment)
    requires n in Meant(f, b, wb, h) ==> Meant(f, b, wb, h)[n] in ValuesFor(env, f)
    ensures ValueOf(Composed(env, b, wb, h), KeyOf(f, n)) == ValueOf(env, KeyOf(f, LedBy(Meant(f, b, wb, h), n)))
  {
    ComposedValues(env, b, wb, h, f);
    ValueThrough(env, Composed(env, b, wb, h), f, n, Meant(f, b, wb, h));
  }

  lemma ValueThrough(env: Environment, env': Environment, f: Form, n: string, names: map<string, string>)
    requires ValuesFor(env', f) == Through(ValuesFor(env, f), names)
    requires n in names ==> names[n] in ValuesFor(env, f)
    ensures ValueOf(env', KeyOf(f, n)) == ValueOf(env, KeyOf(f, LedBy(names, n)))
  {
    ValueOfKey(env', f, n);
    NameMeaning(ValuesFor(env, f), names, n);
    ValueOfKey(env, f, LedBy(names, n));
  }

  lemma KeyMeaning(k: string, b: map<string, string>, wb: map<string, string>, h: Home, env: Environment)
    requires KeySupplied(k, b, wb, h, env) && !Offends(k, b, h)
    ensures ValueOf(Composed(env, b, wb, h), k) == ValueOf(env, RewiredKey(b, wb, k))
  {
    if Read(k).Reads? {
      var f, n := Read(k).form, Read(k).name;
      ReadExact(k, f, n);
      assert k == KeyOf(f, n) && RewiredKey(b, wb, k) == KeyOf(f, LedBy(Applied(f, b, wb), n));
      AppliedAsMeant(f, n, b, wb, h);
      FormMeaning(f, n, b, wb, h, env);
    } else {
      assert RewiredKey(b, wb, k) == k;
    }
  }

  lemma AppliedAsMeant(f: Form, n: string, b: map<string, string>, wb: map<string, string>, h: Home)
    requires f.Legacy? ==> LedBy(b, n) == n
    requires f.ExitCode? ==> LedBy(h.steps, n) == n
    ensures LedBy(Meant(f, b, wb, h), n) == LedBy(Applied(f, b, wb), n)
  {
  }

  ghost predicate SameMeaning(t: string, b: map<string, string>, wb: map<string, string>, h: Home, env: Environment) {
    Eval(Rewrite(t, b, wb), RunTable(env)) == Eval(t, RunTable(Composed(env, b, wb, h)))
  }

  /** Rewriting keeps the meaning, for chained and swapped bindings as well. */
  lemma MeaningPreserved(t: string, b: map<string, string>, wb: map<string, string>, h: Home, env: Environment)
    requires CleanNames(b) && CleanNames(wb) && Supplied(t, b, wb, h, env)
    requires forall k :: k in References(t) ==> !Offends(k, b, h)
    ensures SameMeaning(t, b, wb, h, env)
  {
    PassesCommute(t, b, wb);
    RewiringIsClean(b, wb);
    forall k | k in References(t)
      ensures Lookup(RunTable(Composed(env, b, wb, h)), k) == Lookup(RunTable(env), LedBy(Rewiring(b, wb), k))
    {
      KeyLookups(k, b, wb, h, env);
    }
    EvalRenamed(t, Rewiring(b, wb), RunTable(env), RunTable(Composed(env, b, wb, h)));
  }

  lemma KeyLookups(k: string, b: map<string, string>, wb: map<string, string>, h: Home, env: Environment)
    requires KeySupplied(k, b, wb, h, env) && !Offends(k, b, h)
    ensures Lookup(RunTable(Composed(env, b, wb, h)), k) == Lookup(RunTable(env), LedBy(Rewiring(b, wb), k))
  {
    KeyMeaning(k, b, wb, h, env);
    RewiringLeads(b, wb, k);
    RunLookup(Composed(env, b, wb, h), k);
    RunLookup(env, RewiredKey(b, wb, k));
  }

  // ---- Exactly when the meaning is kept ----

  /** The meaning is kept for all values a TaskRun can supply. */
  ghost predicate KeepsMeaning(t: string, b: map<string, string>, wb: map<string, string>, h: Home) {
    forall env: Environment :: Supplied(t, b, wb, h, env) ==> SameMeaning(t, b, wb, h, env)
  }

  ghost predicate Offence(tok: Token, b: map<string, string>, h: Home) {
    tok.Key? && Offends(tok.key, b, h)
  }

  lemma {:induction false} FirstOffence(toks: seq<Token>, b: map<string, string>, h: Home) returns (i: nat)
    requires exists j :: 0 <= j < |toks| && Offence(toks[j], b, h)
    ensures i < |toks| && Offence(toks[i], b, h)
    ensures forall j :: 0 <= j < i ==> !Offence(toks[j], b, h)
  {
    if Offence(toks[0], b, h) {
      i := 0;
    } else {
      i := FirstOffence(toks[1..], b, h);
      i := i + 1;
    }
  }

  /** An offending reference is left as it is, and means what it says. */
  lemma OffenceStays(k: string, b: map<string, string>, wb: map<string, string>, h: Home)
    requires Offends(k, b, h)
    ensures RewiredKey(b, wb, k) == k
  {
    if Read(k).Reads? {
      ReadExact(k, Read(k).form, Read(k).name);
    }
  }

  /** The value that is meant and the value that comes out diverge at the first offending reference. */
  lemma OffenceAt(t: string, b: map<string, string>, wb: map<string, string>, h: Home, i: nat, env: Environment)
    requires CleanNames(b) && CleanNames(wb) && Supplied(t, b, wb, h, env)
    requires i < |Tokens(t)| && Offence(Tokens(t)[i], b, h)
    requires forall j :: 0 <= j < i ==> !Offence(Tokens(t)[j], b, h)
    requires Diverge(ValueOf(Composed(env, b, wb, h), Tokens(t)[i].key), ValueOf(env, Tokens(t)[i].key))
    ensures !SameMeaning(t, b, wb, h, env)
  {
    var toks, ren, r, c := Tokens(t), Rewiring(b, wb), RunTable(env), RunTable(Composed(env, b, wb, h));
    forall j | 0 <= j < i ensures Agrees(toks[j], ren, r, c) {
      if toks[j].Key? {
        assert toks[j].key in References(t);
        KeyLookups(toks[j].key, b, wb, h, env);
      }
    }
    OffenceLookups(toks[i].key, b, wb, h, env);
    PassesCommute(t, b, wb);
    RewiringIsClean(b, wb);
    TokensRenamed(t, ren);
    RendersDiffer(toks, ren, r, c, i);
  }

  lemma OffenceLookups(k: string, b: map<string, string>, wb: map<string, string>, h: Home, env: Environment)
    requires Offends(k, b, h)
    ensures Lookup(RunTable(Composed(env, b, wb, h)), k) == ValueOf(Composed(env, b, wb, h), k)
    ensures Lookup(RunTable(env), LedBy(Rewiring(b, wb), k)) == ValueOf(env, k)
  {
    OffenceStays(k, b, wb, h);
    RewiringLeads(b, wb, k);
    RunLookup(Composed(env, b, wb, h), k);
    RunLookup(env, k);
  }

  function Blank(names: map<string, string>): map<string, string> {
    map n | n in names.Values :: ""
  }

  /** Another text than the given one, from the first character on. */
  function Opposite(v: string): string {
    if v != "" && v[0] == '1' then "2" else "1"
  }

  /** Values that tell what an offending reference means from what it gives. */
  ghost function Telling(b: map<string, string>, wb: map<string, string>, h: Home, k: string): Environment {
    var blank := Environment(map n | n in b.Values :: One(""), Blank(wb), Blank(wb), Blank(wb), Blank(wb),
                             Blank(h.steps), map[]);
    match Read(k)
    case Reads(f, n) =>
      if f.Legacy? && n in b then blank.(params := blank.params[n := One("1")][b[n] := One("2")])
      else if f.ExitCode? && n in h.steps then blank.(steps := blank.steps[n := "1"][h.steps[n] := "2"])
      else blank
    case Other => blank.(others := map[k := if k in h.others then Opposite(h.others[k]) else ""])
  }

  ghost predicate HasTargets(b: map<string, string>, wb: map<string, string>, h: Home, env: Environment) {
    forall f: Form, n :: n in Meant(f, b, wb, h) ==> Meant(f, b, wb, h)[n] in ValuesFor(env, f)
  }

  lemma TargetsSupply(t: string, b: map<string, string>, wb: map<string, string>, h: Home, env: Environment)
    requires HasTargets(b, wb, h, env)
    ensures Supplied(t, b, wb, h, env)
  {
  }

  lemma TellingSupplies(t: string, b: map<string, string>, wb: map<string, string>, h: Home, k: string)
    ensures Supplied(t, b, wb, h, Telling(b, wb, h, k))
  {
    forall f: Form, n | n in Meant(f, b, wb, h) ensures Meant(f, b, wb, h)[n] in ValuesFor(Telling(b, wb, h, k), f) {
      TellingHas(b, wb, h, k, f, n);
    }
    TargetsSupply(t, b, wb, h, Telling(b, wb, h, k));
  }

  lemma TellingHas(b: map<string, string>, wb: map<string, string>, h: Home, k: string, f: Form, n: string)
    requires n in Meant(f, b, wb, h)
    ensures Meant(f, b, wb, h)[n] in ValuesFor(Telling(b, wb, h, k), f)
  {
    assert Meant(f, b, wb, h)[n] in Meant(f, b, wb, h).Values;
  }

  /** All params the bindings speak of are texts. */
  ghost predicate TellsTexts(b: map<string, string>, env: Environment) {
    && (forall n :: n in env.params ==> env.params[n].One? && (n in b || n in b.Values))
    && (forall n :: n in b ==> b[n] in env.params)
  }

  lemma TellingTexts(b: map<string, string>, wb: map<string, string>, h: Home, k: string)
    ensures TellsTexts(b, Telling(b, wb, h, k))
  {
    assert forall n :: n in b ==> b[n] in b.Values;
  }

  lemma TellingParam(b: map<string, string>, wb: map<string, string>, h: Home, n: string)
    requires n in b && b[n] != n
    ensures var env := Telling(b, wb, h, KeyOf(Legacy, n));
      && ValueOf(env, KeyOf(Legacy, n)) == "1"
      && ValueOf(Composed(env, b, wb, h), KeyOf(Legacy, n)) == "2"
  {
    var env := Telling(b, wb, h, KeyOf(Legacy, n));
    ReadExact(KeyOf(Legacy, n), Legacy, n);
    FormMeaning(Legacy, n, b, wb, h, env);
    ValueOfKey(env, Legacy, b[n]);
    ValueOfKey(env, Legacy, n);
  }

  lemma TellingStep(b: map<string, string>, wb: map<string, string>, h: Home, n: string)
    requires n in h.steps && h.steps[n] != n
    ensures var env := Telling(b, wb, h, KeyOf(ExitCode, n));
      && ValueOf(env, KeyOf(ExitCode, n)) == "1"
      && ValueOf(Composed(env, b, wb, h), KeyOf(ExitCode, n)) == "2"
  {
    var env := Telling(b, wb, h, KeyOf(ExitCode, n));
    ReadExact(KeyOf(ExitCode, n), ExitCode, n);
    FormMeaning(ExitCode, n, b, wb, h, env);
    ValueOfKey(env, ExitCode, h.steps[n]);
    ValueOfKey(env, ExitCode, n);
  }

  /** Where other references mean something, it is not the empty text. */
  ghost predicate Speaks(h: Home) {
    forall k :: k in h.others ==> h.others[k] != ""
  }

  lemma TellingTells(b: map<string, string>, wb: map<string, string>, h: Home, k: string)
    requires Offends(k, b, h) && Speaks(h)
    ensures Diverge(ValueOf(Composed(Telling(b, wb, h, k), b, wb, h), k), ValueOf(Telling(b, wb, h, k), k))
  {
    if Read(k).Reads? {
      var f, n := Read(k).form, Read(k).name;
      ReadExact(k, f, n);
      if f.Legacy? {
        TellingParam(b, wb, h, n);
      } else {
        TellingStep(b, wb, h, n);
      }
      assert "2"[0] != "1"[0];
    } else {
      var v := h.others[k];
      assert v[0] != Opposite(v)[0];
    }
  }

  lemma OffenceChangesMeaning(t: string, b: map<string, string>, wb: map<string, string>, h: Home, k: string)
    returns (env: Environment)
    requires CleanNames(b) && CleanNames(wb) && Speaks(h) && k in References(t) && Offends(k, b, h)
    ensures Supplied(t, b, wb, h, env) && !SameMeaning(t, b, wb, h, env) && TellsTexts(b, env)
  {
    assert Key(k) in Tokens(t) && Offence(Key(k), b, h);
    var i := FirstOffence(Tokens(t), b, h);
    var first := Tokens(t)[i].key;
    env := Telling(b, wb, h, first);
    TellingTexts(b, wb, h, first);
    TellingSupplies(t, b, wb, h, first);
    TellingTells(b, wb, h, first);
    OffenceAt(t, b, wb, h, i, env);
  }

  /** The meaning is kept exactly for the texts without a legacy reference to a rebound param, without a
      reference to the exit code of a step that got another name, and without other references that give
      something else. */
  lemma MeaningKeptExactly(t: string, b: map<string, string>, wb: map<string, string>, h: Home)
    requires CleanNames(b) && CleanNames(wb) && Speaks(h)
    ensures KeepsMeaning(t, b, wb, h) <==> forall k :: k in References(t) ==> !Offends(k, b, h)
  {
    if forall k :: k in References(t) ==> !Offends(k, b, h) {
      forall env: Environment | Supplied(t, b, wb, h, env) ensures SameMeaning(t, b, wb, h, env) {
        MeaningPreserved(t, b, wb, h, env);
      }
    } else {
      var k :| k in References(t) && Offends(k, b, h);
      var env := OffenceChangesMeaning(t, b, wb, h, k);
    }
  }

  // ---- Exit codes of steps ----

  /** The file with the exit code of the step in a container. */
  function ExitPath(container: string): string {
    "/tekton/steps/" + container + "/exitCode"
  }

  /** The values of steps are those files. */
  ghost predicate HasExitPaths(env: Environment) {
    forall c :: c in env.steps ==> env.steps[c] == ExitPath(c)
  }

  lemma NamesDiverge(a: string, b: string)
    requires a != b && '/' !in a && '/' !in b
    ensures exists i :: 0 <= i <= |a| && i <= |b| && (a + "/")[i] != (b + "/")[i]
  {
    if forall i :: 0 <= i < |a| && i < |b| ==> a[i] == b[i] {
      assert |a| == |b| ==> a == b;
      var i := if |a| < |b| then |a| else |b|;
      assert (a + "/")[i] != (b + "/")[i];
    } else {
      var i :| 0 <= i < |a| && i < |b| && a[i] != b[i];
      assert (a + "/")[i] != (b + "/")[i];
    }
  }

  lemma ExitPathsDiverge(a: string, b: string)
    requires a != b && '/' !in a && '/' !in b
    ensures Diverge(ExitPath(a), ExitPath(b))
  {
    NamesDiverge(a, b);
    var i :| 0 <= i <= |a| && i <= |b| && (a + "/")[i] != (b + "/")[i];
    var d := |"/tekton/steps/"|;
    assert ExitPath(a) == "/tekton/steps/" + (a + "/") + "exitCode";
    assert ExitPath(b) == "/tekton/steps/" + (b + "/") + "exitCode";
    assert ExitPath(a)[d + i] == (a + "/")[i] && ExitPath(b)[d + i] == (b + "/")[i];
  }

  lemma StepDiverges(k: string, b: map<string, string>, wb: map<string, string>, h: Home, env: Environment)
    requires StepOffends(k, h) && KeySupplied(k, b, wb, h, env) && HasExitPaths(env)
    requires '/' !in Read(k).name && '/' !in h.steps[Read(k).name]
    ensures Diverge(ValueOf(Composed(env, b, wb, h), k), ValueOf(env, k))
  {
    var n := Read(k).name;
    ReadExact(k, ExitCode, n);
    FormMeaning(ExitCode, n, b, wb, h, env);
    ValueOfKey(env, ExitCode, h.steps[n]);
    ValueOfKey(env, ExitCode, n);
    if n in env.steps {
      ExitPathsDiverge(h.steps[n], n);
    } else {
      assert ExitPath(h.steps[n])[0] == '/' != '$' == Ref(k)[0];
    }
  }

  /** With the files Tekton uses the meaning is not only lost for some values: a text with a reference to
      the exit code of a step that got another name, and no other offence, never keeps its meaning. */
  lemma ExitCodeAlwaysLost(t: string, b: map<string, string>, wb: map<string, string>, h: Home, env: Environment,
                           k: string)
    requires CleanNames(b) && CleanNames(wb) && Supplied(t, b, wb, h, env) && HasExitPaths(env)
    requires forall n :: n in h.steps ==> '/' !in n && '/' !in h.steps[n]
    requires forall l :: l in References(t) && Offends(l, b, h) ==> StepOffends(l, h)
    requires k in References(t) && StepOffends(k, h)
    ensures !SameMeaning(t, b, wb, h, env)
  {
    assert Key(k) in Tokens(t) && Offence(Key(k), b, h);
    var i := FirstOffence(Tokens(t), b, h);
    assert Tokens(t)[i].key in References(t);
    StepDiverges(Tokens(t)[i].key, b, wb, h, env);
    OffenceAt(t, b, wb, h, i, env);
  }

  // ---- What one pass is needed for ----

  /** Bindings of names without rebound targets are tables of keys without rebound targets. */
  lemma NamesSettleKeys(forms: set<Form>, b: map<string, string>, f: Form)
    requires f in forms
    ensures NoRebound(Renaming(forms, b)) <==> NoRebound(b)
  {
    var ren := Renaming(forms, b);
    if NoRebound(ren) {
      forall n ensures Settled(b, n) {
        if n in b && b[n] in b {
          assert Settled(ren, KeyOf(f, n));
          RenamedEntry(forms, b, f, n);
          RenamedEntry(forms, b, f, b[n]);
          KeyInjective(f, b[b[n]], f, b[n]);
        }
      }
    }
    if NoRebound(b) {
      forall k ensures Settled(ren, k) {
        if k in ren {
          KeysForExact(forms, b.Keys, k);
          var g, n := Read(k).form, Read(k).name;
          ReadExact(k, g, n);
          RenamedEntry(forms, b, g, n);
          assert Settled(b, n);
          if ren[k] in ren {
            KeysForExact(forms, b.Keys, ren[k]);
            ReadExact(ren[k], g, b[n]);
            RenamedEntry(forms, b, g, b[n]);
          }
        }
      }
    }
  }

  lemma RenamedEntry(forms: set<Form>, b: map<string, string>, f: Form, n: string)
    requires f in forms && n in b
    ensures KeyOf(f, n) in Renaming(forms, b) && Renaming(forms, b)[KeyOf(f, n)] == KeyOf(f, b[n])
  {
    ReadExact(KeyOf(f, n), f, n);
    KeysForExact(forms, b.Keys, KeyOf(f, n));
  }

  /** Entry-by-entry replacement would agree with the one-pass replacer, or at least not depend on
      the iteration order of the map, exactly when no bound name is the target of another binding
      that leads elsewhere. */
  lemma EntryByEntryExact(forms: set<Form>, b: map<string, string>, f: Form)
    requires f in forms && CleanNames(b)
    ensures NoRebound(b) <==> InTurnIsOnePass(Renaming(forms, b))
    ensures NoRebound(b) <==> InTurnIgnoresOrder(Renaming(forms, b))
  {
    RenamingIsClean(forms, b);
    NamesSettleKeys(forms, b, f);
    InTurnSafeExactly(Renaming(forms, b));
  }

  /** Swapped names: the one pass swaps them, some order of entry-by-entry replacement does not. */
  lemma SwapNeedsOnePass(b: map<string, string>, m: string, n: string) returns (order: seq<string>)
    requires CleanNames(b) && m in b && n in b && m != n && b[m] == n && b[n] == m
    ensures Eval(Ref(KeyOf(Dot, m)), RefTable(Renaming(PARAM_FORMS, b))) == Ref(KeyOf(Dot, n))
    ensures Enumerates(order, Renaming(PARAM_FORMS, b).Keys)
    ensures InTurn(Ref(KeyOf(Dot, m)), Renaming(PARAM_FORMS, b), order) == Ref(KeyOf(Dot, m))
  {
    var ren := Renaming(PARAM_FORMS, b);
    RenamingIsClean(PARAM_FORMS, b);
    RenamedEntry(PARAM_FORMS, b, Dot, m);
    RenamedEntry(PARAM_FORMS, b, Dot, n);
    if KeyOf(Dot, m) == KeyOf(Dot, n) {
      KeyInjective(Dot, m, Dot, n);
    }
    var before;
    before, order := ReboundWitness(ren, KeyOf(Dot, m));
  }

  // ---- References after rewriting ----

  lemma RewrittenReferences(t: string, b: map<string, string>, wb: map<string, string>)
    requires CleanNames(b) && CleanNames(wb)
    ensures References(Rewrite(t, b, wb)) == set k | k in References(t) :: RewiredKey(b, wb, k)
  {
    PassesCommute(t, b, wb);
    RewiringIsClean(b, wb);
    ReferencesRenamed(t, Rewiring(b, wb));
    assert forall k :: k in References(t) ==> LedBy(Rewiring(b, wb), k) == RewiredKey(b, wb, k) by {
      forall k | k in References(t) ensures LedBy(Rewiring(b, wb), k) == RewiredKey(b, wb, k) {
        RewiringLeads(b, wb, k);
      }
    }
  }
}
