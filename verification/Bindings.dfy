/** The references a binding rewrites (`replaceParams`, `replaceWorkspaces`) and the values they get
    when the TaskRun is executed. */
module Bindings {
  import opened Text
  import opened Substitution

  /** The ways a text can refer to a param, a workspace or a step.  The replacement tables do not hold
      `Legacy`, which is `inputs.params.x`, and `ExitCode`, the exit code of a step; Tekton resolves
      both. */
  datatype Form = Dot | Single | Double | Legacy | Path | Bound | Claim | Volume | ExitCode

  const PARAM_FORMS: set<Form> := {Dot, Single, Double}
  const WORKSPACE_FORMS: set<Form> := {Path, Bound, Claim, Volume}

  predicate IsParam(f: Form) {
    f.Dot? || f.Single? || f.Double? || f.Legacy?
  }

  function Prefix(f: Form): string {
    match f
    case Dot => "params."
    case Single => "params['"
    case Double => "params[\""
    case Legacy => "inputs.params."
    case ExitCode => "steps."
    case _ => "workspaces."
  }

  function Suffix(f: Form): string {
    match f
    case Dot => ""
    case Single => "']"
    case Double => "\"]"
    case Legacy => ""
    case Path => ".path"
    case Bound => ".bound"
    case Claim => ".claim"
    case Volume => ".volume"
    case ExitCode => ".exitCode.path"
  }

  function KeyOf(f: Form, name: string): string {
    Prefix(f) + name + Suffix(f)
  }

  /** What a key refers to: a form and a name, or nothing a binding is about. */
  datatype Reading = Reads(form: Form, name: string) | Other

  predicate Matches(f: Form, k: string) {
    && |Prefix(f)| + |Suffix(f)| <= |k|
    && k[..|Prefix(f)|] == Prefix(f)
    && k[|k| - |Suffix(f)|..] == Suffix(f)
  }

  ghost function Read(k: string): Reading {
    if f :| Matches(f, k) then Reads(f, k[|Prefix(f)|..|k| - |Suffix(f)|]) else Other
  }

  lemma KeyMatches(f: Form, name: string)
    ensures Matches(f, KeyOf(f, name))
    ensures KeyOf(f, name)[|Prefix(f)|..|KeyOf(f, name)| - |Suffix(f)|] == name
  {
  }

  lemma MatchIsKey(f: Form, k: string)
    requires Matches(f, k)
    ensures k == KeyOf(f, k[|Prefix(f)|..|k| - |Suffix(f)|])
  {
    var name := k[|Prefix(f)|..|k| - |Suffix(f)|];
    assert k == k[..|Prefix(f)|] + name + k[|k| - |Suffix(f)|..];
  }

  /** The character that tells a form apart from the others: at a fixed place for a param form and for a
      step, at the end of the key for a workspace form. */
  lemma OneForm(f: Form, g: Form, k: string)
    requires Matches(f, k) && Matches(g, k)
    ensures f == g
  {
    assert k[0] == Prefix(f)[0] == Prefix(g)[0];
    if IsParam(f) {
      if f.Legacy? || g.Legacy? {
      } else {
        assert k[6] == Prefix(f)[6] == Prefix(g)[6];
        if k[6] == '[' {
          assert k[7] == Prefix(f)[7] == Prefix(g)[7];
        }
      }
    } else {
      assert k[|k| - 1] == Suffix(f)[|Suffix(f)| - 1] == Suffix(g)[|Suffix(g)| - 1];
    }
  }

  /** Keys read back to the form and the name they were built from, and nothing else does. */
  lemma ReadExact(k: string, f: Form, name: string)
    ensures Read(k) == Reads(f, name) <==> k == KeyOf(f, name)
  {
    if k == KeyOf(f, name) {
      KeyMatches(f, name);
      forall g | Matches(g, k) ensures g == f { OneForm(f, g, k); }
    }
    if Read(k) == Reads(f, name) {
      MatchIsKey(f, k);
    }
  }

  lemma KeyInjective(f: Form, name: string, g: Form, name': string)
    requires KeyOf(f, name) == KeyOf(g, name')
    ensures f == g && name == name'
  {
    ReadExact(KeyOf(f, name), f, name);
    ReadExact(KeyOf(f, name), g, name');
  }

  lemma KeyClean(f: Form, name: string)
    requires IsClean(name)
    ensures IsClean(KeyOf(f, name))
  {
    var p, q := Prefix(f), Suffix(f);
    assert IsClean(p) && IsClean(q);
    CleanJoin(p, name);
    CleanJoin(p + name, q);
  }

  lemma CleanJoin(s: string, t: string)
    requires IsClean(s) && IsClean(t)
    ensures IsClean(s + t)
  {
  }

  /** Names that cannot be confused with reference syntax, on both sides of every binding. */
  ghost predicate CleanNames(b: map<string, string>) {
    forall n {:trigger b[n]} :: n in b ==> IsClean(n) && IsClean(b[n])
  }

  // ---- The replacement tables ----

  ghost function KeysFor(forms: set<Form>, names: set<string>): set<string> {
    set f, n | f in forms && n in names :: KeyOf(f, n)
  }

  ghost function RenamedKey(b: map<string, string>, k: string): string {
    match Read(k)
    case Reads(f, n) => KeyOf(f, LedBy(b, n))
    case Other => k
  }

  /** The renaming of keys that a binding of names means for references of the given forms. */
  ghost function Renaming(forms: set<Form>, b: map<string, string>): map<string, string> {
    map k | k in KeysFor(forms, b.Keys) :: RenamedKey(b, k)
  }

  lemma KeysForExact(forms: set<Form>, names: set<string>, k: string)
    ensures k in KeysFor(forms, names) <==> Read(k).Reads? && Read(k).form in forms && Read(k).name in names
  {
    if k in KeysFor(forms, names) {
      var f, n :| f in forms && n in names && k == KeyOf(f, n);
      ReadExact(k, f, n);
    } else if Read(k).Reads? {
      ReadExact(k, Read(k).form, Read(k).name);
    }
  }

  lemma RenamingLeads(forms: set<Form>, b: map<string, string>, k: string)
    ensures LedBy(Renaming(forms, b), k)
         == if Read(k).Reads? && Read(k).form in forms then KeyOf(Read(k).form, LedBy(b, Read(k).name)) else k
  {
    KeysForExact(forms, b.Keys, k);
    if Read(k).Reads? {
      ReadExact(k, Read(k).form, Read(k).name);
    }
  }

  lemma RenamingIsClean(forms: set<Form>, b: map<string, string>)
    requires CleanNames(b)
    ensures IsRenaming(Renaming(forms, b))
  {
    var ren := Renaming(forms, b);
    forall k {:trigger ren[k]} | k in ren ensures IsClean(k) && IsClean(ren[k]) {
      KeysForExact(forms, b.Keys, k);
      var f, n := Read(k).form, Read(k).name;
      ReadExact(k, f, n);
      KeyClean(f, n);
      KeyClean(f, b[n]);
    }
  }

  /** The entries made for the given names. */
  ghost function Entries(forms: set<Form>, b: map<string, string>, names: set<string>): map<string, string> {
    map k | k in KeysFor(forms, names) :: Ref(RenamedKey(b, k))
  }

  lemma AllEntries(forms: set<Form>, b: map<string, string>)
    ensures Entries(forms, b, b.Keys) == RefTable(Renaming(forms, b))
  {
  }

  lemma EntriesGrow(forms: set<Form>, b: map<string, string>, done: set<string>, n: string)
    requires n !in done
    ensures Entries(forms, b, done) + Entries(forms, b, {n}) == Entries(forms, b, done + {n})
  {
    KeysSplit(forms, done, n);
  }

  /** `replaceParams`: three entries for each bound param, in whatever order the bindings come. */
  method ParamTable(b: map<string, string>) returns (r: map<string, string>)
    ensures r == RefTable(Renaming(PARAM_FORMS, b)) && |r| == 3 * |b|
  {
    r := map[];
    var todo := b.Keys;
    NoEntries(PARAM_FORMS, b);
    while todo != {}
      invariant todo <= b.Keys
      invariant r == Entries(PARAM_FORMS, b, b.Keys - todo)
      decreases todo
    {
      var name :| name in todo;
      ParamEntries(b, name);
      EntriesGrow(PARAM_FORMS, b, b.Keys - todo, name);
      var target := b[name];
      r := r + map[KeyOf(Dot, name) := Ref(KeyOf(Dot, target)),
                   KeyOf(Single, name) := Ref(KeyOf(Single, target)),
                   KeyOf(Double, name) := Ref(KeyOf(Double, target))];
      assert b.Keys - todo + {name} == b.Keys - (todo - {name});
      todo := todo - {name};
    }
    assert b.Keys - todo == b.Keys;
    AllParams(b);
  }

  lemma NoEntries(forms: set<Form>, b: map<string, string>)
    ensures KeysFor(forms, {}) == {}
    ensures Entries(forms, b, b.Keys - b.Keys) == map[]
  {
    assert b.Keys - b.Keys == {};
  }

  lemma EntryOf(forms: set<Form>, b: map<string, string>, f: Form, n: string)
    requires f in forms && n in b
    ensures KeyOf(f, n) in KeysFor(forms, {n}) && RenamedKey(b, KeyOf(f, n)) == KeyOf(f, b[n])
  {
    ReadExact(KeyOf(f, n), f, n);
  }

  lemma AllParams(b: map<string, string>)
    ensures Entries(PARAM_FORMS, b, b.Keys) == RefTable(Renaming(PARAM_FORMS, b))
    ensures |RefTable(Renaming(PARAM_FORMS, b))| == 3 * |b|
  {
    AllEntries(PARAM_FORMS, b);
    TableSize(PARAM_FORMS, b);
    assert |PARAM_FORMS| == 3;
  }

  lemma ParamEntries(b: map<string, string>, n: string)
    requires n in b
    ensures Entries(PARAM_FORMS, b, {n}) == map[KeyOf(Dot, n) := Ref(KeyOf(Dot, b[n])),
                                                KeyOf(Single, n) := Ref(KeyOf(Single, b[n])),
                                                KeyOf(Double, n) := Ref(KeyOf(Double, b[n]))]
  {
    EntryOf(PARAM_FORMS, b, Dot, n);
    EntryOf(PARAM_FORMS, b, Single, n);
    EntryOf(PARAM_FORMS, b, Double, n);
  }

  /** `replaceWorkspaces`: four entries for each bound workspace. */
  method WorkspaceTable(b: map<string, string>) returns (r: map<string, string>)
    ensures r == RefTable(Renaming(WORKSPACE_FORMS, b)) && |r| == 4 * |b|
  {
    r := map[];
    var todo := b.Keys;
    NoEntries(WORKSPACE_FORMS, b);
    while todo != {}
      invariant todo <= b.Keys
      invariant r == Entries(WORKSPACE_FORMS, b, b.Keys - todo)
      decreases todo
    {
      var name :| name in todo;
      WorkspaceEntries(b, name);
      EntriesGrow(WORKSPACE_FORMS, b, b.Keys - todo, name);
      var target := b[name];
      r := r + map[KeyOf(Path, name) := Ref(KeyOf(Path, target)),
                   KeyOf(Bound, name) := Ref(KeyOf(Bound, target)),
                   KeyOf(Claim, name) := Ref(KeyOf(Claim, target)),
                   KeyOf(Volume, name) := Ref(KeyOf(Volume, target))];
      assert b.Keys - todo + {name} == b.Keys - (todo - {name});
      todo := todo - {name};
    }
    assert b.Keys - todo == b.Keys;
    AllWorkspaces(b);
  }

  lemma AllWorkspaces(b: map<string, string>)
    ensures Entries(WORKSPACE_FORMS, b, b.Keys) == RefTable(Renaming(WORKSPACE_FORMS, b))
    ensures |RefTable(Renaming(WORKSPACE_FORMS, b))| == 4 * |b|
  {
    AllEntries(WORKSPACE_FORMS, b);
    TableSize(WORKSPACE_FORMS, b);
    assert |WORKSPACE_FORMS| == 4;
  }

  lemma WorkspaceEntries(b: map<string, string>, n: string)
    requires n in b
    ensures Entries(WORKSPACE_FORMS, b, {n}) == map[KeyOf(Path, n) := Ref(KeyOf(Path, b[n])),
                                                    KeyOf(Bound, n) := Ref(KeyOf(Bound, b[n])),
                                                    KeyOf(Claim, n) := Ref(KeyOf(Claim, b[n])),
                                                    KeyOf(Volume, n) := Ref(KeyOf(Volume, b[n]))]
  {
    EntryOf(WORKSPACE_FORMS, b, Path, n);
    EntryOf(WORKSPACE_FORMS, b, Bound, n);
    EntryOf(WORKSPACE_FORMS, b, Claim, n);
    EntryOf(WORKSPACE_FORMS, b, Volume, n);
  }

  /** No two names and no two forms share an entry. */
  lemma {:induction false} KeyCount(forms: set<Form>, names: set<string>)
    ensures |KeysFor(forms, names)| == |forms| * |names|
  {
    if names == {} {
      NoEntries(forms, map[]);
    } else {
      var n :| n in names;
      KeyCount(forms, names - {n});
      OneMoreName(forms, names, n);
    }
  }

  /** A table has exactly one entry for each form and each bound name. */
  lemma TableSize(forms: set<Form>, b: map<string, string>)
    ensures |RefTable(Renaming(forms, b))| == |forms| * |b|
  {
    var r := RefTable(Renaming(forms, b));
    KeyCount(forms, b.Keys);
    assert r.Keys == KeysFor(forms, b.Keys);
    assert |r| == |r.Keys| && |b| == |b.Keys|;
  }

  lemma OneMoreName(forms: set<Form>, names: set<string>, n: string)
    requires n in names && |KeysFor(forms, names - {n})| == |forms| * |names - {n}|
    ensures |KeysFor(forms, names)| == |forms| * |names|
  {
    var rest := names - {n};
    var all, before, added := KeysFor(forms, names), KeysFor(forms, rest), KeysFor(forms, {n});
    assert |added| == |forms| by { EntriesOf(forms, n); }
    assert all == before + added && before !! added by {
      KeysSplit(forms, rest, n);
      assert rest + {n} == names;
    }
    SizeStep(all, before, added, |forms|, |rest|);
  }

  lemma SizeStep(all: set<string>, before: set<string>, added: set<string>, m: nat, n: nat)
    requires all == before + added && before !! added
    requires |before| == m * n && |added| == m
    ensures |all| == m * (n + 1)
  {
  }

  lemma {:induction false} EntriesOf(forms: set<Form>, n: string)
    ensures |KeysFor(forms, {n})| == |forms|
  {
    if forms == {} {
      assert KeysFor(forms, {n}) == {};
    } else {
      var f :| f in forms;
      EntriesOf(forms - {f}, n);
      ReadExact(KeyOf(f, n), f, n);
      KeysForExact(forms - {f}, {n}, KeyOf(f, n));
      assert KeysFor(forms, {n}) == KeysFor(forms - {f}, {n}) + {KeyOf(f, n)};
    }
  }

  lemma KeysSplit(forms: set<Form>, rest: set<string>, n: string)
    requires n !in rest
    ensures KeysFor(forms, rest + {n}) == KeysFor(forms, rest) + KeysFor(forms, {n})
    ensures KeysFor(forms, rest) !! KeysFor(forms, {n})
  {
    forall k ensures k in KeysFor(forms, rest + {n}) <==> k in KeysFor(forms, rest) || k in KeysFor(forms, {n})
      ensures !(k in KeysFor(forms, rest) && k in KeysFor(forms, {n}))
    {
      KeysForExact(forms, rest + {n}, k);
      KeysForExact(forms, rest, k);
      KeysForExact(forms, {n}, k);
    }
  }
}
