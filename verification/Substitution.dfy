/** The replacement engine a step text goes through (`ApplyReplacements`, built on Go's one-pass
    `strings.Replacer`), and the entry-by-entry replacement it is often mistaken for. */
module Substitution {
  import opened Text

  /** One entry of the list handed to the replacer: `$(key)` becomes `text`. */
  datatype Pair = Pair(key: string, text: string)

  /** The first entry, in list order, whose pattern the text starts with. */
  function FirstMatch(t: string, pairs: seq<Pair>): (r: Option<Pair>)
    ensures r.Some? ==> |r.value.key| + 3 <= |t|
  {
    if pairs == [] then None
    else if Ref(pairs[0].key) <= t then Some(pairs[0])
    else FirstMatch(t, pairs[1..])
  }

  lemma {:induction false} FirstMatchMatches(t: string, pairs: seq<Pair>)
    ensures FirstMatch(t, pairs).Some? ==>
              FirstMatch(t, pairs).value in pairs && Ref(FirstMatch(t, pairs).value.key) <= t
    ensures FirstMatch(t, pairs).None? ==> forall p :: p in pairs ==> !(Ref(p.key) <= t)
  {
    if pairs != [] {
      FirstMatchMatches(t, pairs[1..]);
    }
  }

  /** One pass from the left: copy a character or replace a match and go on after it. */
  function Replace(t: string, pairs: seq<Pair>): string
    decreases |t|
  {
    if t == "" then ""
    else match FirstMatch(t, pairs)
      case Some(p) => p.text + Replace(t[|p.key| + 3..], pairs)
      case None => [t[0]] + Replace(t[1..], pairs)
  }

  ghost predicate CleanKeys(r: map<string, string>) {
    forall k :: k in r ==> IsClean(k)
  }

  /** The list holds exactly the entries of the table, in some order. */
  ghost predicate Lists(pairs: seq<Pair>, r: map<string, string>) {
    && (forall p :: p in pairs ==> p.key in r && p.text == r[p.key])
    && (forall k :: k in r ==> Pair(k, r[k]) in pairs)
  }

  lemma {:induction false} ReplacePlain(s: string, u: string, pairs: seq<Pair>)
    requires '$' !in s
    ensures Replace(s + u, pairs) == s + Replace(u, pairs)
  {
    if s == "" {
      assert s + u == u;
    } else {
      var t := s + u;
      FirstMatchMatches(t, pairs);
      assert forall p :: p in pairs ==> Ref(p.key)[0] == '$' != t[0];
      assert t[1..] == s[1..] + u;
      ReplacePlain(s[1..], u, pairs);
      assert s == [s[0]] + s[1..];
    }
  }

  lemma MatchIsHeadRef(t: string, pairs: seq<Pair>, r: map<string, string>)
    requires Lists(pairs, r) && CleanKeys(r)
    ensures match FirstMatch(t, pairs)
      case Some(p) => p.key in r && HeadRef(t) == Some(p.key) && p.text == r[p.key]
      case None => HeadRef(t).Some? ==> HeadRef(t).value !in r
  {
    FirstMatchMatches(t, pairs);
    match FirstMatch(t, pairs)
    case Some(p) => HeadRefExact(t, p.key);
    case None =>
      forall k | k in r ensures HeadRef(t) != Some(k) {
        assert Pair(k, r[k]) in pairs;
        HeadRefExact(t, k);
      }
  }

  /** A reference the table does not know is copied. */
  lemma ReplaceUnknownRef(k: string, rest: string, pairs: seq<Pair>)
    requires IsClean(k) && FirstMatch(Ref(k) + rest, pairs) == None
    ensures Replace(Ref(k) + rest, pairs) == Ref(k) + Replace(rest, pairs)
  {
    var t := Ref(k) + rest;
    var tail := "(" + k + ")";
    assert t[0] == '$';
    assert t[1..] == tail + rest;
    assert '$' !in tail;
    ReplacePlain(tail, rest, pairs);
    assert Replace(t, pairs) == "$" + (tail + Replace(rest, pairs));
    assert "$" + (tail + Replace(rest, pairs)) == ("$" + tail) + Replace(rest, pairs);
  }

  /** With clean keys the replacer replaces every reference at once, whatever the list order. */
  lemma {:induction false} ReplaceIsEval(t: string, pairs: seq<Pair>, r: map<string, string>)
    requires Lists(pairs, r) && CleanKeys(r)
    ensures Replace(t, pairs) == Eval(t, r)
    decreases |t|
  {
    if t != "" {
      MatchIsHeadRef(t, pairs, r);
      match HeadRef(t)
      case None =>
        EvalNonRef(t, r);
        ReplaceIsEval(t[1..], pairs, r);
      case Some(k) =>
        EvalHeadRef(t, r);
        ReplaceIsEval(t[|k| + 3..], pairs, r);
        if k !in r {
          HeadRefClean(t);
          SplitHeadRef(t, k, t[|k| + 3..]);
          ReplaceUnknownRef(k, t[|k| + 3..], pairs);
        }
    }
  }

  /** `ApplyReplacements`: the table is listed in the order the runtime happens to iterate it. */
  method ApplyReplacements(text: string, r: map<string, string>) returns (out: string)
    ensures exists pairs :: Lists(pairs, r) && out == Replace(text, pairs)
    ensures CleanKeys(r) ==> out == Eval(text, r)
  {
    var pairs: seq<Pair> := [];
    var todo := r.Keys;
    while todo != {}
      invariant todo <= r.Keys
      invariant forall p :: p in pairs ==> p.key in r && p.text == r[p.key]
      invariant forall k :: k in r && k !in todo ==> Pair(k, r[k]) in pairs
      decreases todo
    {
      var k :| k in todo;
      pairs := pairs + [Pair(k, r[k])];
      todo := todo - {k};
    }
    out := Replace(text, pairs);
    if CleanKeys(r) {
      ReplaceIsEval(text, pairs, r);
    }
  }

  // ---- Arguments ----

  /** The text is nothing but a reference to the array `k`, with or without the star. */
  predicate Expands(t: string, k: string) {
    t == Ref(k) || t == Ref(k + "[*]")
  }

  /** No text refers to two of the arrays. */
  ghost predicate Unambiguous(arrays: map<string, seq<string>>) {
    forall j, k :: j in arrays && k in arrays ==> j != k + "[*]"
  }

  /** The texts an argument stands for: the elements of an array it refers to as a whole, or one. */
  ghost function EvalArg(t: string, r: map<string, string>, arrays: map<string, seq<string>>): seq<string> {
    if k :| k in arrays && Expands(t, k) then arrays[k] else [Eval(t, r)]
  }

  lemma RefInjective(a: string, b: string)
    requires Ref(a) == Ref(b)
    ensures a == b
  {
    assert a == Ref(a)[2..|Ref(a)| - 1];
    assert b == Ref(b)[2..|Ref(b)| - 1];
  }

  lemma ExpandsOnce(t: string, arrays: map<string, seq<string>>, j: string, k: string)
    requires Unambiguous(arrays) && j in arrays && k in arrays && Expands(t, j) && Expands(t, k)
    ensures j == k
  {
    var a, b := if t == Ref(j) then j else j + "[*]", if t == Ref(k) then k else k + "[*]";
    RefInjective(a, b);
    assert a == j + "[*]" && b == k + "[*]" ==> j == a[..|a| - 3] && k == b[..|b| - 3];
  }

  /** All arguments, one after the other. */
  ghost function EvalArgs(args: seq<string>, r: map<string, string>, arrays: map<string, seq<string>>): seq<string> {
    if args == [] then []
    else EvalArgs(args[..|args| - 1], r, arrays) + EvalArg(args[|args| - 1], r, arrays)
  }

  lemma {:induction false} SameArgs(xs: seq<string>, c: map<string, string>, cs: map<string, seq<string>>,
                                    ys: seq<string>, r: map<string, string>, rs: map<string, seq<string>>)
    requires |xs| == |ys| && forall i :: 0 <= i < |xs| ==> EvalArg(xs[i], c, cs) == EvalArg(ys[i], r, rs)
    ensures EvalArgs(xs, c, cs) == EvalArgs(ys, r, rs)
  {
    if xs != [] {
      SameArgs(xs[..|xs| - 1], c, cs, ys[..|ys| - 1], r, rs);
    }
  }

  /** `ApplyArrayReplacements`: arrays are tried in the order the runtime happens to iterate them. */
  method ApplyArrayReplacements(text: string, r: map<string, string>, arrays: map<string, seq<string>>)
    returns (out: seq<string>)
    ensures (exists k :: k in arrays && Expands(text, k) && out == arrays[k]) ||
            ((forall k :: k in arrays ==> !Expands(text, k)) &&
             exists pairs :: Lists(pairs, r) && out == [Replace(text, pairs)])
    ensures CleanKeys(r) && Unambiguous(arrays) ==> out == EvalArg(text, r, arrays)
  {
    var todo := arrays.Keys;
    while todo != {}
      invariant todo <= arrays.Keys
      invariant forall k :: k in arrays && k !in todo ==> !Expands(text, k)
      decreases todo
    {
      var k :| k in todo;
      if text == Ref(k) || text == Ref(k + "[*]") {
        if Unambiguous(arrays) {
          forall j | j in arrays && Expands(text, j) ensures j == k { ExpandsOnce(text, arrays, j, k); }
        }
        return arrays[k];
      }
      todo := todo - {k};
    }
    var one := ApplyReplacements(text, r);
    out := [one];
  }

  // ---- Replacing entry by entry ----

  /** Replace every match of one entry, then of the next, in the given order of keys. */
  function InTurn(t: string, ren: map<string, string>, order: seq<string>): string {
    if order == [] then t
    else
      var last := order[|order| - 1];
      Replace(InTurn(t, ren, order[..|order| - 1]), [Pair(last, Ref(LedBy(ren, last)))])
  }

  /** The order names each key exactly once. */
  ghost predicate Enumerates(order: seq<string>, keys: set<string>) {
    && (forall k :: k in order <==> k in keys)
    && (forall i, j :: 0 <= i < j < |order| ==> order[i] != order[j])
  }

  /** The entry of `k`, if any, does not lead to a key that another entry leads elsewhere. */
  ghost predicate Settled(ren: map<string, string>, k: string) {
    k in ren && ren[k] in ren ==> ren[ren[k]] == ren[k]
  }

  ghost predicate NoRebound(ren: map<string, string>) {
    forall k :: Settled(ren, k)
  }

  /** The renaming `w` followed by one entry of `ren`. */
  function AndThen(w: map<string, string>, ren: map<string, string>, last: string): map<string, string> {
    map k | k in w.Keys + {last} :: if LedBy(w, k) == last then LedBy(ren, last) else LedBy(w, k)
  }

  /** Where each key has been led to after the entries of `order`. */
  function Walk(ren: map<string, string>, order: seq<string>): map<string, string> {
    if order == [] then map[]
    else AndThen(Walk(ren, order[..|order| - 1]), ren, order[|order| - 1])
  }

  lemma AndThenLeads(w: map<string, string>, ren: map<string, string>, last: string, k: string)
    ensures LedBy(AndThen(w, ren, last), k) == if LedBy(w, k) == last then LedBy(ren, last) else LedBy(w, k)
  {
  }

  lemma {:induction false} WalkIsRenaming(ren: map<string, string>, order: seq<string>)
    requires IsRenaming(ren) && forall x :: x in order ==> x in ren
    ensures IsRenaming(Walk(ren, order))
  {
    if order != [] {
      WalkIsRenaming(ren, order[..|order| - 1]);
    }
  }

  lemma ReplaceOne(t: string, key: string, text: string)
    requires IsClean(key)
    ensures Replace(t, [Pair(key, text)]) == Eval(t, map[key := text])
  {
    ReplaceIsEval(t, [Pair(key, text)], map[key := text]);
  }

  /** One more entry: the references that have reached its key are led on. */
  lemma InTurnStep(t: string, w: map<string, string>, ren: map<string, string>, last: string)
    requires IsRenaming(ren) && IsRenaming(w) && last in ren
    ensures Replace(Eval(t, RefTable(w)), [Pair(last, Ref(LedBy(ren, last)))]) ==
              Eval(t, RefTable(AndThen(w, ren, last)))
  {
    var one := map[last := Ref(LedBy(ren, last))];
    forall k | k in References(t)
      ensures Lookup(RefTable(AndThen(w, ren, last)), k) == Lookup(one, LedBy(w, k))
    {
      AndThenLeads(w, ren, last, k);
      LookupRefTable(AndThen(w, ren, last), k);
    }
    EvalRenamed(t, w, one, RefTable(AndThen(w, ren, last)));
    ReplaceOne(Eval(t, RefTable(w)), last, Ref(LedBy(ren, last)));
  }

  /** Entry by entry, each reference walks through the table on its own. */
  lemma {:induction false} InTurnWalksKeys(t: string, ren: map<string, string>, order: seq<string>)
    requires IsRenaming(ren) && forall x :: x in order ==> x in ren
    ensures InTurn(t, ren, order) == Eval(t, RefTable(Walk(ren, order)))
  {
    if order == [] {
      EvalNothing(t);
      assert RefTable(map[]) == map[];
    } else {
      var front := order[..|order| - 1];
      WalkIsRenaming(ren, front);
      InTurnWalksKeys(t, ren, front);
      InTurnStep(t, Walk(ren, front), ren, order[|order| - 1]);
    }
  }

  /** Without rebound targets a key is led at most once, wherever its entry stands in the order. */
  lemma {:induction false} WalkSettles(ren: map<string, string>, order: seq<string>, k: string)
    requires NoRebound(ren) && forall x :: x in order ==> x in ren
    ensures LedBy(Walk(ren, order), k) == if k in order then ren[k] else k
  {
    if order != [] {
      var front, last := order[..|order| - 1], order[|order| - 1];
      WalkSettles(ren, front, k);
      AndThenLeads(Walk(ren, front), ren, last, k);
      assert Settled(ren, k);
      assert k in order <==> k in front || k == last;
    }
  }

  lemma {:induction false} WalkUntouched(ren: map<string, string>, order: seq<string>, k: string)
    requires k !in order
    ensures LedBy(Walk(ren, order), k) == k
  {
    if order != [] {
      var front, last := order[..|order| - 1], order[|order| - 1];
      WalkUntouched(ren, front, k);
      AndThenLeads(Walk(ren, front), ren, last, k);
    }
  }

  /** Replacing in this order gives what the one-pass replacer gives. */
  ghost predicate OnePassLike(t: string, ren: map<string, string>, order: seq<string>) {
    InTurn(t, ren, order) == Eval(t, RefTable(ren))
  }

  /** In every order, one entry at a time gives what the one-pass replacer gives. */
  ghost predicate InTurnIsOnePass(ren: map<string, string>) {
    forall t, order :: Enumerates(order, ren.Keys) ==> OnePassLike(t, ren, order)
  }

  ghost predicate SameText(t: string, ren: map<string, string>, o1: seq<string>, o2: seq<string>) {
    InTurn(t, ren, o1) == InTurn(t, ren, o2)
  }

  /** The order does not matter when entries are replaced one at a time. */
  ghost predicate InTurnIgnoresOrder(ren: map<string, string>) {
    forall t, o1, o2 :: Enumerates(o1, ren.Keys) && Enumerates(o2, ren.Keys) ==> SameText(t, ren, o1, o2)
  }

  lemma SettledIsOnePassLike(t: string, ren: map<string, string>, order: seq<string>)
    requires IsRenaming(ren) && NoRebound(ren) && Enumerates(order, ren.Keys)
    ensures OnePassLike(t, ren, order)
  {
    InTurnWalksKeys(t, ren, order);
    forall k | k in References(t) ensures Lookup(RefTable(Walk(ren, order)), k) == Lookup(RefTable(ren), k) {
      WalkSettles(ren, order, k);
      LookupRefTable(Walk(ren, order), k);
      LookupRefTable(ren, k);
    }
    EvalExt(t, RefTable(Walk(ren, order)), RefTable(ren));
  }

  lemma {:induction false} SomeOrder(keys: set<string>) returns (order: seq<string>)
    ensures Enumerates(order, keys)
  {
    if keys == {} {
      order := [];
    } else {
      var k :| k in keys;
      order := SomeOrder(keys - {k});
      order := order + [k];
    }
  }

  lemma WalkLastTwo(ren: map<string, string>, rest: seq<string>, x: string, y: string)
    ensures Walk(ren, rest + [x, y]) == AndThen(AndThen(Walk(ren, rest), ren, x), ren, y)
  {
    var order := rest + [x, y];
    assert order[..|order| - 1] == rest + [x];
    assert (rest + [x])[..|rest|] == rest;
  }

  lemma InTurnOfRef(a: string, ren: map<string, string>, order: seq<string>)
    requires IsRenaming(ren) && IsClean(a) && forall x :: x in order ==> x in ren
    ensures InTurn(Ref(a), ren, order) == Ref(LedBy(Walk(ren, order), a))
  {
    InTurnWalksKeys(Ref(a), ren, order);
    EvalOfRef(a, RefTable(Walk(ren, order)));
    LookupRefTable(Walk(ren, order), a);
  }

  lemma EnumerateLastTwo(rest: seq<string>, x: string, y: string, keys: set<string>)
    requires Enumerates(rest, keys - {x, y}) && x in keys && y in keys && x != y
    ensures Enumerates(rest + [x, y], keys)
  {
    var order := rest + [x, y];
    assert forall k :: k in order <==> k in rest || k == x || k == y;
  }

  lemma WitnessWalks(ren: map<string, string>, rest: seq<string>, a: string)
    requires a in ren && ren[a] in ren && a != ren[a] && a !in rest
    ensures LedBy(Walk(ren, rest + [ren[a], a]), a) == ren[a]
    ensures LedBy(Walk(ren, rest + [a, ren[a]]), a) == ren[ren[a]]
  {
    var c := ren[a];
    WalkUntouched(ren, rest, a);
    WalkLastTwo(ren, rest, c, a);
    WalkLastTwo(ren, rest, a, c);
    AndThenLeads(Walk(ren, rest), ren, c, a);
    AndThenLeads(AndThen(Walk(ren, rest), ren, c), ren, a, a);
    AndThenLeads(Walk(ren, rest), ren, a, a);
    AndThenLeads(AndThen(Walk(ren, rest), ren, a), ren, c, a);
  }

  /** A rebound target is a witness: two orders disagree on the reference to its source. */
  lemma ReboundWitness(ren: map<string, string>, a: string) returns (before: seq<string>, after: seq<string>)
    requires IsRenaming(ren) && !Settled(ren, a)
    ensures Enumerates(before, ren.Keys) && Enumerates(after, ren.Keys)
    ensures InTurn(Ref(a), ren, before) == Ref(ren[a]) == Eval(Ref(a), RefTable(ren))
    ensures InTurn(Ref(a), ren, after) == Ref(ren[ren[a]])
  {
    var c := ren[a];
    var rest := SomeOrder(ren.Keys - {a, c});
    assert ren.Keys - {a, c} == ren.Keys - {c, a};
    before, after := rest + [c, a], rest + [a, c];
    EnumerateLastTwo(rest, c, a, ren.Keys);
    EnumerateLastTwo(rest, a, c, ren.Keys);
    WitnessWalks(ren, rest, a);
    InTurnOfRef(a, ren, before);
    InTurnOfRef(a, ren, after);
    EvalOfRef(a, RefTable(ren));
  }

  /** Replacing one entry at a time is safe exactly for renamings without rebound targets, which
      is why the replacer has to work in one pass. */
  lemma InTurnSafeExactly(ren: map<string, string>)
    requires IsRenaming(ren)
    ensures NoRebound(ren) <==> InTurnIsOnePass(ren)
    ensures NoRebound(ren) <==> InTurnIgnoresOrder(ren)
  {
    if NoRebound(ren) {
      forall t, order | Enumerates(order, ren.Keys) ensures OnePassLike(t, ren, order) {
        SettledIsOnePassLike(t, ren, order);
      }
      forall t, o1, o2 | Enumerates(o1, ren.Keys) && Enumerates(o2, ren.Keys) ensures SameText(t, ren, o1, o2) {
        SettledIsOnePassLike(t, ren, o1);
        SettledIsOnePassLike(t, ren, o2);
      }
    } else {
      var a :| !Settled(ren, a);
      var before, after := ReboundWitness(ren, a);
      if Ref(ren[a]) == Ref(ren[ren[a]]) {
        RefInjective(ren[a], ren[ren[a]]);
      }
      assert !OnePassLike(Ref(a), ren, after);
      assert !SameText(Ref(a), ren, before, after);
    }
  }
}
