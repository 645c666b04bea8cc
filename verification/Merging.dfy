/** Merging the declarations of used Tasks into those of the TaskGroup (`mergeParams`,
    `mergeWorkspaces`, `mergeResults`, `mergeSidecars`, `mergeVolumes`).  The five mergers run the
    same two loops and differ in when a name declared on both sides is an error. */
module Merging {
  import opened Text
  import opened Types

  datatype Clash = Type | MountPath | ReadOnly | Optional | Sidecars | Volumes
  datatype Conflict = Conflict(clash: Clash, name: string)

  // ---- When a used declaration clashes with the group's own ----

  function ParamClash(own: ParamBody, used: ParamBody): Option<Clash> {
    if own.kind != used.kind then Some(Type) else None
  }

  function WorkspaceClash(own: WorkspaceBody, used: WorkspaceBody): Option<Clash> {
    if own.mountPath != used.mountPath then Some(MountPath)
    else if own.readOnly != used.readOnly then Some(ReadOnly)
    else if own.optional != used.optional then Some(Optional)
    else None
  }

  function ResultClash(own: string, used: string): Option<Clash> { None }

  function SidecarClash(own: string, used: string): Option<Clash> { Some(Sidecars) }

  function VolumeClash(own: string, used: string): Option<Clash> { Some(Volumes) }

  // ---- Merging ----

  /** The last declaration of a name. */
  function LastNamed<B>(ds: seq<Named<B>>, name: string): Option<B> {
    if ds == [] then None
    else if ds[|ds| - 1].name == name then Some(ds[|ds| - 1].body)
    else LastNamed(ds[..|ds| - 1], name)
  }

  predicate Declares<B>(ds: seq<Named<B>>, name: string) {
    exists i :: 0 <= i < |ds| && ds[i].name == name
  }

  /** The used declarations whose names the group does not declare, in their order. */
  function Kept<B>(own: seq<Named<B>>, used: seq<Named<B>>): seq<Named<B>> {
    if used == [] then []
    else
      var d := used[|used| - 1];
      Kept(own, used[..|used| - 1]) + if Declares(own, d.name) then [] else [d]
  }

  function ConflictOf<B>(own: seq<Named<B>>, d: Named<B>, clash: (B, B) -> Option<Clash>): Option<Conflict> {
    match LastNamed(own, d.name)
    case None => None
    case Some(body) => match clash(body, d.body)
      case None => None
      case Some(c) => Some(Conflict(c, d.name))
  }

  /** The first used declaration that clashes. */
  function FirstConflict<B>(own: seq<Named<B>>, used: seq<Named<B>>, clash: (B, B) -> Option<Clash>): Option<Conflict> {
    if used == [] then None
    else match ConflictOf(own, used[0], clash)
      case Some(c) => Some(c)
      case None => FirstConflict(own, used[1..], clash)
  }

  lemma {:induction false} LastNamedDeclares<B>(ds: seq<Named<B>>, name: string)
    ensures LastNamed(ds, name).Some? <==> Declares(ds, name)
  {
    if ds != [] {
      var front := ds[..|ds| - 1];
      LastNamedDeclares(front, name);
      if Declares(ds, name) && ds[|ds| - 1].name != name {
        var i :| 0 <= i < |ds| && ds[i].name == name;
        assert front[i].name == name;
      }
    }
  }

  /** The loops of a merger: remember the group's names, then keep, drop or reject each used one. */
  method MergeNamed<B>(own: seq<Named<B>>, used: seq<Named<B>>, clash: (B, B) -> Option<Clash>)
    returns (merged: seq<Named<B>>, err: Option<Conflict>)
    ensures err == FirstConflict(own, used, clash)
    ensures err.None? ==> merged == own + Kept(own, used)
  {
    merged, err := [], None;
    var seen: map<string, B> := map[];
    for i := 0 to |own|
      invariant merged == own[..i]
      invariant forall n :: n in seen <==> LastNamed(own[..i], n).Some?
      invariant forall n :: n in seen ==> LastNamed(own[..i], n) == Some(seen[n])
    {
      assert own[..i + 1][..i] == own[..i];
      seen := seen[own[i].name := own[i].body];
      merged := merged + [own[i]];
    }
    assert own[..|own|] == own;
    for i := 0 to |used|
      invariant merged == own + Kept(own, used[..i])
      invariant FirstConflict(own, used, clash) == FirstConflict(own, used[i..], clash)
    {
      var d := used[i];
      assert used[..i + 1][..i] == used[..i];
      assert used[i..][0] == d && used[i..][1..] == used[i + 1..];
      LastNamedDeclares(own, d.name);
      if d.name in seen {
        var c := clash(seen[d.name], d.body);
        if c.Some? {
          return merged, Some(Conflict(c.value, d.name));
        }
        continue;
      }
      merged := merged + [d];
    }
    assert used[..|used|] == used;
  }

  // ---- What a merge keeps ----

  /** A merge fails exactly when some used declaration clashes with the group's last declaration of
      its name. */
  lemma {:induction false} FailsExactly<B>(own: seq<Named<B>>, used: seq<Named<B>>, clash: (B, B) -> Option<Clash>)
    ensures FirstConflict(own, used, clash).None? <==>
            forall d :: d in used && Declares(own, d.name) ==> clash(LastBody(own, d.name), d.body).None?
  {
    if used != [] {
      FailsExactly(own, used[1..], clash);
      LastNamedDeclares(own, used[0].name);
    }
  }

  function LastBody<B>(ds: seq<Named<B>>, name: string): B
    requires Declares(ds, name)
  {
    LastNamedDeclares(ds, name);
    LastNamed(ds, name).value
  }

  /** How often a name is declared. */
  function Count<B>(ds: seq<Named<B>>, name: string): nat {
    if ds == [] then 0
    else Count(ds[..|ds| - 1], name) + if ds[|ds| - 1].name == name then 1 else 0
  }

  lemma {:induction false} CountJoin<B>(a: seq<Named<B>>, b: seq<Named<B>>, name: string)
    ensures Count(a + b, name) == Count(a, name) + Count(b, name)
  {
    if b == [] {
      assert a + b == a;
    } else {
      assert (a + b)[..|a + b| - 1] == a + b[..|b| - 1];
      CountJoin(a, b[..|b| - 1], name);
    }
  }

  lemma {:induction false} CountDeclares<B>(ds: seq<Named<B>>, name: string)
    ensures Count(ds, name) > 0 <==> Declares(ds, name)
  {
    if ds != [] {
      var front := ds[..|ds| - 1];
      CountDeclares(front, name);
      if Declares(ds, name) && ds[|ds| - 1].name != name {
        var i :| 0 <= i < |ds| && ds[i].name == name;
        assert front[i].name == name;
      }
    }
  }

  lemma {:induction false} CountKept<B>(own: seq<Named<B>>, used: seq<Named<B>>, name: string)
    ensures Count(Kept(own, used), name) == if Declares(own, name) then 0 else Count(used, name)
  {
    if used != [] {
      var front := used[..|used| - 1];
      CountKept(own, front, name);
      var d := used[|used| - 1];
      CountJoin(Kept(own, front), if Declares(own, d.name) then [] else [d], name);
      assert Count([d], name) == if d.name == name then 1 else 0;
    }
  }

  /** Conservation: the group's declarations stay, and every other name occurs exactly as often as
      the used Tasks declare it. */
  lemma Multiplicity<B>(own: seq<Named<B>>, used: seq<Named<B>>, name: string)
    ensures own <= own + Kept(own, used)
    ensures Count(own + Kept(own, used), name) == if Declares(own, name) then Count(own, name) else Count(used, name)
  {
    CountJoin(own, Kept(own, used), name);
    CountKept(own, used, name);
    CountDeclares(own, name);
  }

  lemma {:induction false} KeptJoin<B>(own: seq<Named<B>>, a: seq<Named<B>>, b: seq<Named<B>>)
    ensures Kept(own, a + b) == Kept(own, a) + Kept(own, b)
  {
    if b == [] {
      assert a + b == a;
    } else {
      assert (a + b)[..|a + b| - 1] == a + b[..|b| - 1];
      KeptJoin(own, a, b[..|b| - 1]);
    }
  }

  /** What is kept are used declarations of names the group does not declare, and all of them. */
  lemma {:induction false} KeptExactly<B>(own: seq<Named<B>>, used: seq<Named<B>>, d: Named<B>)
    ensures d in Kept(own, used) <==> d in used && !Declares(own, d.name)
  {
    if used != [] {
      KeptExactly(own, used[..|used| - 1], d);
      assert used == used[..|used| - 1] + [used[|used| - 1]];
    }
  }

  /** When every shared name is an error, as for sidecars and volumes, nothing is dropped. */
  lemma {:induction false} NothingDropped<B>(own: seq<Named<B>>, used: seq<Named<B>>)
    requires forall d :: d in used ==> !Declares(own, d.name)
    ensures Kept(own, used) == used
  {
    if used != [] {
      NothingDropped(own, used[..|used| - 1]);
      assert used == used[..|used| - 1] + [used[|used| - 1]];
    }
  }

  ghost predicate NamesDistinct<B>(ds: seq<Named<B>>) {
    forall name :: Count(ds, name) <= 1
  }

  /** Names shared by two used Tasks are not merged: the result has no duplicate exactly when the
      group has none and no name it leaves undeclared comes twice from the used Tasks. */
  lemma DistinctExactly<B>(own: seq<Named<B>>, used: seq<Named<B>>)
    ensures NamesDistinct(own + Kept(own, used)) <==>
            NamesDistinct(own) && forall name :: !Declares(own, name) ==> Count(used, name) <= 1
  {
    forall name
      ensures Count(own + Kept(own, used), name) == if Declares(own, name) then Count(own, name) else Count(used, name)
      ensures !Declares(own, name) ==> Count(own, name) == 0
    {
      Multiplicity(own, used, name);
      CountDeclares(own, name);
    }
  }

  // ---- One merge or two ----

  ghost predicate Passes<B>(own: seq<Named<B>>, used: seq<Named<B>>, clash: (B, B) -> Option<Clash>) {
    FirstConflict(own, used, clash).None?
  }

  /** Some kept declaration of `b` has the name of a kept declaration of `a`. */
  ghost predicate Overlap<B>(own: seq<Named<B>>, a: seq<Named<B>>, b: seq<Named<B>>) {
    exists d :: d in Kept(own, b) && Declares(Kept(own, a), d.name)
  }

  lemma DeclaresJoin<B>(a: seq<Named<B>>, b: seq<Named<B>>, name: string)
    ensures Declares(a + b, name) <==> Declares(a, name) || Declares(b, name)
  {
    if Declares(a, name) {
      var i :| 0 <= i < |a| && a[i].name == name;
      assert (a + b)[i].name == name;
    }
    if Declares(b, name) {
      var i :| 0 <= i < |b| && b[i].name == name;
      assert (a + b)[|a| + i].name == name;
    }
  }

  lemma KeptNames<B>(own: seq<Named<B>>, a: seq<Named<B>>, name: string)
    requires Declares(own, name)
    ensures !Declares(Kept(own, a), name)
  {
    CountKept(own, a, name);
    CountDeclares(Kept(own, a), name);
  }

  /** The second merge drops nothing more than the first would have. */
  lemma {:induction false} KeptTwice<B>(own: seq<Named<B>>, a: seq<Named<B>>, b: seq<Named<B>>)
    ensures |Kept(own + Kept(own, a), b)| <= |Kept(own, b)|
    ensures Kept(own + Kept(own, a), b) == Kept(own, b) <==> !Overlap(own, a, b)
  {
    if b != [] {
      var front, d := b[..|b| - 1], b[|b| - 1];
      KeptTwice(own, a, front);
      DeclaresJoin(own, Kept(own, a), d.name);
      if Declares(own, d.name) {
        assert Kept(own, b) == Kept(own, front);
      } else {
        assert Kept(own, b) == Kept(own, front) + [d];
        if !Declares(Kept(own, a), d.name) && Kept(own + Kept(own, a), b) == Kept(own, b) {
          assert Kept(own + Kept(own, a), b)[..|Kept(own, b)| - 1] == Kept(own + Kept(own, a), front);
          assert Kept(own, b)[..|Kept(own, b)| - 1] == Kept(own, front);
        }
      }
    }
  }

  lemma {:induction false} LastNamedJoin<B>(a: seq<Named<B>>, b: seq<Named<B>>, name: string)
    requires !Declares(b, name)
    ensures LastNamed(a + b, name) == LastNamed(a, name)
  {
    if b == [] {
      assert a + b == a;
    } else {
      assert b[|b| - 1].name != name;
      assert (a + b)[..|a + b| - 1] == a + b[..|b| - 1];
      assert !Declares(b[..|b| - 1], name);
      LastNamedJoin(a, b[..|b| - 1], name);
    }
  }

  /** Without overlap the second merge raises no conflict the group's own list does not raise. */
  lemma {:induction false} PassesTwice<B>(own: seq<Named<B>>, a: seq<Named<B>>, b: seq<Named<B>>,
                                          clash: (B, B) -> Option<Clash>)
    requires Passes(own, b, clash)
    requires forall d :: d in b && !Declares(own, d.name) ==> !Declares(Kept(own, a), d.name)
    ensures Passes(own + Kept(own, a), b, clash)
  {
    if b != [] {
      var d := b[0];
      LastNamedDeclares(own, d.name);
      if Declares(own, d.name) {
        KeptNames(own, a, d.name);
      }
      LastNamedJoin(own, Kept(own, a), d.name);
      PassesTwice(own, a, b[1..], clash);
    }
  }

  /** Merging two batches at once is merging one after the other exactly when no kept name of the
      second is a kept name of the first. */
  lemma BatchedExactly<B>(own: seq<Named<B>>, a: seq<Named<B>>, b: seq<Named<B>>, clash: (B, B) -> Option<Clash>)
    requires Passes(own, a, clash) && Passes(own, b, clash)
    ensures var first := own + Kept(own, a);
      (Passes(first, b, clash) && first + Kept(first, b) == own + Kept(own, a + b)) <==> !Overlap(own, a, b)
  {
    var first := own + Kept(own, a);
    KeptJoin(own, a, b);
    KeptTwice(own, a, b);
    assert own + Kept(own, a + b) == first + Kept(own, b);
    assert first + Kept(first, b) == first + Kept(own, b) <==> Kept(first, b) == Kept(own, b) by {
      assert (first + Kept(first, b))[|first|..] == Kept(first, b);
      assert (first + Kept(own, b))[|first|..] == Kept(own, b);
    }
    if !Overlap(own, a, b) {
      forall d | d in b && !Declares(own, d.name) ensures !Declares(Kept(own, a), d.name) {
        KeptExactly(own, b, d);
      }
      PassesTwice(own, a, b, clash);
    }
  }
}
