/** Step texts are character sequences.  A reference is `$(key)` where the key holds none of the
    three reference characters, so two references never overlap.  `Eval` is the meaning of a text:
    every reference is replaced by its value, all at once, and everything else is copied. */
module Text {

  datatype Option<+T> = None | Some(value: T)

  predicate Special(c: char) {
    c == '$' || c == '(' || c == ')'
  }

  /** A key (or a name inside a key) that cannot be confused with reference syntax. */
  predicate IsClean(s: string) {
    forall i :: 0 <= i < |s| ==> !Special(s[i])
  }

  function Ref(key: string): string {
    "$(" + key + ")"
  }

  /** The length of the longest prefix without reference characters. */
  function CleanRun(s: string): (n: nat)
    ensures n <= |s|
  {
    if s == "" || Special(s[0]) then 0 else 1 + CleanRun(s[1..])
  }

  lemma {:induction false} CleanRunIsRun(s: string)
    ensures IsClean(s[..CleanRun(s)])
    ensures CleanRun(s) < |s| ==> Special(s[CleanRun(s)])
  {
    if s != "" && !Special(s[0]) {
      CleanRunIsRun(s[1..]);
    }
  }

  lemma CleanRunUnique(s: string, n: nat)
    requires n < |s| && IsClean(s[..n]) && Special(s[n])
    ensures CleanRun(s) == n
  {
    CleanRunIsRun(s);
    var m := CleanRun(s);
    assert m <= n;
  }

  /** The key of the reference the text starts with, if it starts with one. */
  function HeadRef(t: string): (r: Option<string>)
    ensures r.Some? ==> |r.value| + 3 <= |t|
  {
    if |t| < 3 || t[0] != '$' || t[1] != '(' then None else
    var n := CleanRun(t[2..]);
    if 2 + n < |t| && t[2 + n] == ')' then Some(t[2..][..n]) else None
  }

  lemma HeadRefExact(t: string, k: string)
    requires IsClean(k)
    ensures HeadRef(t) == Some(k) <==> Ref(k) <= t
  {
    if HeadRef(t) == Some(k) {
      assert t[..|k| + 3] == Ref(k);
    }
    if Ref(k) <= t {
      var n := |k|;
      assert forall i :: 0 <= i < n + 3 ==> t[i] == Ref(k)[i];
      assert t[2..][..n] == k;
      assert Ref(k)[n + 2] == ')';
      CleanRunUnique(t[2..], n);
    }
  }

  lemma HeadRefClean(t: string)
    requires HeadRef(t).Some?
    ensures IsClean(HeadRef(t).value)
    ensures Ref(HeadRef(t).value) <= t
  {
    CleanRunIsRun(t[2..]);
    HeadRefExact(t, HeadRef(t).value);
  }

  lemma SplitHeadRef(t: string, k: string, rest: string)
    requires HeadRef(t) == Some(k) && rest == t[|k| + 3..]
    ensures t == Ref(k) + rest
  {
    HeadRefClean(t);
    assert t[..|k| + 3] == Ref(k);
  }

  // ---- Texts as tokens ----

  datatype Token = Lit(c: char) | Key(key: string)

  /** A text read from the left: references where they stand, single characters elsewhere. */
  function Tokens(t: string): seq<Token> {
    if t == "" then []
    else match HeadRef(t)
      case Some(k) => [Key(k)] + Tokens(t[|k| + 3..])
      case None => [Lit(t[0])] + Tokens(t[1..])
  }

  /** What a table says about a key; an absent key keeps its reference. */
  function Lookup(r: map<string, string>, k: string): string {
    if k in r then r[k] else Ref(k)
  }

  function Render(toks: seq<Token>, r: map<string, string>): string {
    if toks == [] then ""
    else match toks[0]
      case Lit(c) => [c] + Render(toks[1..], r)
      case Key(k) => Lookup(r, k) + Render(toks[1..], r)
  }

  /** The meaning of a text under a table of values: every reference the table knows is replaced
      by its value, all at once, and everything else is copied. */
  function Eval(t: string, r: map<string, string>): string {
    Render(Tokens(t), r)
  }

  /** The keys a text refers to. */
  function References(t: string): set<string> {
    set tok | tok in Tokens(t) && tok.Key? :: tok.key
  }

  lemma {:induction false} RenderExt(toks: seq<Token>, r: map<string, string>, r': map<string, string>)
    requires forall tok :: tok in toks && tok.Key? ==> Lookup(r, tok.key) == Lookup(r', tok.key)
    ensures Render(toks, r) == Render(toks, r')
  {
    if toks != [] {
      RenderExt(toks[1..], r, r');
    }
  }

  /** The meaning of a text depends only on the values of the keys it refers to. */
  lemma EvalExt(t: string, r: map<string, string>, r': map<string, string>)
    requires forall k :: k in References(t) ==> Lookup(r, k) == Lookup(r', k)
    ensures Eval(t, r) == Eval(t, r')
  {
    forall tok | tok in Tokens(t) && tok.Key? ensures Lookup(r, tok.key) == Lookup(r', tok.key) {
      assert tok.key in References(t);
    }
    RenderExt(Tokens(t), r, r');
  }

  lemma EvalNonRef(t: string, r: map<string, string>)
    requires t != "" && HeadRef(t) == None
    ensures Eval(t, r) == [t[0]] + Eval(t[1..], r)
  {
    assert Tokens(t)[1..] == Tokens(t[1..]);
  }

  lemma EvalHeadRef(t: string, r: map<string, string>)
    requires HeadRef(t).Some?
    ensures Eval(t, r) == Lookup(r, HeadRef(t).value) + Eval(t[|HeadRef(t).value| + 3..], r)
  {
    assert Tokens(t)[1..] == Tokens(t[|HeadRef(t).value| + 3..]);
  }

  /** The empty table changes nothing. */
  lemma {:induction false} EvalNothing(t: string)
    ensures Eval(t, map[]) == t
  {
    if t != "" {
      match HeadRef(t)
      case Some(k) =>
        var rest := t[|k| + 3..];
        EvalHeadRef(t, map[]);
        EvalNothing(rest);
        SplitHeadRef(t, k, rest);
      case None =>
        EvalNonRef(t, map[]);
        EvalNothing(t[1..]);
    }
  }

  lemma TokensOfRef(k: string, u: string)
    requires IsClean(k)
    ensures Tokens(Ref(k) + u) == [Key(k)] + Tokens(u)
  {
    HeadRefExact(Ref(k) + u, k);
    assert (Ref(k) + u)[|k| + 3..] == u;
  }

  lemma EvalOfRef(k: string, r: map<string, string>)
    requires IsClean(k)
    ensures Eval(Ref(k), r) == Lookup(r, k)
    ensures References(Ref(k)) == {k}
  {
    TokensOfRef(k, "");
    assert Ref(k) + "" == Ref(k);
    assert Tokens(Ref(k)) == [Key(k)];
    assert Render([Key(k)][1..], r) == "";
    assert Key(k) in Tokens(Ref(k));
  }

  // ---- Renaming references ----

  /** A renaming of keys; both sides are clean. */
  ghost predicate IsRenaming(ren: map<string, string>) {
    forall k {:trigger ren[k]} :: k in ren ==> IsClean(k) && IsClean(ren[k])
  }

  function LedBy(ren: map<string, string>, k: string): string {
    if k in ren then ren[k] else k
  }

  /** The table that carries out a renaming: each reference becomes a reference to the new key. */
  function RefTable(ren: map<string, string>): map<string, string> {
    map k | k in ren :: Ref(ren[k])
  }

  lemma LookupRefTable(ren: map<string, string>, k: string)
    ensures Lookup(RefTable(ren), k) == Ref(LedBy(ren, k))
  {
  }

  /** The tokens with every key led to another key. */
  function Led(toks: seq<Token>, ren: map<string, string>): (led: seq<Token>)
    ensures |led| == |toks|
    ensures forall i :: 0 <= i < |toks| ==> led[i] == if toks[i].Key? then Key(LedBy(ren, toks[i].key)) else toks[i]
  {
    if toks == [] then []
    else [if toks[0].Key? then Key(LedBy(ren, toks[0].key)) else toks[0]] + Led(toks[1..], ren)
  }

  /** Renaming keeps the leading run of ordinary characters and the character after it, so it can
      neither complete nor break a reference that starts further left. */
  lemma {:induction false} RenamingKeepsRun(u: string, ren: map<string, string>)
    ensures var n := CleanRun(u); var v := Eval(u, RefTable(ren));
      && CleanRun(v) == n
      && (n < |v| <==> n < |u|)
      && (n < |u| ==> v[n] == u[n])
    ensures u != "" ==> Eval(u, RefTable(ren)) != "" && Eval(u, RefTable(ren))[0] == u[0]
  {
    var r := RefTable(ren);
    if u != "" {
      match HeadRef(u)
      case Some(k) =>
        EvalHeadRef(u, r);
        LookupRefTable(ren, k);
        assert Ref(LedBy(ren, k))[0] == '$' == u[0];
      case None =>
        EvalNonRef(u, r);
        RenamingKeepsRun(u[1..], ren);
        assert Eval(u, r)[1..] == Eval(u[1..], r);
    }
  }

  lemma RenamingMakesNoRef(t: string, ren: map<string, string>)
    requires t != "" && HeadRef(t) == None
    ensures HeadRef(Eval(t, RefTable(ren))) == None
  {
    var r := RefTable(ren);
    EvalNonRef(t, r);
    var v := Eval(t, r);
    assert v[1..] == Eval(t[1..], r);
    if |t| >= 2 {
      RenamingKeepsRun(t[1..], ren);
      if t[0] == '$' && t[1] == '(' {
        EvalNonRef(t[1..], r);
        assert t[1..][1..] == t[2..];
        assert v[2..] == Eval(t[2..], r);
        RenamingKeepsRun(t[2..], ren);
      }
    }
  }

  /** The tokens of a renamed text are the original tokens with their keys led on. */
  lemma {:induction false} TokensRenamed(t: string, ren: map<string, string>)
    requires IsRenaming(ren)
    ensures Tokens(Eval(t, RefTable(ren))) == Led(Tokens(t), ren)
  {
    var r := RefTable(ren);
    if t != "" {
      match HeadRef(t)
      case Some(k) =>
        var rest := t[|k| + 3..];
        HeadRefClean(t);
        EvalHeadRef(t, r);
        LookupRefTable(ren, k);
        TokensRenamed(rest, ren);
        TokensOfRef(LedBy(ren, k), Eval(rest, r));
        assert Tokens(t)[1..] == Tokens(rest);
      case None =>
        EvalNonRef(t, r);
        RenamingMakesNoRef(t, ren);
        TokensRenamed(t[1..], ren);
        assert Eval(t, r)[1..] == Eval(t[1..], r);
        assert Tokens(t)[1..] == Tokens(t[1..]);
    }
  }

  lemma {:induction false} RenderLed(toks: seq<Token>, ren: map<string, string>, r: map<string, string>,
                                     c: map<string, string>)
    requires forall tok :: tok in toks && tok.Key? ==> Lookup(c, tok.key) == Lookup(r, LedBy(ren, tok.key))
    ensures Render(Led(toks, ren), r) == Render(toks, c)
  {
    if toks != [] {
      assert Led(toks, ren)[1..] == Led(toks[1..], ren);
      RenderLed(toks[1..], ren, r, c);
    }
  }

  /** Composition: evaluating a renamed text is evaluating the original with the renamed keys. */
  lemma EvalRenamed(t: string, ren: map<string, string>, r: map<string, string>, c: map<string, string>)
    requires IsRenaming(ren)
    requires forall k :: k in References(t) ==> Lookup(c, k) == Lookup(r, LedBy(ren, k))
    ensures Eval(Eval(t, RefTable(ren)), r) == Eval(t, c)
  {
    TokensRenamed(t, ren);
    forall tok | tok in Tokens(t) && tok.Key? ensures Lookup(c, tok.key) == Lookup(r, LedBy(ren, tok.key)) {
      assert tok.key in References(t);
    }
    RenderLed(Tokens(t), ren, r, c);
  }

  /** The references of a renamed text are the images of the original references. */
  lemma ReferencesRenamed(t: string, ren: map<string, string>)
    requires IsRenaming(ren)
    ensures References(Eval(t, RefTable(ren))) == set k | k in References(t) :: LedBy(ren, k)
  {
    TokensRenamed(t, ren);
    var toks, led := Tokens(t), Led(Tokens(t), ren);
    forall k | k in References(t) ensures LedBy(ren, k) in References(Eval(t, RefTable(ren))) {
      var i :| 0 <= i < |toks| && toks[i] == Key(k);
      assert led[i] == Key(LedBy(ren, k));
    }
    forall k' | k' in References(Eval(t, RefTable(ren))) ensures exists k :: k in References(t) && k' == LedBy(ren, k) {
      var i :| 0 <= i < |led| && led[i] == Key(k');
      assert toks[i] in Tokens(t) && toks[i].Key?;
      assert toks[i].key in References(t);
    }
  }

  /** The token has the same value under `c` as its renamed form has under `r`. */
  ghost predicate Agrees(tok: Token, ren: map<string, string>, r: map<string, string>, c: map<string, string>) {
    tok.Key? ==> Lookup(c, tok.key) == Lookup(r, LedBy(ren, tok.key))
  }

  /** The texts differ at a place they both have, so that nothing put behind them makes them equal. */
  ghost predicate Diverge(v: string, w: string) {
    exists i :: 0 <= i < |v| && i < |w| && v[i] != w[i]
  }

  /** Two renderings that first disagree at token `i`, and diverge there, are different texts. */
  lemma RendersDiffer(toks: seq<Token>, ren: map<string, string>, r: map<string, string>,
                      c: map<string, string>, i: nat)
    requires i < |toks| && toks[i].Key?
    requires forall j :: 0 <= j < i ==> Agrees(toks[j], ren, r, c)
    requires Diverge(Lookup(c, toks[i].key), Lookup(r, LedBy(ren, toks[i].key)))
    ensures Render(Led(toks, ren), r) != Render(toks, c)
  {
    var pre, post := toks[..i], toks[i..];
    CutAt(toks, i);
    LedJoin(pre, post, ren);
    RenderJoin(pre, post, c);
    RenderJoin(Led(pre, ren), Led(post, ren), r);
    assert Render(Led(pre, ren), r) == Render(pre, c) by {
      assert forall j :: 0 <= j < i ==> Agrees(pre[j], ren, r, c);
      RenderLed(pre, ren, r, c);
    }
    HeadsDiffer(post, ren, r, c);
    CancelHead(Render(pre, c), Render(Led(post, ren), r), Render(post, c));
  }

  lemma CutAt(toks: seq<Token>, i: nat)
    requires i <= |toks|
    ensures toks == toks[..i] + toks[i..]
  {
  }

  lemma {:induction false} RenderJoin(a: seq<Token>, b: seq<Token>, r: map<string, string>)
    ensures Render(a + b, r) == Render(a, r) + Render(b, r)
  {
    if a == [] {
      assert a + b == b;
    } else {
      assert (a + b)[1..] == a[1..] + b;
      RenderJoin(a[1..], b, r);
    }
  }

  lemma LedJoin(a: seq<Token>, b: seq<Token>, ren: map<string, string>)
    ensures Led(a + b, ren) == Led(a, ren) + Led(b, ren)
  {
  }

  lemma HeadsDiffer(toks: seq<Token>, ren: map<string, string>, r: map<string, string>, c: map<string, string>)
    requires toks != [] && toks[0].Key?
    requires Diverge(Lookup(c, toks[0].key), Lookup(r, LedBy(ren, toks[0].key)))
    ensures Render(Led(toks, ren), r) != Render(toks, c)
  {
    DivergingHeads(Lookup(c, toks[0].key), Render(toks[1..], c),
                   Lookup(r, LedBy(ren, toks[0].key)), Render(Led(toks, ren)[1..], r));
  }

  lemma DivergingHeads(v: string, x: string, w: string, y: string)
    requires Diverge(v, w)
    ensures v + x != w + y
  {
    var i :| 0 <= i < |v| && i < |w| && v[i] != w[i];
    assert (v + x)[i] == v[i] && (w + y)[i] == w[i];
  }

  lemma CancelHead(head: string, x: string, y: string)
    requires x != y
    ensures head + x != head + y
  {
    assert (head + x)[|head|..] == x && (head + y)[|head|..] == y;
  }
}
