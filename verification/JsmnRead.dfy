/** Texts that read as a document: token by token they are what jsmn_parse makes of the document's own
    text, but for their positions, so that every lookup finds the same. */
module JsmnRead {
  import opened Wrappers
  import opened JsonText
  import opened CfgWalk
  import opened CfgLookup
  import opened CfgFind
  import opened Jsmn
  import opened JsmnTree

  // ----- Alike ------------------------------------------------------------------------------------

  function RawText(t: string, x: Raw): string {
    if x.start <= x.end <= |t| then t[x.start..x.end] else ""
  }

  predicate SameTok(t: string, x: Raw, u: string, y: Raw) {
    && x.kind == y.kind && x.size == y.size && x.IsOpen() == y.IsOpen()
    && (!x.IsBox() ==> RawText(t, x) == RawText(u, y))
  }

  predicate Alike(t: string, xs: seq<Raw>, u: string, ys: seq<Raw>) {
    |xs| == |ys| && forall i | 0 <= i < |xs| :: SameTok(t, xs[i], u, ys[i])
  }

  predicate AlikeStates(t: string, x: St, u: string, y: St) {
    Alike(t, x.toks, u, y.toks) && x.super == y.super
  }

  predicate AlikeResults(t: string, x: Option<seq<Raw>>, u: string, y: Option<seq<Raw>>) {
    match (x, y)
    case (None, None) => true
    case (Some(xs), Some(ys)) => Alike(t, xs, u, ys)
    case _ => false
  }

  lemma AlikeOpen(t: string, xs: seq<Raw>, u: string, ys: seq<Raw>)
    requires Alike(t, xs, u, ys)
    ensures LastOpen(xs) == LastOpen(ys)
  {
    hide RawText;
    LastOpenIs(ys, LastOpen(xs));
  }

  lemma AlikeBump(t: string, xs: seq<Raw>, u: string, ys: seq<Raw>, i: int)
    requires Alike(t, xs, u, ys)
    ensures Alike(t, Bump(xs, i), u, Bump(ys, i))
  {
  }

  lemma AlikeMore(t: string, xs: seq<Raw>, u: string, ys: seq<Raw>, x: Raw, y: Raw)
    requires Alike(t, xs, u, ys) && SameTok(t, x, u, y)
    ensures Alike(t, xs + [x], u, ys + [y])
  {
    hide SameTok;
  }

  lemma SameText(t: string, off: nat, u: string, at: nat, a: nat, n: nat)
    requires off <= |t| && at <= |u| && t[off..] == u[at..] && a + n <= |t| - off
    ensures at + a + n <= |u| && t[off + a..off + a + n] == u[at + a..at + a + n]
  {
    assert t[off..][a..a + n] == t[off + a..off + a + n];
    assert u[at..][a..a + n] == u[at + a..at + a + n];
  }

  // The same characters at different places.
  lemma AlikeLeaf(t: string, x: St, off: nat, u: string, y: St, at: nat, kind: Kind, a: nat, n: nat)
    requires AlikeStates(t, x, u, y) && off <= |t| && at <= |u| && t[off..] == u[at..] && a + n <= |t| - off
    requires (kind == TStr || kind == TPrim) && Boxes(x.toks)
    ensures AlikeStates(t, Leaf(x, kind, off + a, off + a + n), u, Leaf(y, kind, at + a, at + a + n))
    ensures Boxes(Leaf(x, kind, off + a, off + a + n).toks)
  {
    BumpBoxes(x.toks, x.super);
    SameText(t, off, u, at, a, n);
    hide Alike, Bump;
    AlikeBump(t, x.toks, u, y.toks, x.super);
    AlikeMore(t, Bump(x.toks, x.super), u, Bump(y.toks, y.super), Raw(kind, off + a, off + a + n, 0),
      Raw(kind, at + a, at + a + n, 0));
  }

  lemma BumpBoxes(xs: seq<Raw>, i: int)
    requires Boxes(xs)
    ensures Boxes(Bump(xs, i))
  {
  }

  lemma AlikeShuts(t: string, x: St, off: nat, u: string, y: St, at: nat, kind: Kind)
    requires Alike(t, x.toks, u, y.toks) && Boxes(x.toks)
    ensures match (Shuts(x, kind, off), Shuts(y, kind, at))
            case (None, None) => true
            case (Some(a), Some(b)) => AlikeStates(t, a, u, b) && Boxes(a.toks)
            case _ => false
  {
    AlikeOpen(t, x.toks, u, y.toks);
    hide RawText, LastOpen;
    var i := LastOpen(x.toks);
    if i >= 0 && x.toks[i].kind == kind {
      AlikeOpen(t, x.toks[i := x.toks[i].(end := off + 1)], u, y.toks[i := y.toks[i].(end := at + 1)]);
    }
  }

  // Only containers are open.
  predicate Boxes(xs: seq<Raw>) {
    forall i | 0 <= i < |xs| :: xs[i].IsOpen() ==> xs[i].IsBox()
  }

  predicate AlikeSteps(t: string, x: Option<(St, nat)>, u: string, y: Option<(St, nat)>) {
    match (x, y)
    case (None, None) => true
    case (Some(a), Some(b)) => AlikeStates(t, a.0, u, b.0) && a.1 == b.1 && Boxes(a.0.toks)
    case _ => false
  }

  lemma TookAlikeBox(t: string, x: St, off: nat, u: string, y: St, at: nat)
    requires AlikeStates(t, x, u, y) && off < |t| && at <= |u| && t[off..] == u[at..] && Boxes(x.toks)
    requires t[off] in "{[}]"
    ensures AlikeSteps(t, Took(x, t[off..], off), u, Took(y, u[at..], at))
  {
    var c := t[off..][0];
    BumpBoxes(x.toks, x.super);
    hide RawText, LastOpen, BareLen, TextLen, Shuts, Bump;
    if c == '{' || c == '[' {
      AlikeBump(t, x.toks, u, y.toks, x.super);
      AlikeMore(t, Bump(x.toks, x.super), u, Bump(y.toks, y.super), Raw(BoxKind(c), off, -1, 0),
        Raw(BoxKind(c), at, -1, 0));
    } else {
      AlikeShuts(t, x, off, u, y, at, BoxKind(c));
    }
  }

  lemma AlikeTakes(t: string, x: St, u: string, y: St)
    requires AlikeStates(t, x, u, y)
    ensures TakesBare(x) == TakesBare(y)
  {
    hide RawText;
  }

  lemma TookText(st: St, s: string, off: nat)
    requires s != [] && s[0] == '"'
    ensures Took(st, s, off) == match TextLen(s[1..])
                                case None => None
                                case Some(n) => Some((Leaf(st, TStr, off + 1, off + 1 + n), n + 2))
  {
    hide TextLen, Leaf;
  }

  lemma TookBare(st: St, s: string, off: nat)
    requires s != [] && BareStart(s[0])
    ensures Took(st, s, off) == match BareLen(s)
                                case None => None
                                case Some(n) => if TakesBare(st) then Some((Leaf(st, TPrim, off, off + n), n)) else None
  {
    hide BareLen, TakesBare, Leaf;
  }

  lemma AlikeSome(t: string, a: St, u: string, b: St, n: nat)
    requires AlikeStates(t, a, u, b) && Boxes(a.toks)
    ensures AlikeSteps(t, Some((a, n)), u, Some((b, n)))
  {
  }

  lemma AlikeNone(t: string, u: string)
    ensures AlikeSteps(t, None, u, None)
  {
  }

  lemma TookAlikeText(t: string, x: St, off: nat, u: string, y: St, at: nat)
    requires AlikeStates(t, x, u, y) && off < |t| && at <= |u| && t[off..] == u[at..] && Boxes(x.toks) && t[off] == '"'
    ensures AlikeSteps(t, Took(x, t[off..], off), u, Took(y, u[at..], at))
  {
    hide *;
    var s := t[off..];
    assert s[0] == t[off] && |s| == |t| - off;
    TookText(x, s, off);
    TookText(y, s, at);
    if TextLen(s[1..]).Some? {
      var n := TextLen(s[1..]).value;
      AlikeLeaf(t, x, off, u, y, at, TStr, 1, n);
      AlikeSome(t, Leaf(x, TStr, off + 1, off + 1 + n), u, Leaf(y, TStr, at + 1, at + 1 + n), n + 2);
    } else {
      AlikeNone(t, u);
    }
  }

  lemma TookAlikeBare(t: string, x: St, off: nat, u: string, y: St, at: nat)
    requires AlikeStates(t, x, u, y) && off < |t| && at <= |u| && t[off..] == u[at..] && Boxes(x.toks)
             && BareStart(t[off])
    ensures AlikeSteps(t, Took(x, t[off..], off), u, Took(y, u[at..], at))
  {
    hide *;
    var s := t[off..];
    assert s[0] == t[off] && |s| == |t| - off;
    AlikeTakes(t, x, u, y);
    TookBare(x, s, off);
    TookBare(y, s, at);
    if BareLen(s).Some? && TakesBare(x) {
      var n := BareLen(s).value;
      AlikeLeaf(t, x, off, u, y, at, TPrim, 0, n);
      AlikeSome(t, Leaf(x, TPrim, off, off + n), u, Leaf(y, TPrim, at, at + n), n);
    } else {
      AlikeNone(t, u);
    }
  }

  lemma AlikeComma(t: string, x: St, u: string, y: St)
    requires AlikeStates(t, x, u, y)
    ensures AlikeStates(t, Comma(x), u, Comma(y)) && Comma(x).toks == x.toks
  {
    AlikeOpen(t, x.toks, u, y.toks);
    hide RawText, LastOpen;
  }

  lemma TookAlikeOther(t: string, x: St, off: nat, u: string, y: St, at: nat)
    requires AlikeStates(t, x, u, y) && off < |t| && at <= |u| && t[off..] == u[at..] && Boxes(x.toks)
    requires t[off] !in "{[}]" && t[off] != '"' && !BareStart(t[off])
    ensures AlikeSteps(t, Took(x, t[off..], off), u, Took(y, u[at..], at))
  {
    AlikeComma(t, x, u, y);
    assert t[off..][0] == t[off] && u[at..][0] == t[off];
    assert |x.toks| == |y.toks|;
    hide BareLen, TextLen, Shuts, Alike, Leaf, Boxes, TakesBare, Comma, BareStart;
  }

  lemma TookAlike(t: string, x: St, off: nat, u: string, y: St, at: nat)
    requires AlikeStates(t, x, u, y) && off < |t| && at <= |u| && t[off..] == u[at..] && Boxes(x.toks)
    ensures AlikeSteps(t, Took(x, t[off..], off), u, Took(y, u[at..], at))
  {
    hide *;
    if t[off] in "{[}]" {
      TookAlikeBox(t, x, off, u, y, at);
    } else if t[off] == '"' {
      TookAlikeText(t, x, off, u, y, at);
    } else if BareStart(t[off]) {
      TookAlikeBare(t, x, off, u, y, at);
    } else {
      TookAlikeOther(t, x, off, u, y, at);
    }
  }

  // The rest of a text, read from states that are alike, at different places.
  lemma {:induction false} AfterAlike(t: string, x: St, off: nat, u: string, y: St, at: nat)
    requires AlikeStates(t, x, u, y) && off <= |t| && at <= |u| && t[off..] == u[at..] && Boxes(x.toks)
    ensures AlikeResults(t, ReadOn(x, t[off..], off), u, ReadOn(y, u[at..], at))
    decreases |t| - off
  {
    hide Took, Alike, LastOpen, Boxes;
    AlikeOpen(t, x.toks, u, y.toks);
    if off < |t| {
      TookAlike(t, x, off, u, y, at);
      AfterFirst(x, t, off);
      AfterFirst(y, u, at);
      if Took(x, t[off..], off).Some? {
        var n := Took(x, t[off..], off).value.1;
        assert t[off + n..] == t[off..][n..] && u[at + n..] == u[at..][n..];
        AfterAlike(t, Took(x, t[off..], off).value.0, off + n, u, Took(y, u[at..], at).value.0, at + n);
      }
    }
  }

  // ----- The lookups ------------------------------------------------------------------------------

  // The array as the walks use it, when no token is open.
  function AsToks(xs: seq<Raw>): (r: seq<Tok>)
    ensures |r| == |xs|
  {
    seq(|xs|, i requires 0 <= i < |xs| => Tok(xs[i].kind, xs[i].start, if xs[i].end < 0 then 0 else xs[i].end,
      xs[i].size))
  }

  lemma RawsAsToks(ts: seq<Tok>)
    ensures AsToks(Raws(ts)) == ts
  {
  }

  predicate SameStep(json: string, a: Tok, text: string, b: Tok) {
    a.kind == b.kind && a.size == b.size && (!a.IsContainer() ==> TextOf(json, a) == TextOf(text, b))
  }

  predicate SameSteps(json: string, xs: seq<Tok>, text: string, ys: seq<Tok>) {
    |xs| == |ys| && forall i | 0 <= i < |xs| :: SameStep(json, xs[i], text, ys[i])
  }

  lemma AlikeIsSame(t: string, xs: seq<Raw>, u: string, ys: seq<Raw>)
    requires Alike(t, xs, u, ys) && AllClosed(xs) && forall i | 0 <= i < |xs| :: xs[i].end >= -1 && ys[i].end >= -1
    ensures SameSteps(t, AsToks(xs), u, AsToks(ys))
  {
  }

  lemma StepSame(s: State, k: nat, a: Tok, b: Tok, scope: Scope, json: string, text: string)
    requires SameStep(json, a, text, b)
    ensures Step(s, k, a, scope, TextOf(json, a)) == Step(s, k, b, scope, TextOf(text, b))
  {
    hide Settle, TextOf;
  }

  lemma {:induction false} RunSame(s: State, k: nat, xs: seq<Tok>, ys: seq<Tok>, scope: Scope, json: string,
      text: string)
    requires SameSteps(json, xs, text, ys)
    ensures Run(s, k, xs, scope, json) == Run(s, k, ys, scope, text)
    decreases |xs|
  {
    hide Step, SameStep;
    if xs != [] {
      StepSame(s, k, xs[0], ys[0], scope, json, text);
      assert SameStep(json, xs[0], text, ys[0]);
      RunSame(Step(s, k, xs[0], scope, TextOf(json, xs[0])), k + 1, xs[1..], ys[1..], scope, json, text);
    }
  }

  lemma {:induction false} FirstHitSame(es: seq<Event>, cb: (nat, nat) -> bool, cc: (nat, nat) -> bool)
    requires forall k, lvl :: cb(k, lvl) == cc(k, lvl)
    ensures FirstHit(es, cb) == FirstHit(es, cc)
  {
    if es != [] {
      FirstHitSame(es[1..], cb, cc);
    }
  }

  lemma HitSame(json: string, xs: seq<Tok>, text: string, ys: seq<Tok>, scope: Scope, id: string, want: nat)
    requires SameSteps(json, xs, text, ys)
    ensures Hit(json, xs, scope, id, want) == Hit(text, ys, scope, id, want)
  {
    RunSame(State([], false, []), 0, xs, ys, scope, json, text);
    var cb, cc := Callback(json, xs, id, want), Callback(text, ys, id, want);
    hide Run, TextOf;
    forall k: nat, lvl: nat ensures cb(k, lvl) == cc(k, lvl) {
      assert k < |xs| ==> SameStep(json, xs[k], text, ys[k]);
    }
    FirstHitSame(Run(State([], false, []), 0, xs, scope, json).trace, cb, cc);
  }

  lemma LookedSame(json: string, xs: seq<Tok>, text: string, ys: seq<Tok>, name: Name, firstOnly: bool)
    requires SameSteps(json, xs, text, ys)
    ensures Looked(json, xs, name, firstOnly) == Looked(text, ys, name, firstOnly)
    ensures AllFit(text, ys) ==> AllFit(json, xs)
  {
    hide SameSteps, Hit, Shallow, Run;
    RunSame(State([], false, []), 0, xs, ys, Everything, json, text);
    forall id: string ensures Run(State([], false, []), 0, xs, Under(id), json)
      == Run(State([], false, []), 0, ys, Under(id), text) {
      RunSame(State([], false, []), 0, xs, ys, Under(id), json, text);
    }
    match name
    case Bad =>
    case One(id) => HitSame(json, xs, text, ys, Everything, id, 1);
    case Two(id1, id2) =>
      HitSame(json, xs, text, ys, Everything, id1, 1);
      HitSame(json, xs, text, ys, Under(id1), id2, 2);
  }

  // ----- Texts that read as a document ------------------------------------------------------------

  // jsmn_parse's array for a text.
  function Tokens(t: string): Option<seq<Tok>> {
    match Tokenized(t) case None => None case Some(xs) => Some(AsToks(xs))
  }

  predicate ReadsAs(t: string, e: Doc) {
    match Tokenized(t) case None => false case Some(xs) => Alike(t, xs, PrintDoc(e), Raws(Toks(e.root, |e.pre|)))
  }

  // The ends of tokens.
  predicate Ended(xs: seq<Raw>) {
    forall i | 0 <= i < |xs| :: xs[i].end >= -1
  }

  lemma TookEnded(st: St, s: string, off: nat)
    requires s != [] && Ended(st.toks)
    ensures Took(st, s, off).Some? ==> Ended(Took(st, s, off).value.0.toks)
  {
    hide BareLen, TextLen, IsDigit, LastOpen;
  }

  lemma {:induction false} AfterEnded(st: St, s: string, off: nat)
    requires Ended(st.toks)
    ensures ReadOn(st, s, off).Some? ==> Ended(ReadOn(st, s, off).value) && AllClosed(ReadOn(st, s, off).value)
    decreases |s|
  {
    hide Took;
    if s != [] && Took(st, s, off).Some? {
      var (t, n) := Took(st, s, off).value;
      TookEnded(st, s, off);
      AfterEnded(t, s[n..], off + n);
    }
  }

  // Every lookup in such a text finds what it would find in the document, and its stack is deep enough.
  lemma ReadsLookup(t: string, e: Doc, name: Name, firstOnly: bool)
    requires ReadsAs(t, e) && e.root.Obj? && Depth(e.root) < 32
    ensures var toks := Tokens(t).value;
            && Looked(t, toks, name, firstOnly) == Lookup(e.root.members, name, firstOnly)
            && Looks(t, toks, name, firstOnly) == Some(Lookup(e.root.members, name, firstOnly))
            && SameSteps(t, toks, PrintDoc(e), Toks(e.root, |e.pre|))
  {
    hide ReadOn, Alike, Toks, PrintDoc, Depth, AllFit, Looked, Looks, Lookup, SameSteps;
    var xs := Tokenized(t).value;
    AfterEnded(St([], -1), t, 0);
    RawsAsToks(Toks(e.root, |e.pre|));
    assert |xs| == |Raws(Toks(e.root, |e.pre|))| by { AlikeLength(t, xs, PrintDoc(e), Raws(Toks(e.root, |e.pre|))); }
    AlikeIsSame(t, xs, PrintDoc(e), Raws(Toks(e.root, |e.pre|)));
    LookedSame(t, AsToks(xs), PrintDoc(e), Toks(e.root, |e.pre|), name, firstOnly);
    LookedInDoc(e, name, firstOnly);
    DocFits(e);
    LooksIfFits(t, AsToks(xs), name, firstOnly);
  }

  lemma AlikeLength(t: string, xs: seq<Raw>, u: string, ys: seq<Raw>)
    requires Alike(t, xs, u, ys)
    ensures |xs| == |ys|
  {
  }

  // The text of a document reads as it.
  lemma DocReads(d: Doc)
    requires WfDoc(d) && IsBox(d.root)
    ensures Tokens(PrintDoc(d)) == Some(Toks(d.root, |d.pre|)) && ReadsAs(PrintDoc(d), d)
  {
    TokensOfText(d);
    RawsAsToks(Toks(d.root, |d.pre|));
    hide Tokenized, Toks, PrintDoc, RawText, WfDoc;
  }
}
