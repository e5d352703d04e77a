/** What jsmn_parse makes of the text of a tree: the tokens the walks of cfg/cfg.cpp expect. */
module JsmnTree {
  import opened Wrappers
  import opened JsonText
  import opened CfgWalk
  import opened Jsmn

  function ToRaw(t: Tok): Raw {
    Raw(t.kind, t.start, t.end, t.size)
  }

  function Raws(ts: seq<Tok>): (r: seq<Raw>)
    ensures |r| == |ts| && forall i | 0 <= i < |ts| :: r[i] == ToRaw(ts[i])
  {
    seq(|ts|, i requires 0 <= i < |ts| => ToRaw(ts[i]))
  }

  lemma RawsAppend(a: seq<Tok>, b: seq<Tok>)
    ensures Raws(a + b) == Raws(a) + Raws(b)
    ensures Raws([]) == []
  {
  }

  predicate AllClosed(ts: seq<Raw>) {
    forall i | 0 <= i < |ts| :: !ts[i].IsOpen()
  }

  lemma RawsAreClosed(ts: seq<Tok>)
    ensures AllClosed(Raws(ts))
  {
  }

  // ----- Open tokens ------------------------------------------------------------------------------

  lemma LastOpenIs(ts: seq<Raw>, i: int)
    requires -1 <= i < |ts| && (i >= 0 ==> ts[i].IsOpen()) && forall j | i < j < |ts| :: !ts[j].IsOpen()
    ensures LastOpen(ts) == i
  {
  }

  lemma LastOpenAppend(a: seq<Raw>, b: seq<Raw>)
    requires AllClosed(b)
    ensures LastOpen(a + b) == LastOpen(a)
  {
    LastOpenIs(a + b, LastOpen(a));
  }

  lemma LastOpenBump(ts: seq<Raw>, i: int)
    ensures LastOpen(Bump(ts, i)) == LastOpen(ts)
  {
    LastOpenIs(Bump(ts, i), LastOpen(ts));
  }

  // Reading s at off from st comes to reading r at n from t.
  predicate Goes(st: St, s: string, off: nat, t: St, r: string, n: nat) {
    ReadOn(st, s, off) == ReadOn(t, r, n)
  }

  lemma Then(st: St, s: string, off: nat, t: St, r: string, n: nat, u: St, q: string, m: nat)
    requires Goes(st, s, off, t, r, n) && Goes(t, r, n, u, q, m)
    ensures Goes(st, s, off, u, q, m)
  {
    hide ReadOn;
  }

  // ----- Pieces of text ---------------------------------------------------------------------------

  lemma {:induction false} AfterWs(st: St, w: string, r: string, off: nat)
    requires AllWs(w)
    ensures Goes(st, w + r, off, st, r, off + |w|)
  {
    if w == [] {
      assert w + r == r;
    } else {
      assert (w + r)[1..] == w[1..] + r;
      AfterWs(st, w[1..], r, off + 1);
    }
  }

  lemma AfterOne(st: St, c: char, r: string, off: nat)
    ensures ReadOn(st, [c] + r, off) == match Took(st, [c] + r, off)
                                       case None => None
                                       case Some((t, n)) => ReadOn(t, ([c] + r)[n..], off + n)
    ensures ([c] + r)[1..] == r
  {
    hide Took, LastOpen;
  }

  lemma AfterOpen(st: St, c: char, r: string, off: nat)
    requires c == '{' || c == '['
    ensures Goes(st, [c] + r, off, Opens(st, BoxKind(c), off), r, off + 1)
  {
    AfterOne(st, c, r, off);
    hide ReadOn, Opens;
  }

  lemma AfterShut(st: St, c: char, r: string, off: nat)
    requires c == '}' || c == ']'
    ensures ReadOn(st, [c] + r, off)
            == match Shuts(st, BoxKind(c), off) case None => None case Some(t) => ReadOn(t, r, off + 1)
  {
    AfterOne(st, c, r, off);
    hide ReadOn, Shuts;
  }

  lemma AfterComma(st: St, r: string, off: nat)
    ensures Goes(st, "," + r, off, Comma(st), r, off + 1)
  {
    AfterOne(st, ',', r, off);
    hide ReadOn, Comma;
  }

  lemma AfterColon(st: St, r: string, off: nat)
    ensures Goes(st, ":" + r, off, st.(super := |st.toks| - 1), r, off + 1)
  {
    AfterOne(st, ':', r, off);
    hide ReadOn;
  }

  lemma {:induction false} TextLenOf(x: string, r: string)
    requires StrOk(x)
    ensures TextLen(x + "\"" + r) == Some(|x|)
    decreases |x|
  {
    var s := x + "\"" + r;
    if x == [] {
      assert s[0] == '"';
    } else {
      var n := CharLen(x);
      assert s[n..] == x[n..] + "\"" + r;
      assert forall i | 0 <= i < |x| :: s[i] == x[i];
      TextLenOf(x[n..], r);
    }
  }

  lemma TookString(st: St, s: string, off: nat, n: nat)
    requires TextLen(s) == Some(n)
    ensures Took(st, ['"'] + s, off) == Some((Leaf(st, TStr, off + 1, off + 1 + n), n + 2))
  {
    assert (['"'] + s)[1..] == s;
    hide TextLen, Leaf;
  }

  lemma SplitQuoted(x: string, r: string)
    ensures "\"" + x + "\"" + r == ['"'] + (x + "\"" + r)
    ensures (['"'] + (x + "\"" + r))[|x| + 2..] == r
  {
  }

  lemma AfterString(st: St, x: string, r: string, off: nat)
    requires StrOk(x)
    ensures Goes(st, "\"" + x + "\"" + r, off, Leaf(st, TStr, off + 1, off + 1 + |x|), r, off + |x| + 2)
  {
    hide *;
    TextLenOf(x, r);
    SplitQuoted(x, r);
    TookString(st, x + "\"" + r, off, |x|);
    AfterTook(st, ['"'] + (x + "\"" + r), off, Leaf(st, TStr, off + 1, off + 1 + |x|), |x| + 2);
  }

  lemma AfterTook(st: St, s: string, off: nat, t: St, n: nat)
    requires s != [] && Took(st, s, off) == Some((t, n))
    ensures Goes(st, s, off, t, s[n..], off + n)
  {
    hide Took;
  }

  predicate Stops(r: string) {
    r != [] && Ends(r[0])
  }

  lemma {:induction false} BareLenOf(x: string, r: string)
    requires (forall i | 0 <= i < |x| :: PrimChar(x[i])) && Stops(r)
    ensures BareLen(x + r) == Some(|x|)
  {
    if x == [] {
      assert x + r == r;
    } else {
      assert (x + r)[1..] == x[1..] + r;
      BareLenOf(x[1..], r);
    }
  }

  lemma StartOfPrim(x: string)
    requires PrimOk(x)
    ensures x != [] && BareStart(x[0])
  {
  }

  lemma AfterBare(st: St, x: string, r: string, off: nat)
    requires PrimOk(x) && Stops(r) && TakesBare(st)
    ensures Goes(st, x + r, off, Leaf(st, TPrim, off, off + |x|), r, off + |x|)
  {
    BareLenOf(x, r);
    StartOfPrim(x);
    assert (x + r)[0] == x[0] && (x + r)[|x|..] == r;
    assert BareStart(x[0]) ==> !IsWs(x[0]);
    hide BareLen, TextLen, Leaf, PrimOk, TakesBare;
  }

  // ----- Values -----------------------------------------------------------------------------------

  // The state after a value at off.
  function Added(st: St, v: Value, off: nat): St {
    St(Bump(st.toks, st.super) + Raws(Toks(v, off)), if IsBox(v) then LastOpen(st.toks) else st.super)
  }

  // In a container whose token comes after those of b, with n values and the tokens x in it so far.
  function Held(b: seq<Raw>, kind: Kind, at: nat, n: nat, x: seq<Raw>): seq<Raw> {
    b + [Raw(kind, at, -1, n)] + x
  }

  function Filled(b: seq<Raw>, kind: Kind, at: nat, n: nat, x: seq<Raw>): St {
    St(Held(b, kind, at, n, x), |b|)
  }

  // The same, or with the key of the last value as the token that values belong to.
  predicate Loose(st: St, b: seq<Raw>, kind: Kind, at: nat, n: nat, x: seq<Raw>) {
    && st.toks == Held(b, kind, at, n, x)
    && (st.super == |b| || (|b| < st.super < |st.toks| && !st.toks[st.super].IsBox()))
  }

  lemma HeldOpens(b: seq<Raw>, kind: Kind, at: nat, n: nat, x: seq<Raw>)
    requires AllClosed(x)
    ensures LastOpen(Held(b, kind, at, n, x)) == |b|
  {
    var ts := Held(b, kind, at, n, x);
    assert ts[|b|] == Raw(kind, at, -1, n);
    assert forall j | |b| < j < |ts| :: ts[j] == x[j - |b| - 1];
    LastOpenIs(ts, |b|);
  }

  lemma CommaFills(st: St, b: seq<Raw>, kind: Kind, at: nat, n: nat, x: seq<Raw>)
    requires Loose(st, b, kind, at, n, x) && AllClosed(x) && (kind == TObj || kind == TArr)
    ensures Comma(st) == Filled(b, kind, at, n, x)
  {
    HeldOpens(b, kind, at, n, x);
    assert Held(b, kind, at, n, x)[|b|] == Raw(kind, at, -1, n);
    hide LastOpen;
  }

  // What closing the container gives.
  function Shut(b: seq<Raw>, kind: Kind, at: nat, n: nat, x: seq<Raw>, end: nat): St {
    St(b + [Raw(kind, at, end, n)] + x, LastOpen(b))
  }

  lemma ShutsHeld(st: St, b: seq<Raw>, kind: Kind, at: nat, n: nat, x: seq<Raw>, off: nat)
    requires st.toks == Held(b, kind, at, n, x) && AllClosed(x)
    ensures Shuts(st, kind, off) == Some(Shut(b, kind, at, n, x, off + 1))
  {
    HeldOpens(b, kind, at, n, x);
    var ts, us := Held(b, kind, at, n, x), b + [Raw(kind, at, off + 1, n)] + x;
    assert ts[|b| := ts[|b|].(end := off + 1)] == us;
    assert us == b + ([Raw(kind, at, off + 1, n)] + x);
    LastOpenAppend(b, [Raw(kind, at, off + 1, n)] + x);
    hide LastOpen;
  }

  lemma AddedToHeld(b: seq<Raw>, kind: Kind, at: nat, n: nat, x: seq<Raw>, v: Value, off: nat)
    requires AllClosed(x) && (kind == TObj || kind == TArr)
    ensures Added(Filled(b, kind, at, n, x), v, off) == Filled(b, kind, at, n + 1, x + Raws(Toks(v, off)))
  {
    HeldOpens(b, kind, at, n, x);
    BumpHeld(b, kind, at, n, x, Raws(Toks(v, off)));
    hide LastOpen, Toks, Bump, Held, Raws;
  }

  lemma BumpHeld(b: seq<Raw>, kind: Kind, at: nat, n: nat, x: seq<Raw>, ws: seq<Raw>)
    ensures Bump(Held(b, kind, at, n, x), |b|) + ws == Held(b, kind, at, n + 1, x + ws)
  {
    var ts := Held(b, kind, at, n, x);
    assert ts[|b|] == Raw(kind, at, -1, n);
    assert ts[|b| := Raw(kind, at, -1, n + 1)] + ws == Held(b, kind, at, n + 1, x + ws);
  }

  lemma LeafIsAdded(st: St, v: Value, off: nat)
    requires !IsBox(v)
    ensures Added(st, v, off) == match v
                                 case Str(t) => Leaf(st, TStr, off + 1, off + 1 + |t|)
                                 case Prim(t) => Leaf(st, TPrim, off, off + |t|)
                                 case _ => st
  {
    assert Raws(Toks(v, off)) == [ToRaw(Toks(v, off)[0])];
  }

  lemma OpensEmpty(st: St, kind: Kind, off: nat)
    ensures Opens(st, kind, off) == Filled(Bump(st.toks, st.super), kind, off, 0, [])
  {
  }

  // An array or object, what is in it having been taken.
  lemma BoxIsAdded(st: St, v: Value, off: nat, kind: Kind, n: nat, inner: seq<Tok>, end: nat)
    requires IsBox(v) && Toks(v, off) == [Tok(kind, off, end, n)] + inner
    ensures Shut(Bump(st.toks, st.super), kind, off, n, Raws(inner), end) == Added(st, v, off)
  {
    LastOpenBump(st.toks, st.super);
    RawsAppend([Tok(kind, off, end, n)], inner);
    assert Raws([Tok(kind, off, end, n)]) == [Raw(kind, off, end, n)];
    var b := Bump(st.toks, st.super);
    assert b + [Raw(kind, off, end, n)] + Raws(inner) == b + ([Raw(kind, off, end, n)] + Raws(inner));
    hide LastOpen, Toks, Bump;
  }

  // A value may follow: a primitive not where a key should be.
  predicate Takes(st: St, v: Value) {
    v.Prim? ==> TakesBare(st)
  }

  lemma {:induction false} AfterValue(st: St, v: Value, r: string, off: nat)
    requires Wf(v) && Stops(r) && Takes(st, v)
    ensures Goes(st, Print(v) + r, off, Added(st, v, off), r, off + |Print(v)|)
    decreases v, 1
  {
    if IsBox(v) {
      AfterBox(st, v, r, off);
    } else {
      AfterScalar(st, v, r, off);
    }
  }

  lemma AfterScalar(st: St, v: Value, r: string, off: nat)
    requires Wf(v) && !IsBox(v) && Stops(r) && Takes(st, v)
    ensures Goes(st, Print(v) + r, off, Added(st, v, off), r, off + |Print(v)|)
  {
    hide *;
    LeafIsAdded(st, v, off);
    ScalarText(v);
    if v.Prim? {
      AfterBare(st, v.text, r, off);
    } else {
      AfterString(st, v.text, r, off);
    }
  }

  lemma ScalarText(v: Value)
    requires !IsBox(v)
    ensures Print(v) == if v.Prim? then v.text else "\"" + v.text + "\""
    ensures v.Str? || v.Prim?
    ensures Wf(v) ==> if v.Prim? then PrimOk(v.text) else StrOk(v.text)
    ensures forall st | Takes(st, v) && v.Prim? :: TakesBare(st)
  {
    hide PrimOk, StrOk;
  }

  lemma {:induction false} AfterBox(st: St, v: Value, r: string, off: nat)
    requires Wf(v) && IsBox(v)
    ensures Goes(st, Print(v) + r, off, Added(st, v, off), r, off + |Print(v)|)
    decreases v, 0
  {
    hide *;
    ArrayOrObject(v);
    if v.Arr? {
      WfItems(v);
      AfterItems(Bump(st.toks, st.super), off, v.items, v.ws, r, off + 1);
      AfterArray(st, v, r, off);
    } else {
      WfMembersOf(v);
      AfterMembers(Bump(st.toks, st.super), off, v.members, v.ws, r, off + 1);
      AfterObject(st, v, r, off);
    }
    hide *;
  }

  lemma ArrayOrObject(v: Value)
    ensures IsBox(v) ==> v.Arr? || v.Obj?
    ensures v.Arr? ==> InnerItems(v) == if v.items == [] then v.ws else PrintItems(v.items)
    ensures v.Obj? ==> InnerMembers(v) == if v.members == [] then v.ws else PrintMembers(v.members)
  {
  }

  lemma WfItems(v: Value)
    requires v.Arr? && Wf(v)
    ensures AllWs(v.ws) && forall e | e in v.items :: WfItem(e)
  {
    hide WfItem, AllWs;
  }

  lemma WfMembersOf(v: Value)
    requires v.Obj? && Wf(v)
    ensures AllWs(v.ws) && forall m | m in v.members :: WfMember(m)
  {
    hide WfMember, AllWs;
  }

  function InnerItems(v: Value): string
    requires v.Arr?
  {
    if v.items == [] then v.ws else PrintItems(v.items)
  }

  function InnerMembers(v: Value): string
    requires v.Obj?
  {
    if v.members == [] then v.ws else PrintMembers(v.members)
  }

  lemma ArrayParts(v: Value, r: string, off: nat)
    requires v.Arr?
    ensures var inner := InnerItems(v);
            IsBox(v) && Print(v) + r == ['['] + (inner + ("]" + r)) && |Print(v)| == |inner| + 2
            && Toks(v, off) == [Tok(TArr, off, off + |Print(v)|, |v.items|)] + ItemToks(v.items, off + 1)
  {
    ArrayText(v.items, v.ws, r);
    assert v == Arr(v.items, v.ws);
    hide ItemToks, Print;
  }

  lemma AfterArray(st: St, v: Value, r: string, off: nat)
    requires v.Arr?
    requires var b, inner := Bump(st.toks, st.super), InnerItems(v);
             Goes(Filled(b, TArr, off, 0, []), inner + ("]" + r), off + 1,
                  Shut(b, TArr, off, |v.items|, Raws(ItemToks(v.items, off + 1)), off + |inner| + 2), r,
                  off + |inner| + 2)
    ensures Goes(st, Print(v) + r, off, Added(st, v, off), r, off + |Print(v)|)
  {
    hide *;
    ArrayParts(v, r, off);
    var b, rest, end := Bump(st.toks, st.super), InnerItems(v) + ("]" + r), off + |Print(v)|;
    OpensEmpty(st, TArr, off);
    Brackets();
    AfterOpen(st, '[', rest, off);
    Then(st, ['['] + rest, off, Filled(b, TArr, off, 0, []), rest, off + 1,
         Shut(b, TArr, off, |v.items|, Raws(ItemToks(v.items, off + 1)), end), r, end);
    BoxIsAdded(st, v, off, TArr, |v.items|, ItemToks(v.items, off + 1), end);
  }

  lemma Brackets()
    ensures BoxKind('{') == TObj && BoxKind('[') == TArr
  {
  }

  lemma ObjectParts(v: Value, r: string, off: nat)
    requires v.Obj?
    ensures var inner := InnerMembers(v);
            IsBox(v) && Print(v) + r == ['{'] + (inner + ("}" + r)) && |Print(v)| == |inner| + 2
            && Toks(v, off) == [Tok(TObj, off, off + |Print(v)|, |v.members|)] + MemberToks(v.members, off + 1)
  {
    ObjectText(v.members, v.ws, r);
    assert v == Obj(v.members, v.ws);
    hide MemberToks, Print;
  }

  lemma AfterObject(st: St, v: Value, r: string, off: nat)
    requires v.Obj?
    requires var b, inner := Bump(st.toks, st.super), InnerMembers(v);
             Goes(Filled(b, TObj, off, 0, []), inner + ("}" + r), off + 1,
                  Shut(b, TObj, off, |v.members|, Raws(MemberToks(v.members, off + 1)), off + |inner| + 2), r,
                  off + |inner| + 2)
    ensures Goes(st, Print(v) + r, off, Added(st, v, off), r, off + |Print(v)|)
  {
    hide *;
    ObjectParts(v, r, off);
    var b, rest, end := Bump(st.toks, st.super), InnerMembers(v) + ("}" + r), off + |Print(v)|;
    OpensEmpty(st, TObj, off);
    Brackets();
    AfterOpen(st, '{', rest, off);
    Then(st, ['{'] + rest, off, Filled(b, TObj, off, 0, []), rest, off + 1,
         Shut(b, TObj, off, |v.members|, Raws(MemberToks(v.members, off + 1)), end), r, end);
    BoxIsAdded(st, v, off, TObj, |v.members|, MemberToks(v.members, off + 1), end);
  }

  lemma ArrayText(items: seq<Item>, ws: string, r: string)
    ensures var inner := if items == [] then ws else PrintItems(items);
            Print(Arr(items, ws)) + r == ['['] + (inner + ("]" + r)) && |Print(Arr(items, ws))| == |inner| + 2
  {
    hide PrintItems;
  }

  lemma ObjectText(ms: seq<Member>, ws: string, r: string)
    ensures var inner := if ms == [] then ws else PrintMembers(ms);
            Print(Obj(ms, ws)) + r == ['{'] + (inner + ("}" + r)) && |Print(Obj(ms, ws))| == |inner| + 2
  {
    hide PrintMembers;
  }

  // ----- Elements ---------------------------------------------------------------------------------

  // From after the opening bracket on.
  lemma {:induction false} AfterItems(b: seq<Raw>, at: nat, es: seq<Item>, ws: string, r: string, off: nat)
    requires AllWs(ws) && forall e | e in es :: WfItem(e)
    ensures var inner := if es == [] then ws else PrintItems(es);
            Goes(Filled(b, TArr, at, 0, []), inner + ("]" + r), off,
              Shut(b, TArr, at, |es|, Raws(ItemToks(es, off)), off + |inner| + 1), r, off + |inner| + 1)
    decreases es, 4
  {
    hide Goes, Filled, Shut, PrintItems, WfItem;
    if es == [] {
      AfterWs(Filled(b, TArr, at, 0, []), ws, "]" + r, off);
      AfterShutHeld(b, TArr, at, 0, [], r, off + |ws|);
      Then(Filled(b, TArr, at, 0, []), ws + ("]" + r), off, Filled(b, TArr, at, 0, []), "]" + r, off + |ws|,
           Shut(b, TArr, at, 0, [], off + |ws| + 1), r, off + |ws| + 1);
      RawsAppend([], []);
    } else {
      AfterMoreItems(b, at, 0, [], es, r, off);
      assert [] + Raws(ItemToks(es, off)) == Raws(ItemToks(es, off));
    }
  }

  lemma AfterShutHeld(b: seq<Raw>, kind: Kind, at: nat, n: nat, x: seq<Raw>, r: string, off: nat)
    requires AllClosed(x) && (kind == TObj || kind == TArr)
    ensures Goes(Filled(b, kind, at, n, x), (if kind == TObj then "}" else "]") + r, off,
            Shut(b, kind, at, n, x, off + 1), r, off + 1)
  {
    ShutsHeld(Filled(b, kind, at, n, x), b, kind, at, n, x, off);
    AfterShut(Filled(b, kind, at, n, x), if kind == TObj then '}' else ']', r, off);
    hide ReadOn, Shut, Shuts, Held;
  }

  lemma {:induction false} AfterItem(b: seq<Raw>, at: nat, n: nat, x: seq<Raw>, e: Item, r: string, off: nat)
    requires WfItem(e) && AllClosed(x) && Stops(r)
    ensures Goes(Filled(b, TArr, at, n, x), PrintItem(e) + r, off,
            Filled(b, TArr, at, n + 1, x + Raws(Toks(e.val, off + |e.pre|))), r, off + |PrintItem(e)|)
    decreases e, 2
  {
    var st, p := Filled(b, TArr, at, n, x), off + |e.pre|;
    ItemText(e, r);
    TakesInArray(b, at, n, x);
    hide *;
    StopsAfterWs(e.post, r);
    AddedToHeld(b, TArr, at, n, x, e.val, p);
    TakesAny(st, e.val);
    var s, u, q := Print(e.val) + (e.post + r), Added(st, e.val, p), p + |Print(e.val)|;
    AfterWs(st, e.pre, s, off);
    AfterValue(st, e.val, e.post + r, p);
    AfterWs(u, e.post, r, q);
    Then(st, e.pre + s, off, st, s, p, u, e.post + r, q);
    Then(st, e.pre + s, off, u, e.post + r, q, u, r, q + |e.post|);
  }

  lemma ItemText(e: Item, r: string)
    ensures PrintItem(e) + r == e.pre + (Print(e.val) + (e.post + r))
            && |PrintItem(e)| == |e.pre| + |Print(e.val)| + |e.post|
    ensures WfItem(e) ==> AllWs(e.pre) && Wf(e.val) && AllWs(e.post)
  {
    hide Print, Wf, AllWs;
  }

  lemma TakesInArray(b: seq<Raw>, at: nat, n: nat, x: seq<Raw>)
    ensures TakesBare(Filled(b, TArr, at, n, x))
  {
    assert Held(b, TArr, at, n, x)[|b|].kind == TArr;
  }

  lemma TakesAny(st: St, v: Value)
    requires TakesBare(st)
    ensures Takes(st, v)
  {
  }

  lemma StopsAfterWs(w: string, r: string)
    requires AllWs(w) && Stops(r)
    ensures Stops(w + r)
  {
    assert w != [] ==> IsWs(w[0]);
  }

  lemma {:induction false} AfterMoreItems(b: seq<Raw>, at: nat, n: nat, x: seq<Raw>, es: seq<Item>, r: string, off: nat)
    requires es != [] && AllClosed(x) && forall e | e in es :: WfItem(e)
    ensures Goes(Filled(b, TArr, at, n, x), PrintItems(es) + ("]" + r), off,
                 Shut(b, TArr, at, n + |es|, x + Raws(ItemToks(es, off)), off + |PrintItems(es)| + 1), r,
                 off + |PrintItems(es)| + 1)
    decreases es, 3
  {
    hide *;
    assert es[0] in es;
    if |es| == 1 {
      AfterLastItem(b, at, n, x, es, r, off);
    } else {
      assert forall e | e in es[1..] :: e in es;
      ClosedPlus(x, Toks(es[0].val, off + |es[0].pre|));
      var y, q := Raws(Toks(es[0].val, off + |es[0].pre|)), off + |PrintItem(es[0])| + 1;
      AfterItem(b, at, n, x, es[0], "," + (PrintItems(es[1..]) + ("]" + r)),
        off) by { CommaStops(PrintItems(es[1..]) + ("]" + r)); }
      AfterMoreItems(b, at, n + 1, x + y, es[1..], r, q);
      AfterItemThen(b, at, n, x, es, r, off);
    }
  }

  lemma {:induction false} AfterLastItem(b: seq<Raw>, at: nat, n: nat, x: seq<Raw>, es: seq<Item>, r: string, off: nat)
    requires |es| == 1 && AllClosed(x) && WfItem(es[0])
    ensures Goes(Filled(b, TArr, at, n, x), PrintItems(es) + ("]" + r), off,
                 Shut(b, TArr, at, n + |es|, x + Raws(ItemToks(es, off)), off + |PrintItems(es)| + 1), r,
                 off + |PrintItems(es)| + 1)
    decreases es, 2
  {
    hide *;
    var y, q := Raws(Toks(es[0].val, off + |es[0].pre|)), off + |PrintItem(es[0])|;
    ClosedPlus(x, Toks(es[0].val, off + |es[0].pre|));
    BraceStops(r);
    OneItem(es, off);
    AfterItem(b, at, n, x, es[0], "]" + r, off);
    AfterShutHeld(b, TArr, at, n + 1, x + y, r, q);
    Then(Filled(b, TArr, at, n, x), PrintItem(es[0]) + ("]" + r), off, Filled(b, TArr, at, n + 1, x + y), "]" + r, q,
         Shut(b, TArr, at, n + 1, x + y, q + 1), r, q + 1);
  }

  lemma AfterItemThen(b: seq<Raw>, at: nat, n: nat, x: seq<Raw>, es: seq<Item>, r: string, off: nat)
    requires |es| > 1 && AllClosed(x)
    requires var y, q, rest := Raws(Toks(es[0].val, off + |es[0].pre|)), off + |PrintItem(es[0])| + 1,
             PrintItems(es[1..]) + ("]" + r);
             && Goes(Filled(b, TArr, at, n, x), PrintItem(es[0]) + ("," + rest), off,
                Filled(b, TArr, at, n + 1, x + y), "," + rest, q - 1)
             && Goes(Filled(b, TArr, at, n + 1, x + y), rest, q,
                     Shut(b, TArr, at, n + 1 + |es[1..]|, x + y + Raws(ItemToks(es[1..], q)),
                       q + |PrintItems(es[1..])| + 1), r,
                     q + |PrintItems(es[1..])| + 1)
    ensures Goes(Filled(b, TArr, at, n, x), PrintItems(es) + ("]" + r), off,
                 Shut(b, TArr, at, n + |es|, x + Raws(ItemToks(es, off)), off + |PrintItems(es)| + 1), r,
                 off + |PrintItems(es)| + 1)
  {
    hide *;
    var y, q, rest := Raws(Toks(es[0].val, off + |es[0].pre|)), off + |PrintItem(es[0])| + 1,
        PrintItems(es[1..]) + ("]" + r);
    var st, t, end := Filled(b, TArr, at, n, x), Filled(b, TArr, at, n + 1, x + y), q + |PrintItems(es[1..])| + 1;
    var all := PrintItem(es[0]) + ("," + rest);
    ClosedPlus(x, Toks(es[0].val, off + |es[0].pre|));
    MoreItems(es, off);
    JoinComma3(PrintItem(es[0]), PrintItems(es[1..]), "]" + r);
    AssocRaws(x, y, Raws(ItemToks(es[1..], q)));
    AfterCommaHeld(b, TArr, at, n + 1, x + y, rest, q - 1);
    Then(st, all, off, t, "," + rest, q - 1, t, rest, q);
    Then(st, all, off, t, rest, q, Shut(b, TArr, at, n + 1 + |es[1..]|, x + y + Raws(ItemToks(es[1..], q)), end), r,
      end);
  }

  lemma ClosedPlus(x: seq<Raw>, ts: seq<Tok>)
    requires AllClosed(x)
    ensures AllClosed(x + Raws(ts))
  {
    RawsAreClosed(ts);
  }

  lemma CommaStops(r: string)
    ensures Stops("," + r)
  {
  }

  lemma JoinComma3(a: string, b: string, c: string)
    ensures (a + "," + b) + c == a + ("," + (b + c)) && |a + "," + b| == |a| + 1 + |b|
  {
  }

  lemma AssocRaws(x: seq<Raw>, y: seq<Raw>, z: seq<Raw>)
    ensures x + y + z == x + (y + z)
  {
  }

  lemma AfterCommaHeld(b: seq<Raw>, kind: Kind, at: nat, n: nat, x: seq<Raw>, r: string, off: nat)
    requires AllClosed(x) && (kind == TObj || kind == TArr)
    ensures Goes(Filled(b, kind, at, n, x), "," + r, off, Filled(b, kind, at, n, x), r, off + 1)
  {
    CommaFills(Filled(b, kind, at, n, x), b, kind, at, n, x);
    AfterComma(Filled(b, kind, at, n, x), r, off);
    hide ReadOn, Held, Comma;
  }

  lemma OneItem(es: seq<Item>, off: nat)
    requires |es| == 1
    ensures PrintItems(es) == PrintItem(es[0]) && Raws(ItemToks(es, off)) == Raws(Toks(es[0].val, off + |es[0].pre|))
  {
    assert es[1..] == [] && ItemToks(es[1..], off + |PrintItem(es[0])| + 1) == [];
    assert Toks(es[0].val, off + |es[0].pre|) + [] == Toks(es[0].val, off + |es[0].pre|);
    hide Toks, PrintItem;
  }

  lemma MoreItems(es: seq<Item>, off: nat)
    requires |es| > 1
    ensures PrintItems(es) == PrintItem(es[0]) + "," + PrintItems(es[1..])
    ensures Raws(ItemToks(es, off))
            == Raws(Toks(es[0].val, off + |es[0].pre|)) + Raws(ItemToks(es[1..], off + |PrintItem(es[0])| + 1))
  {
    RawsAppend(Toks(es[0].val, off + |es[0].pre|), ItemToks(es[1..], off + |PrintItem(es[0])| + 1));
    hide Toks, PrintItem;
  }

  // ----- Members ----------------------------------------------------------------------------------

  // The state after a member: its key has one value.
  function Joined(st: St, m: Member, off: nat): St {
    St(Bump(st.toks, st.super) + [ToRaw(KeyTok(m, off))] + Raws(Toks(m.val, off + HeadLen(m))),
       if IsBox(m.val) then LastOpen(st.toks) else |st.toks|)
  }

  lemma {:induction false} AfterMember(st: St, m: Member, r: string, off: nat)
    requires WfMember(m) && Stops(r)
    ensures Goes(st, PrintMember(m) + r, off, Joined(st, m, off), r, off + |PrintMember(m)|)
    decreases m, 2
  {
    hide *;
    var k, p := off + |m.pre|, off + HeadLen(m);
    var key := Leaf(st, TStr, k + 1, k + 1 + |m.key|);
    var val := key.(super := |key.toks| - 1);
    var d := Print(m.val) + (m.post + r);
    MemberParts(m);
    KeyThenValue(st, m, off);
    StopsAfterWs(m.post, r);
    MemberSplit(m, r);
    TakesAny(val, m.val);
    AfterKey(st, m, d, off);
    AfterValue(val, m.val, m.post + r, p);
    var u, q := Added(val, m.val, p), p + |Print(m.val)|;
    AfterWs(u, m.post, r, q);
    var s := m.pre + ("\"" + m.key + "\"" + (m.colon + (":" + (m.mid + d))));
    Then(st, s, off, val, d, p, u, m.post + r, q);
    Then(st, s, off, u, m.post + r, q, u, r, q + |m.post|);
  }

  lemma AfterKey(st: St, m: Member, d: string, off: nat)
    requires WfMember(m)
    ensures var key := Leaf(st, TStr, off + |m.pre| + 1, off + |m.pre| + 1 + |m.key|);
            Goes(st, m.pre + ("\"" + m.key + "\"" + (m.colon + (":" + (m.mid + d)))), off,
                 key.(super := |key.toks| - 1), d, off + HeadLen(m))
  {
    MemberParts(m);
    MemberSplit(m, d);
    hide *;
    var k := off + |m.pre|;
    var key := Leaf(st, TStr, k + 1, k + 1 + |m.key|);
    var val := key.(super := |key.toks| - 1);
    var s3 := m.mid + d;
    var s2 := ":" + s3;
    var s1 := m.colon + s2;
    var s0 := "\"" + m.key + "\"" + s1;
    var n := k + |m.key| + 2;
    AfterWs(st, m.pre, s0, off);
    AfterString(st, m.key, s1, k);
    AfterWs(key, m.colon, s2, n);
    AfterColon(key, s3, n + |m.colon|);
    AfterWs(val, m.mid, d, n + |m.colon| + 1);
    Then(st, m.pre + s0, off, st, s0, k, key, s1, n);
    Then(st, m.pre + s0, off, key, s1, n, key, s2, n + |m.colon|);
    Then(st, m.pre + s0, off, key, s2, n + |m.colon|, val, s3, n + |m.colon| + 1);
    Then(st, m.pre + s0, off, val, s3, n + |m.colon| + 1, val, d, n + |m.colon| + 1 + |m.mid|);
  }

  lemma MemberParts(m: Member)
    ensures WfMember(m) ==> AllWs(m.pre) && StrOk(m.key) && AllWs(m.colon) && AllWs(m.mid) && Wf(m.val) && AllWs(m.post)
  {
    hide AllWs, StrOk, Wf;
  }

  lemma MemberSplit(m: Member, r: string)
    ensures PrintMember(m) + r
            == m.pre + ("\"" + m.key + "\"" + (m.colon + (":" + (m.mid + (Print(m.val) + (m.post + r))))))
    ensures |PrintMember(m)| == HeadLen(m) + |Print(m.val)| + |m.post|
    ensures HeadLen(m) == |m.pre| + |m.key| + 3 + |m.colon| + |m.mid|
  {
    hide Print;
    RegroupMember(m.pre, m.key, m.colon, m.mid, Print(m.val), m.post, r);
    var d := Print(m.val) + (m.post + r);
    var x := m.colon + (":" + (m.mid + d));
    assert "\"" + (m.key + "\"" + x) == "\"" + m.key + "\"" + x;
  }

  // The key's token, a colon, and the value.
  lemma KeyThenValue(st: St, m: Member, off: nat)
    ensures var key := Leaf(st, TStr, off + |m.pre| + 1, off + |m.pre| + 1 + |m.key|);
            var val := key.(super := |key.toks| - 1);
            TakesBare(val) && Added(val, m.val, off + HeadLen(m)) == Joined(st, m, off)
  {
    var k := off + |m.pre| + 1;
    var b := Bump(st.toks, st.super);
    var key := Leaf(st, TStr, k, k + |m.key|);
    var val := key.(super := |key.toks| - 1);
    assert key.toks == b + [Raw(TStr, k, k + |m.key|, 0)];
    assert Bump(val.toks, val.super) == b + [Raw(TStr, k, k + |m.key|, 1)];
    LastOpenAppend(b, [Raw(TStr, k, k + |m.key|, 0)]);
    LastOpenBump(st.toks, st.super);
    hide LastOpen, Toks, HeadLen;
  }

  // A member in an object or array.
  lemma JoinedToHeld(b: seq<Raw>, kind: Kind, at: nat, n: nat, x: seq<Raw>, m: Member, off: nat)
    requires AllClosed(x) && (kind == TObj || kind == TArr)
    ensures Loose(Joined(Filled(b, kind, at, n, x), m, off), b, kind, at, n + 1, x + OneToks(m, off))
    ensures AllClosed(x + OneToks(m, off))
  {
    HeldOpens(b, kind, at, n, x);
    var ts, ws := Held(b, kind, at, n, x), OneToks(m, off);
    RawsAreClosed([KeyTok(m, off)] + Toks(m.val, off + HeadLen(m)));
    RawsAppend([KeyTok(m, off)], Toks(m.val, off + HeadLen(m)));
    assert Raws([KeyTok(m, off)]) == [ToRaw(KeyTok(m, off))];
    assert ts[|b|] == Raw(kind, at, -1, n);
    var us := ts[|b| := Raw(kind, at, -1, n + 1)] + ws;
    assert us == Held(b, kind, at, n + 1, x + ws);
    assert us[|ts|] == ws[0] == ToRaw(KeyTok(m, off));
    hide LastOpen, Toks, HeadLen;
    assert Joined(Filled(b, kind, at, n, x), m, off).toks == us;
  }

  // The tokens of one member.
  function OneToks(m: Member, off: nat): seq<Raw> {
    [ToRaw(KeyTok(m, off))] + Raws(Toks(m.val, off + HeadLen(m)))
  }

  lemma AfterShutLoose(st: St, b: seq<Raw>, kind: Kind, at: nat, n: nat, x: seq<Raw>, r: string, off: nat)
    requires Loose(st, b, kind, at, n, x) && AllClosed(x) && (kind == TObj || kind == TArr)
    ensures Goes(st, (if kind == TObj then "}" else "]") + r, off, Shut(b, kind, at, n, x, off + 1), r, off + 1)
  {
    ShutsHeld(st, b, kind, at, n, x, off);
    AfterShut(st, if kind == TObj then '}' else ']', r, off);
    hide ReadOn, Shut, Shuts, Held;
  }

  lemma AfterCommaLoose(st: St, b: seq<Raw>, kind: Kind, at: nat, n: nat, x: seq<Raw>, r: string, off: nat)
    requires Loose(st, b, kind, at, n, x) && AllClosed(x) && (kind == TObj || kind == TArr)
    ensures Goes(st, "," + r, off, Filled(b, kind, at, n, x), r, off + 1)
  {
    CommaFills(st, b, kind, at, n, x);
    AfterComma(st, r, off);
    hide ReadOn, Held, Comma;
  }

  lemma {:induction false} AfterMembers(b: seq<Raw>, at: nat, ms: seq<Member>, ws: string, r: string, off: nat)
    requires AllWs(ws) && forall m | m in ms :: WfMember(m)
    ensures var inner := if ms == [] then ws else PrintMembers(ms);
            Goes(Filled(b, TObj, at, 0, []), inner + ("}" + r), off,
              Shut(b, TObj, at, |ms|, Raws(MemberToks(ms, off)), off + |inner| + 1), r, off + |inner| + 1)
    decreases ms, 4
  {
    hide Goes, Filled, Shut, PrintMembers, WfMember;
    if ms == [] {
      AfterWs(Filled(b, TObj, at, 0, []), ws, "}" + r, off);
      AfterShutHeld(b, TObj, at, 0, [], r, off + |ws|);
      Then(Filled(b, TObj, at, 0, []), ws + ("}" + r), off, Filled(b, TObj, at, 0, []), "}" + r, off + |ws|,
           Shut(b, TObj, at, 0, [], off + |ws| + 1), r, off + |ws| + 1);
      RawsAppend([], []);
    } else {
      AfterMoreMembers(b, at, 0, [], ms, r, off);
      assert [] + Raws(MemberToks(ms, off)) == Raws(MemberToks(ms, off));
    }
  }

  lemma {:induction false} AfterMoreMembers(b: seq<Raw>, at: nat, n: nat, x: seq<Raw>, ms: seq<Member>, r: string,
      off: nat)
    requires ms != [] && AllClosed(x) && forall m | m in ms :: WfMember(m)
    ensures Goes(Filled(b, TObj, at, n, x), PrintMembers(ms) + ("}" + r), off,
                 Shut(b, TObj, at, n + |ms|, x + Raws(MemberToks(ms, off)), off + |PrintMembers(ms)| + 1), r,
                 off + |PrintMembers(ms)| + 1)
    decreases ms, 3
  {
    hide *;
    assert ms[0] in ms;
    if |ms| == 1 {
      AfterLastMember(b, at, n, x, ms, r, off);
    } else {
      assert forall m | m in ms[1..] :: m in ms;
      ClosedOne(x, ms[0], off);
      var y, q := OneToks(ms[0], off), off + |PrintMember(ms[0])| + 1;
      AfterFirstMember(b, at, n, x, ms[0], PrintMembers(ms[1..]) + ("}" + r), off);
      AfterMoreMembers(b, at, n + 1, x + y, ms[1..], r, q);
      AfterMemberThen(b, at, n, x, ms, r, off);
    }
  }

  lemma ClosedOne(x: seq<Raw>, m: Member, off: nat)
    requires AllClosed(x)
    ensures AllClosed(x + OneToks(m, off))
  {
    RawsAreClosed(Toks(m.val, off + HeadLen(m)));
  }

  lemma {:induction false} AfterFirstMember(b: seq<Raw>, at: nat, n: nat, x: seq<Raw>, m: Member, rest: string,
      off: nat)
    requires WfMember(m)
    ensures Goes(Filled(b, TObj, at, n, x), PrintMember(m) + ("," + rest), off,
            Joined(Filled(b, TObj, at, n, x), m, off),
                 "," + rest, off + |PrintMember(m)|)
    decreases m, 3
  {
    CommaStops(rest);
    AfterMember(Filled(b, TObj, at, n, x), m, "," + rest, off);
    hide *;
  }

  lemma {:induction false} AfterLastMember(b: seq<Raw>, at: nat, n: nat, x: seq<Raw>, ms: seq<Member>, r: string,
      off: nat)
    requires |ms| == 1 && AllClosed(x) && WfMember(ms[0])
    ensures Goes(Filled(b, TObj, at, n, x), PrintMembers(ms) + ("}" + r), off,
                 Shut(b, TObj, at, n + |ms|, x + Raws(MemberToks(ms, off)), off + |PrintMembers(ms)| + 1), r,
                 off + |PrintMembers(ms)| + 1)
    decreases ms, 2
  {
    hide *;
    var y, q, st := OneToks(ms[0], off), off + |PrintMember(ms[0])|, Joined(Filled(b, TObj, at, n, x), ms[0], off);
    JoinedToHeld(b, TObj, at, n, x, ms[0], off);
    OneMemberToks(ms, off);
    BraceStops(r);
    AfterMember(Filled(b, TObj, at, n, x), ms[0], "}" + r, off);
    AfterShutLoose(st, b, TObj, at, n + 1, x + y, r, q);
    Then(Filled(b, TObj, at, n, x), PrintMember(ms[0]) + ("}" + r), off, st, "}" + r, q,
         Shut(b, TObj, at, n + 1, x + y, q + 1), r, q + 1);
  }

  lemma AfterMemberThen(b: seq<Raw>, at: nat, n: nat, x: seq<Raw>, ms: seq<Member>, r: string, off: nat)
    requires |ms| > 1 && AllClosed(x)
    requires var y, q, rest := OneToks(ms[0], off), off + |PrintMember(ms[0])| + 1, PrintMembers(ms[1..]) + ("}" + r);
             && Goes(Filled(b, TObj, at, n, x), PrintMember(ms[0]) + ("," + rest), off,
                     Joined(Filled(b, TObj, at, n, x), ms[0], off), "," + rest, q - 1)
             && Goes(Filled(b, TObj, at, n + 1, x + y), rest, q,
                     Shut(b, TObj, at, n + 1 + |ms[1..]|, x + y + Raws(MemberToks(ms[1..], q)),
                       q + |PrintMembers(ms[1..])| + 1), r,
                     q + |PrintMembers(ms[1..])| + 1)
    ensures Goes(Filled(b, TObj, at, n, x), PrintMembers(ms) + ("}" + r), off,
                 Shut(b, TObj, at, n + |ms|, x + Raws(MemberToks(ms, off)), off + |PrintMembers(ms)| + 1), r,
                 off + |PrintMembers(ms)| + 1)
  {
    hide *;
    var y, q, rest := OneToks(ms[0], off), off + |PrintMember(ms[0])| + 1, PrintMembers(ms[1..]) + ("}" + r);
    var st, u, t := Filled(b, TObj, at, n, x), Joined(Filled(b, TObj, at, n, x), ms[0], off),
        Filled(b, TObj, at, n + 1, x + y);
    var end, all := q + |PrintMembers(ms[1..])| + 1, PrintMember(ms[0]) + ("," + rest);
    JoinedToHeld(b, TObj, at, n, x, ms[0], off);
    MoreMemberToks(ms, off);
    JoinComma3(PrintMember(ms[0]), PrintMembers(ms[1..]), "}" + r);
    AssocRaws(x, y, Raws(MemberToks(ms[1..], q)));
    AfterCommaLoose(u, b, TObj, at, n + 1, x + y, rest, q - 1);
    Then(st, all, off, u, "," + rest, q - 1, t, rest, q);
    Then(st, all, off, t, rest, q, Shut(b, TObj, at, n + 1 + |ms[1..]|, x + y + Raws(MemberToks(ms[1..], q)), end), r,
      end);
  }

  lemma BraceStops(r: string)
    ensures Stops("}" + r) && Stops("]" + r)
  {
  }

  lemma MemberToksCons(ms: seq<Member>, off: nat)
    requires ms != []
    ensures Raws(MemberToks(ms, off)) == OneToks(ms[0], off) + Raws(MemberToks(ms[1..], off + |PrintMember(ms[0])| + 1))
  {
    var k, v, r := [KeyTok(ms[0], off)], Toks(ms[0].val, off + HeadLen(ms[0])),
        MemberToks(ms[1..], off + |PrintMember(ms[0])| + 1);
    RawsAppend(k + v, r);
    RawsAppend(k, v);
    assert Raws(k) == [ToRaw(k[0])];
    hide Toks, PrintMember, HeadLen;
  }

  lemma OneMemberToks(ms: seq<Member>, off: nat)
    requires |ms| == 1
    ensures PrintMembers(ms) == PrintMember(ms[0]) && Raws(MemberToks(ms, off)) == OneToks(ms[0], off)
  {
    MemberToksCons(ms, off);
    assert ms[1..] == [] && MemberToks(ms[1..], off + |PrintMember(ms[0])| + 1) == [];
    RawsAppend([], []);
    hide OneToks, PrintMember;
  }

  lemma MoreMemberToks(ms: seq<Member>, off: nat)
    requires |ms| > 1
    ensures PrintMembers(ms) == PrintMember(ms[0]) + "," + PrintMembers(ms[1..])
    ensures Raws(MemberToks(ms, off)) == OneToks(ms[0], off) + Raws(MemberToks(ms[1..], off + |PrintMember(ms[0])| + 1))
  {
    MemberToksCons(ms, off);
    hide OneToks, PrintMember;
  }

  // ----- Documents --------------------------------------------------------------------------------

  // Every text of an object or array is taken, and its tokens are those of the tree.
  lemma TokensOfText(d: Doc)
    requires WfDoc(d) && IsBox(d.root)
    ensures Tokenized(PrintDoc(d)) == Some(Raws(Toks(d.root, |d.pre|)))
  {
    hide *;
    var st := St([], -1);
    var n, u := |d.pre| + |Print(d.root)|, Added(st, d.root, |d.pre|);
    PartsOfText(d);
    RootIsAll(d.root, |d.pre|);
    AfterWs(st, d.pre, Print(d.root) + d.post, 0);
    AfterBox(st, d.root, d.post, |d.pre|);
    AfterWs(u, d.post, "", n);
    Then(st, PrintDoc(d), 0, st, Print(d.root) + d.post, |d.pre|, u, d.post, n);
    Then(st, PrintDoc(d), 0, u, d.post, n, u, "", n + |d.post|);
    EndsAt(st, PrintDoc(d), 0, u, n + |d.post|);
    TokenizedIs(PrintDoc(d));
  }

  lemma PartsOfText(d: Doc)
    ensures PrintDoc(d) == d.pre + (Print(d.root) + d.post) && d.post + "" == d.post
    ensures WfDoc(d) ==> AllWs(d.pre) && Wf(d.root) && AllWs(d.post)
  {
    Assoc3(d.pre, Print(d.root), d.post);
    hide Print, Wf, AllWs;
  }

  lemma RootIsAll(v: Value, off: nat)
    requires IsBox(v)
    ensures Added(St([], -1), v, off).toks == Raws(Toks(v, off)) && LastOpen(Raws(Toks(v, off))) < 0
  {
    RawsAreClosed(Toks(v, off));
    LastOpenIs(Raws(Toks(v, off)), -1);
    assert [] + Raws(Toks(v, off)) == Raws(Toks(v, off));
    hide Toks, LastOpen;
  }

  lemma TokenizedIs(s: string)
    ensures Tokenized(s) == ReadOn(St([], -1), s, 0)
  {
    hide ReadOn;
  }

  lemma EndsAt(st: St, s: string, off: nat, t: St, n: nat)
    requires Goes(st, s, off, t, "", n) && LastOpen(t.toks) < 0
    ensures ReadOn(st, s, off) == Some(t.toks)
  {
    AfterNothing(t, n);
    hide ReadOn;
  }

  lemma Assoc3(a: string, b: string, c: string)
    ensures a + b + c == a + (b + c)
  {
  }
}
