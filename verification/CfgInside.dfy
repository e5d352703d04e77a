/** Where a new parameter id1.id2 of _cfg_set_int or _cfg_set_string in cfg/cfg.cpp ends up when the
    value of id1 is an array, a number or a string: what a walk sees there. */
module CfgInside {
  import opened Wrappers
  import opened JsonText
  import opened CfgText
  import opened CfgSet
  import opened CfgDoc
  import opened CfgExact
  import opened CfgCreate
  import opened CfgWalk
  import opened CfgLookup
  import opened CfgFind
  import opened CfgPlaces
  import opened CfgStray
  import opened Jsmn
  import opened JsmnTree
  import opened JsmnRead
  import opened JsmnDoc
  import opened JsmnOrder
  import opened CfgReads
  import opened CfgReadsIff
  import opened CfgCreated

  // ----- An array with a member in front of its elements ------------------------------------------

  function FrontOfRoot(d: Doc, j: nat): seq<Raw>
    requires d.root.Obj? && j <= |d.root.members|
  {
    Raws(MemberToks(d.root.members[..j], |d.pre| + 1))
  }

  // The tokens up to the key of member j.
  function UpToKey(d: Doc, j: nat): seq<Raw>
    requires d.root.Obj? && j < |d.root.members|
  {
    FrontOfRoot(d, j) + [ToRaw(KeyTok(d.root.members[j], |d.pre| + 1 + |Lead(d.root.members[..j])|))]
  }

  // The tokens in the root when the array is complete.
  function WithArray(d: Doc, j: nat, m: Member, x: seq<Raw>, end: nat): seq<Raw>
    requires d.root.Obj? && j < |d.root.members| && d.root.members[j].val.Arr?
  {
    var n := |BeforeValue(d, j)|;
    UpToKey(d, j) + ([Raw(TArr, n, end, 1 + |d.root.members[j].val.items|)] + (OneToks(m, n + 1) + x))
  }

  lemma ArrayOpens(d: Doc, j: nat, r: string)
    requires WfDoc(d) && d.root.Obj? && j < |d.root.members|
    ensures var n, b := |BeforeValue(d, j)|, Bump(ValueState(d, j).toks, ValueState(d, j).super);
            Goes(Start, BeforeValue(d, j) + ("[" + r), 0, Filled(b, TArr, n, 0, []), r, n + 1)
  {
    hide *;
    var st, n := ValueState(d, j), |BeforeValue(d, j)|;
    AfterBefore(d, j, "[" + r);
    OpenArray(st, r, n);
    Then(Start, BeforeValue(d, j) + ("[" + r), 0, st, "[" + r, n, Filled(Bump(st.toks, st.super), TArr, n, 0, []), r,
      n + 1);
  }

  lemma OpenArray(st: St, r: string, n: nat)
    ensures Goes(st, "[" + r, n, Filled(Bump(st.toks, st.super), TArr, n, 0, []), r, n + 1)
  {
    AfterOpen(st, '[', r, n);
    OpensEmpty(st, TArr, n);
    assert ['['] == "[";
    hide Goes, Bump;
  }

  lemma NoneOpen()
    ensures AllClosed([])
  {
  }

  // The member and its comma.
  lemma AfterNew(b: seq<Raw>, n: nat, m: Member, r: string, off: nat)
    requires WfMember(m)
    ensures Goes(Filled(b, TArr, n, 0, []), PrintMember(m) + ("," + r), off, Filled(b, TArr, n, 1, OneToks(m, off)), r,
                 off + |PrintMember(m)| + 1)
    ensures AllClosed(OneToks(m, off))
  {
    hide *;
    var st, q := Joined(Filled(b, TArr, n, 0, []), m, off), off + |PrintMember(m)|;
    NoneOpen();
    CommaStops(r);
    AfterMember(Filled(b, TArr, n, 0, []), m, "," + r, off);
    JoinedToHeld(b, TArr, n, 0, [], m, off);
    NoRaws(OneToks(m, off));
    AfterCommaLoose(st, b, TArr, n, 1, OneToks(m, off), r, q);
    Then(Filled(b, TArr, n, 0, []), PrintMember(m) + ("," + r), off, st, "," + r, q,
      Filled(b, TArr, n, 1, OneToks(m, off)), r, q + 1);
  }

  // The text, from the array's bracket on.
  function ArrayText(m: Member, v: Value, r: string): string
    requires v.Arr?
  {
    PrintMember(m) + ("," + (InnerItems(v) + ("]" + r)))
  }

  lemma AfterNewArray(b: seq<Raw>, n: nat, m: Member, v: Value, r: string) returns (x: seq<Raw>, end: nat)
    requires WfMember(m) && v.Arr? && Wf(v)
    ensures Goes(Filled(b, TArr, n, 0, []), ArrayText(m, v, r), n + 1,
            Shut(b, TArr, n, 1 + |v.items|, OneToks(m, n + 1) + x, end),
                 r, end)
    ensures AllClosed(OneToks(m, n + 1) + x) && end == n + 1 + |ArrayText(m, v, r)| - |r|
  {
    hide *;
    var rest, q := InnerItems(v) + ("]" + r), n + 1 + |PrintMember(m)| + 1;
    x, end := Raws(ItemToks(v.items, q)), q + |InnerItems(v)| + 1;
    AfterNew(b, n, m, rest, n + 1);
    AfterElements(b, n, OneToks(m, n + 1), v, r, q);
    ClosedPlus(OneToks(m, n + 1), ItemToks(v.items, q));
    ArrayTextIs(m, v, r);
    Then(Filled(b, TArr, n, 0, []), PrintMember(m) + ("," + rest), n + 1, Filled(b, TArr, n, 1, OneToks(m, n + 1)),
      rest, q,
         Shut(b, TArr, n, 1 + |v.items|, OneToks(m, n + 1) + x, end), r, end);
  }

  lemma ArrayTextIs(m: Member, v: Value, r: string)
    requires v.Arr?
    ensures ArrayText(m, v, r) == PrintMember(m) + ("," + (InnerItems(v) + ("]" + r)))
    ensures |ArrayText(m, v, r)| == |PrintMember(m)| + 1 + |InnerItems(v)| + 1 + |r|
  {
    hide PrintMember, InnerItems;
  }

  // Then the object goes on.
  lemma ShutIsFilled(d: Doc, j: nat, m: Member, x: seq<Raw>, end: nat)
    requires d.root.Obj? && j < |d.root.members| && d.root.members[j].val.Arr?
             && AllClosed(OneToks(m, |BeforeValue(d, j)| + 1) + x)
    ensures var b, n := Bump(ValueState(d, j).toks, ValueState(d, j).super), |BeforeValue(d, j)|;
            Shut(b, TArr, n, 1 + |d.root.members[j].val.items|, OneToks(m, n + 1) + x, end)
            == Filled([], TObj, |d.pre|, j + 1, WithArray(d, j, m, x, end))
    ensures AllClosed(WithArray(d, j, m, x, end))
  {
    hide *;
    var n := |BeforeValue(d, j)|;
    KeyRaw(d, j);
    KeyClosed(d, j);
    WithArrayIs(d, j, m, x, end);
    ShutInRoot(|d.pre|, j + 1, UpToKey(d, j), n, 1 + |d.root.members[j].val.items|, OneToks(m, n + 1) + x, end);
  }

  lemma WithArrayIs(d: Doc, j: nat, m: Member, x: seq<Raw>, end: nat)
    requires d.root.Obj? && j < |d.root.members| && d.root.members[j].val.Arr?
    ensures var n := |BeforeValue(d, j)|;
            WithArray(d, j, m, x, end)
              == UpToKey(d, j) + ([Raw(TArr, n, end, 1 + |d.root.members[j].val.items|)] + (OneToks(m, n + 1) + x))
  {
    hide UpToKey, OneToks, BeforeValue;
  }

  lemma KeyClosed(d: Doc, j: nat)
    requires d.root.Obj? && j < |d.root.members|
    ensures AllClosed(UpToKey(d, j))
  {
    RawsAreClosed(MemberToks(d.root.members[..j], |d.pre| + 1));
    hide MemberToks, Raws, Lead;
  }

  lemma ShutInRoot(at: nat, k: nat, y: seq<Raw>, n: nat, size: nat, x: seq<Raw>, end: nat)
    requires AllClosed(y) && AllClosed(x)
    ensures Shut([Raw(TObj, at, -1, k)] + y, TArr, n, size, x, end)
            == Filled([], TObj, at, k, y + ([Raw(TArr, n, end, size)] + x))
    ensures AllClosed(y + ([Raw(TArr, n, end, size)] + x))
  {
    var b := [Raw(TObj, at, -1, k)] + y;
    LastOpenIs(b, 0);
    assert b + [Raw(TArr, n, end, size)] + x == [] + [Raw(TObj, at, -1, k)] + (y + ([Raw(TArr, n, end, size)] + x));
    hide LastOpen;
  }

  lemma BumpLast(x: seq<Raw>, a: nat, e: nat)
    ensures Bump(x + [Raw(TStr, a, e, 0)], |x|) == x + [Raw(TStr, a, e, 1)]
  {
  }

  lemma HeldInRoot(at: nat, n: nat, x: seq<Raw>, y: seq<Raw>)
    ensures Held([], TObj, at, n, x) + y == [Raw(TObj, at, -1, n)] + (x + y)
  {
    assert Held([], TObj, at, n, x) == [Raw(TObj, at, -1, n)] + x;
  }

  lemma UpToKeyIs(d: Doc, j: nat)
    requires d.root.Obj? && j < |d.root.members|
    ensures var m, q := d.root.members[j], |d.pre| + 1 + |Lead(d.root.members[..j])|;
            UpToKey(d, j) == Raws(MemberToks(d.root.members[..j], |d.pre| + 1))
                             + [Raw(TStr, q + |m.pre| + 1, q + |m.pre| + 1 + |m.key|, 1)]
  {
    hide MemberToks, Lead;
  }

  lemma KeyRaw(d: Doc, j: nat)
    requires d.root.Obj? && j < |d.root.members|
    ensures Bump(ValueState(d, j).toks, ValueState(d, j).super) == [Raw(TObj, |d.pre|, -1, j + 1)] + UpToKey(d, j)
  {
    hide *;
    var m, x := d.root.members[j], Raws(MemberToks(d.root.members[..j], |d.pre| + 1));
    var a := |d.pre| + 1 + |Lead(d.root.members[..j])| + |m.pre| + 1;
    ValueStateIs(d, j);
    UpToKeyIs(d, j);
    BumpLast(Held([], TObj, |d.pre|, j + 1, x), a, a + |m.key|);
    HeldInRoot(|d.pre|, j + 1, x, [Raw(TStr, a, a + |m.key|, 1)]);
  }

  lemma ArrayRead(d: Doc, j: nat, m: Member) returns (ts: seq<Raw>, x: seq<Raw>, end: nat)
    requires WfDoc(d) && d.root.Obj? && j < |d.root.members| && d.root.members[j].val.Arr? && WfMember(m)
    ensures Tokenized(BeforeValue(d, j) + ("[" + ArrayText(m, d.root.members[j].val, RestOf(d, j)))) == Some(ts)
    ensures ts != [] && ts[0].kind == TObj && ts[0].size == |d.root.members|
    ensures |ts| >= 1 + |WithArray(d, j, m, x, end)|
            && ts[1..1 + |WithArray(d, j, m, x, end)|] == WithArray(d, j, m, x, end)
  {
    hide *;
    var v, r, n, b := d.root.members[j].val, RestOf(d, j), |BeforeValue(d, j)|,
        Bump(ValueState(d, j).toks, ValueState(d, j).super);
    var s := BeforeValue(d, j) + ("[" + ArrayText(m, v, r));
    ValueWf(d, j);
    ArrayOpens(d, j, ArrayText(m, v, r));
    x, end := AfterNewArray(b, n, m, v, r);
    ShutIsFilled(d, j, m, x, end);
    var st := Filled([], TObj, |d.pre|, j + 1, WithArray(d, j, m, x, end));
    var t := AfterMore(d, j, WithArray(d, j, m, x, end), end);
    Then(Start, s, 0, Filled(b, TArr, n, 0, []), ArrayText(m, v, r), n + 1, st, r, end);
    Then(Start, s, 0, st, r, end, t, "", end + |r|);
    ShutFactsOf(d, WithArray(d, j, m, x, end), t);
    EndsAt(Start, s, 0, t, end + |r|);
    StartIs(s);
    ts := t.toks;
  }

  lemma ShutFactsOf(d: Doc, x: seq<Raw>, t: St)
    requires d.root.Obj? && RootShut(d, x, t)
    ensures LastOpen(t.toks) < 0 && |t.toks| >= 1 + |x| && t.toks[0].kind == TObj
    ensures t.toks[0].size == |d.root.members| && t.toks[1..1 + |x|] == x
  {
  }

  lemma ValueWf(d: Doc, j: nat)
    requires WfDoc(d) && d.root.Obj? && j < |d.root.members|
    ensures Wf(d.root.members[j].val)
  {
    FrontOf(d, j);
    MemberParts(d.root.members[j]);
    hide Wf;
  }

  // ----- The walk to the key ----------------------------------------------------------------------

  // The tokens in front of the key of member j, in an object with more values than that.
  predicate InFront(toks: seq<Tok>, ms: seq<Member>, off: nat, json: string, id1: string) {
    var front := MemberToks(ms, off);
    && 1 + |front| < |toks| && toks[0].kind == TObj && toks[0].size > |ms| && toks[1..1 + |front|] == front
    && KeysAt(ms, off, json) && forall i | 0 <= i < |ms| :: ms[i].key != id1
  }

  lemma RootStep(tok: Tok, id1: string, text: string)
    requires tok.kind == TObj && tok.size > 0
    ensures Step(Begin, 0, tok, Under(id1), text) == State([Frame(tok.size, 0)], false, [])
  {
  }

  lemma FrontParts(toks: seq<Tok>, front: seq<Tok>)
    requires 1 + |front| < |toks| && toks[1..1 + |front|] == front
    ensures toks[..1 + |front|] == [toks[0]] + front
  {
    assert toks[..1 + |front|] == [toks[0]] + toks[1..1 + |front|];
  }

  lemma WalkInFront(toks: seq<Tok>, ms: seq<Member>, off: nat, json: string, id1: string)
    requires InFront(toks, ms, off, json, id1)
    ensures var n := 1 + |MemberToks(ms, off)|;
            n < |toks|
            && Run(Begin, 0, toks[..n], Under(id1), json)
               == State([Frame(toks[0].size - |ms|, 0)], false, TopEvents(ms, 1, false, id1))
  {
    hide Run, Step, MemberToks, KeysAt, TopEvents, TextOf;
    var front, s := MemberToks(ms, off), State([Frame(toks[0].size, 0)], false, []);
    FrontParts(toks, front);
    RunCons(Begin, 0, toks[0], front, Under(id1), json);
    RootStep(toks[0], id1, TextOf(json, toks[0]));
    RunPrior(s, 1, ms, off, id1, json);
    assert [] + TopEvents(ms, 1, false, id1) == TopEvents(ms, 1, false, id1);
  }

  lemma OneFurther(toks: seq<Tok>, n: nat, scope: Scope, json: string)
    requires n < |toks|
    ensures Run(Begin, 0, toks[..n + 1], scope, json)
         == Step(Run(Begin, 0, toks[..n], scope, json), n, toks[n], scope, TextOf(json, toks[n]))
  {
    hide Run, Step, TextOf;
    assert toks[..n + 1] == toks[..n] + [toks[n]];
    RunAppend(Begin, 0, toks[..n], [toks[n]], scope, json);
    RunCons(Run(Begin, 0, toks[..n], scope, json), n, toks[n], [], scope, json);
  }

  // Behind the key, a container that is not empty: its first key is on level 2.
  lemma StepOfBox(s: State, k: nat, tok: Tok, id1: string, text: string)
    requires tok.IsContainer() && tok.size > 0 && |s.frames| == 1 && s.hit
    ensures var t := Step(s, k, tok, Under(id1), text); |t.frames| == 2 && t.hit && t.trace == s.trace
  {
  }

  lemma NewIsHit(toks: seq<Tok>, ms: seq<Member>, off: nat, json: string, id1: string, id2: string)
    requires InFront(toks, ms, off, json, id1)
    requires var n := 1 + |MemberToks(ms, off)|;
             && n + 2 < |toks| && toks[n].IsId() && TextOf(json, toks[n]) == id1 && toks[n + 1].IsContainer()
                && toks[n + 1].size > 0
             && toks[n + 2].IsId() && TextOf(json, toks[n + 2]) == id2
    ensures Hit(json, toks, Under(id1), id2, 2) == Some(1 + |MemberToks(ms, off)| + 2)
  {
    hide Run, Step, MemberToks, KeysAt, TopEvents, TextOf, FirstHit;
    var n, cb := 1 + |MemberToks(ms, off)|, Callback(json, toks, id2, 2);
    var s := State([Frame(toks[0].size - |ms|, 0)], false, TopEvents(ms, 1, false, id1));
    WalkInFront(toks, ms, off, json, id1);
    OneFurther(toks, n, Under(id1), json);
    StepOfTopKey(s, n, toks[n], id1, TextOf(json, toks[n]));
    var t := State(s.frames, true, s.trace);
    OneFurther(toks, n + 1, Under(id1), json);
    StepOfBox(t, n + 1, toks[n + 1], id1, TextOf(json, toks[n + 1]));
    QuietTop(ms, 1, id1, json, toks, id2, 2);
    HitAt(toks, n + 2, Under(id1), json, cb);
  }

  // No container behind it: nothing on level 2 yet.
  lemma {:induction false} SettleShrinks(s: State)
    ensures |Settle(s).frames| <= |s.frames|
    decreases |s.frames|
  {
    var n := |s.frames|;
    if n > 0 && s.frames[n - 1].rem == 0 {
      SettleShrinks(State(s.frames[..n - 1], s.hit && n - 1 >= 2, s.trace + [Close(s.frames[n - 1].owner, n)]));
    }
  }

  lemma StepShrinks(s: State, k: nat, tok: Tok, scope: Scope, text: string)
    requires !tok.IsContainer()
    ensures |Step(s, k, tok, scope, text).frames| <= |s.frames|
  {
    SettleShrinks(Taken(s, k, tok, scope, text));
    hide Settle;
  }

  lemma NewIsNoHit(toks: seq<Tok>, ms: seq<Member>, off: nat, json: string, id1: string, id2: string)
    requires InFront(toks, ms, off, json, id1)
    requires var n := 1 + |MemberToks(ms, off)|; n + 1 < |toks| && !toks[n].IsContainer() && !toks[n + 1].IsContainer()
    ensures Hit(json, toks, Under(id1), id2, 2) != Some(1 + |MemberToks(ms, off)| + 2)
  {
    hide Run, Step, MemberToks, KeysAt, TopEvents, TextOf, FirstHit;
    var n, cb := 1 + |MemberToks(ms, off)|, Callback(json, toks, id2, 2);
    WalkInFront(toks, ms, off, json, id1);
    OneFurther(toks, n, Under(id1), json);
    StepShrinks(Run(Begin, 0, toks[..n], Under(id1), json), n, toks[n], Under(id1), TextOf(json, toks[n]));
    OneFurther(toks, n + 1, Under(id1), json);
    StepShrinks(Run(Begin, 0, toks[..n + 1], Under(id1), json), n + 1, toks[n + 1], Under(id1),
      TextOf(json, toks[n + 1]));
    if n + 2 < |toks| {
      HitAt(toks, n + 2, Under(id1), json, cb);
    } else {
      NoHitBehind(toks, Under(id1), json, cb);
    }
  }

  lemma NoHitBehind(toks: seq<Tok>, scope: Scope, json: string, cb: (nat, nat) -> bool)
    ensures var h := FirstHit(Run(Begin, 0, toks, scope, json).trace, cb); h.Some? ==> h.value < |toks|
  {
    HitNumbers(Begin, 0, toks, scope, json, cb);
    assert FirstHit(Begin.trace, cb) == None;
    hide Run, FirstHit;
  }

  // ----- The keys in the text ---------------------------------------------------------------------

  lemma ShowsIn(a: string, b: string, c: string)
    ensures Shows(a + b + c, |a|, b)
  {
    assert (a + b + c)[|a|..|a| + |b|] == b;
  }

  lemma ShowsPrefix(json: string, off: nat, a: string, b: string)
    requires Shows(json, off, a + b)
    ensures Shows(json, off, a)
  {
    assert json[off..off + |a + b|][..|a|] == a;
  }

  lemma FrontShown(d: Doc, j: nat, y: string)
    requires d.root.Obj? && j < |d.root.members|
    ensures KeysAt(d.root.members[..j], |d.pre| + 1, BeforeValue(d, j) + y)
  {
    var ms, m, u := d.root.members[..j], d.root.members[j], BeforeValue(d, j) + y;
    assert u == d.pre + "{" + Lead(ms) + (HeadOf(m) + y) && |d.pre + "{"| == |d.pre| + 1;
    hide Lead, HeadOf, BeforeValue, KeysAt, Shows, PrintMembers;
    if ms != [] {
      LeadIsPrint(ms);
      ShowsIn(d.pre + "{", Lead(ms), HeadOf(m) + y);
      ShowsPrefix(u, |d.pre| + 1, PrintMembers(ms), ",");
    }
    ShownKeys(ms, |d.pre| + 1, u);
  }

  lemma HeadIsMember(m: Member, off: nat)
    ensures var k := m.(val := Prim(""), post := ""); PrintMember(k) == HeadOf(m) && KeyTok(k, off) == KeyTok(m, off)
  {
    var k, x := m.(val := Prim(""), post := ""), "\"" + m.key + "\"" + m.colon + ":" + m.mid;
    assert Print(k.val) == "" && PrintMember(k) == m.pre + (x + "" + "");
    assert x + "" + "" == x;
  }

  lemma FrontKeyShown(d: Doc, j: nat, y: string)
    requires d.root.Obj? && j < |d.root.members|
    ensures TextOf(BeforeValue(d, j) + y, KeyTok(d.root.members[j], |d.pre| + 1 + |Lead(d.root.members[..j])|))
            == d.root.members[j].key
  {
    var a, m := d.pre + "{" + Lead(d.root.members[..j]), d.root.members[j];
    assert BeforeValue(d, j) == a + HeadOf(m) && |a| == |d.pre| + 1 + |Lead(d.root.members[..j])|;
    hide Lead, HeadOf, BeforeValue, Shows, PrintMember, KeyTok, TextOf;
    HeadIsMember(m, |a|);
    ShowsIn(a, HeadOf(m), y);
    ShowsKey(m.(val := Prim(""), post := ""), |a|, BeforeValue(d, j) + y);
  }

  lemma NewShown(b: string, m: Member, r: string)
    ensures var u := b + ("[" + (PrintMember(m) + r));
            TextOf(u, KeyTok(m, |b| + 1)) == m.key && Shows(u, |b| + 1 + HeadLen(m), Print(m.val))
  {
    hide PrintMember, Shows, KeyTok, TextOf, HeadLen, Print;
    var u := b + ("[" + (PrintMember(m) + r));
    assert u == (b + "[") + PrintMember(m) + r && |b + "["| == |b| + 1;
    ShowsIn(b + "[", PrintMember(m), r);
    ShowsKey(m, |b| + 1, u);
  }

  // ----- What is found ----------------------------------------------------------------------------

  // The tokens in the root, the new key and value among them.
  predicate NewTokens(toks: seq<Tok>, d: Doc, j: nat, m: Member)
    requires d.root.Obj? && j < |d.root.members|
  {
    var front, q, off := MemberToks(d.root.members[..j], |d.pre| + 1), |d.pre| + 1 + |Lead(d.root.members[..j])|,
        |BeforeValue(d, j)| + 1;
    var n := 1 + |front|;
    && n + 3 < |toks| && toks[0].kind == TObj && toks[0].size == |d.root.members| && toks[1..n] == front
    && toks[n] == KeyTok(d.root.members[j], q) && toks[n + 1].kind == TArr && toks[n + 1].size > 0
    && toks[n + 2] == KeyTok(m, off) && toks[n + 3] == Toks(m.val, off + HeadLen(m))[0]
  }

  lemma AsToksParts(ts: seq<Raw>, y: seq<Raw>)
    requires ts != [] && |ts| >= 1 + |y| && ts[1..1 + |y|] == y
    ensures |AsToks(ts)| == |ts| && AsToks(ts)[0].kind == ts[0].kind && AsToks(ts)[0].size == ts[0].size
    ensures AsToks(ts)[1..1 + |y|] == AsToks(y)
  {
    forall i | 0 <= i < |y| ensures AsToks(ts)[1..1 + |y|][i] == AsToks(y)[i] {
      assert ts[1..1 + |y|][i] == ts[1 + i];
    }
  }

  lemma AsToksAppend(a: seq<Raw>, b: seq<Raw>)
    ensures AsToks(a + b) == AsToks(a) + AsToks(b)
  {
  }

  lemma AsToksOne(x: Raw)
    ensures AsToks([x]) == [Tok(x.kind, x.start, if x.end < 0 then 0 else x.end, x.size)]
  {
  }

  lemma AsToksArray(d: Doc, j: nat, m: Member, x: seq<Raw>, end: nat)
    requires d.root.Obj? && j < |d.root.members| && d.root.members[j].val.Arr?
    ensures var q, n := |d.pre| + 1 + |Lead(d.root.members[..j])|, |BeforeValue(d, j)|;
            AsToks(WithArray(d, j, m, x, end))
            == MemberToks(d.root.members[..j], |d.pre| + 1) + [KeyTok(d.root.members[j], q)]
               + ([Tok(TArr, n, end, 1 + |d.root.members[j].val.items|)] +
                 ([KeyTok(m, n + 1)] + Toks(m.val, n + 1 + HeadLen(m)) + AsToks(x)))
  {
    hide MemberToks, Lead, BeforeValue, Toks, AsToks, KeyTok, HeadLen;
    var q, n := |d.pre| + 1 + |Lead(d.root.members[..j])|, |BeforeValue(d, j)|;
    var a, b, c := MemberToks(d.root.members[..j], |d.pre| + 1), KeyTok(d.root.members[j], q),
        Toks(m.val, n + 1 + HeadLen(m));
    var arr := Raw(TArr, n, end, 1 + |d.root.members[j].val.items|);
    AsToksAppend(Raws(a) + [ToRaw(b)], [arr] + (OneToks(m, n + 1) + x));
    AsToksAppend(Raws(a), [ToRaw(b)]);
    AsToksAppend([arr], OneToks(m, n + 1) + x);
    AsToksAppend(OneToks(m, n + 1), x);
    AsToksAppend([ToRaw(KeyTok(m, n + 1))], Raws(c));
    RawsAsToks(a);
    RawsAsToks(c);
    AsToksOne(arr);
    AsToksOne(ToRaw(b));
    AsToksOne(ToRaw(KeyTok(m, n + 1)));
  }

  lemma ArrayTokens(ts: seq<Raw>, d: Doc, j: nat, m: Member, x: seq<Raw>, end: nat)
    requires d.root.Obj? && j < |d.root.members| && d.root.members[j].val.Arr?
    requires ts != [] && ts[0].kind == TObj && ts[0].size == |d.root.members|
    requires |ts| >= 1 + |WithArray(d, j, m, x, end)|
             && ts[1..1 + |WithArray(d, j, m, x, end)|] == WithArray(d, j, m, x, end)
    ensures NewTokens(AsToks(ts), d, j, m)
  {
    hide MemberToks, Lead, BeforeValue, Toks, AsToks, KeyTok, HeadLen, WithArray;
    var y := WithArray(d, j, m, x, end);
    AsToksParts(ts, y);
    AsToksArray(d, j, m, x, end);
    SplitTokens(AsToks(ts), y, d, j, m, AsToks(x), end);
  }

  lemma SplitTokens(toks: seq<Tok>, y: seq<Raw>, d: Doc, j: nat, m: Member, x: seq<Tok>, end: nat)
    requires d.root.Obj? && j < |d.root.members| && d.root.members[j].val.Arr?
    requires toks != [] && toks[0].kind == TObj && toks[0].size == |d.root.members| && 1 + |y| <= |toks|
    requires var q, n := |d.pre| + 1 + |Lead(d.root.members[..j])|, |BeforeValue(d, j)|;
             toks[1..1 + |y|]
             == MemberToks(d.root.members[..j], |d.pre| + 1) + [KeyTok(d.root.members[j], q)]
                + ([Tok(TArr, n, end, 1 + |d.root.members[j].val.items|)] +
                  ([KeyTok(m, n + 1)] + Toks(m.val, n + 1 + HeadLen(m)) + x))
    ensures NewTokens(toks, d, j, m)
  {
    hide MemberToks, Lead, BeforeValue, Toks, KeyTok, HeadLen;
    var z := toks[1..1 + |y|];
    var k := |MemberToks(d.root.members[..j], |d.pre| + 1)|;
    assert z[..k] == MemberToks(d.root.members[..j], |d.pre| + 1) && z[..k] == toks[1..1 + k];
    assert forall i | 0 <= i < |z| :: z[i] == toks[1 + i];
    assert toks[1 + k] == z[k] && toks[2 + k] == z[k + 1] && toks[3 + k] == z[k + 2] && toks[4 + k] == z[k + 3];
  }

  // The token shows this number, name or string.
  predicate Gives(json: string, tok: Tok, v: Value) {
    !IsBox(v) && tok.kind == (if v.Str? then TStr else TPrim) && TextOf(json, tok) == v.text
  }

  lemma GivesIfShown(json: string, off: nat, v: Value)
    requires Shows(json, off, Print(v)) && !IsBox(v)
    ensures Gives(json, Toks(v, off)[0], v)
  {
    if v.Str? {
      assert Print(v) == "\"" + v.text + "\"";
      ShowsPart(json, off, "\"", v.text, "\"");
    }
  }

  lemma FirstIndexed(ms: seq<Member>, id: string, j: nat)
    requires KeyIndex(ms, id) == Some(j)
    ensures j < |ms| && ms[j].key == id && forall i | 0 <= i < |ms[..j]| :: ms[..j][i].key != id
    decreases ms
  {
    if ms[0].key != id {
      FirstIndexed(ms[1..], id, j - 1);
      forall i | 0 <= i < j ensures ms[i].key != id {
        assert i > 0 ==> ms[i] == ms[1..][..j - 1][i - 1];
      }
    }
  }

  // The lookup ends at token k, which shows the value.
  predicate ReadsAt(json: string, name: Name, k: nat, v: Value) {
    match Tokens(json)
    case None => false
    case Some(toks) => Looked(json, toks, name, false) == At(k) && k < |toks| && Gives(json, toks[k], v)
  }

  lemma InFrontOfNew(toks: seq<Tok>, d: Doc, j: nat, m: Member, u: string, id1: string)
    requires d.root.Obj? && KeyIndex(d.root.members, id1) == Some(j) && NewTokens(toks, d, j, m)
    requires KeysAt(d.root.members[..j], |d.pre| + 1, u)
    ensures InFront(toks, d.root.members[..j], |d.pre| + 1, u, id1)
  {
    FirstIndexed(d.root.members, id1, j);
    hide MemberToks, KeysAt, BeforeValue, Lead, Toks, HeadLen, KeyIndex, KeyTok;
  }

  lemma NewIsThere(toks: seq<Tok>, d: Doc, j: nat, m: Member, u: string, id1: string)
    requires d.root.Obj? && j < |d.root.members| && d.root.members[j].key == id1 && NewTokens(toks, d, j, m)
    requires TextOf(u, KeyTok(d.root.members[j], |d.pre| + 1 + |Lead(d.root.members[..j])|)) == id1
    requires TextOf(u, KeyTok(m, |BeforeValue(d, j)| + 1)) == m.key
    ensures var n := 1 + |MemberToks(d.root.members[..j], |d.pre| + 1)|;
            && n + 2 < |toks| && toks[n].IsId() && TextOf(u, toks[n]) == id1 && toks[n + 1].IsContainer()
               && toks[n + 1].size > 0
            && toks[n + 2].IsId() && TextOf(u, toks[n + 2]) == m.key
  {
    hide MemberToks, BeforeValue, Lead, Toks, HeadLen, TextOf;
  }

  lemma NewTokensFound(toks: seq<Tok>, d: Doc, j: nat, m: Member, y: string, id1: string)
    requires d.root.Obj? && KeyIndex(d.root.members, id1) == Some(j) && NewTokens(toks, d, j, m)
    requires TextOf(BeforeValue(d, j) + y, KeyTok(m, |BeforeValue(d, j)| + 1)) == m.key
    ensures Looked(BeforeValue(d, j) + y, toks, Two(id1, m.key), false) == At(KeyNo(d.root.members, 1, j) + 3)
  {
    var ms, off, u := d.root.members[..j], |d.pre| + 1, BeforeValue(d, j) + y;
    hide *;
    FirstIndexed(d.root.members, id1, j);
    FrontShown(d, j, y);
    FrontKeyShown(d, j, y);
    InFrontOfNew(toks, d, j, m, u, id1);
    NewIsThere(toks, d, j, m, u, id1);
    NewIsHit(toks, ms, off, u, id1, m.key);
    MemberTokCount(ms, off);
    KeyNoIs(d.root.members, 1, j);
    HitIsLooked(u, toks, id1, m.key, 1 + |MemberToks(ms, off)| + 2);
  }

  lemma HitIsLooked(u: string, toks: seq<Tok>, id1: string, id2: string, k: nat)
    ensures Hit(u, toks, Under(id1), id2, 2) == Some(k) <==> Looked(u, toks, Two(id1, id2), false) == At(k + 1)
  {
    hide Hit;
  }

  lemma ArrayFinds(d: Doc, j: nat, m: Member, id1: string)
    requires WfDoc(d) && d.root.Obj? && KeyIndex(d.root.members, id1) == Some(j) && d.root.members[j].val.Arr?
    requires WfMember(m) && !IsBox(m.val)
    ensures ReadsAt(BeforeValue(d, j) + ("[" + ArrayText(m, d.root.members[j].val, RestOf(d, j))), Two(id1, m.key),
                      KeyNo(d.root.members, 1, j) + 3, m.val)
  {
    hide *;
    var b, v, r := BeforeValue(d, j), d.root.members[j].val, RestOf(d, j);
    var u := b + ("[" + ArrayText(m, v, r));
    var ts, x, end := ArrayRead(d, j, m);
    ArrayTokens(ts, d, j, m, x, end);
    ArrayTextIs(m, v, r);
    NewShown(b, m, "," + (InnerItems(v) + ("]" + r)));
    NewTokensFound(AsToks(ts), d, j, m, "[" + ArrayText(m, v, r), id1);
    GivesIfShown(u, |b| + 1 + HeadLen(m), m.val);
    NewIsReadAt(ts, d, j, m, u, id1);
  }

  lemma NewTokensShow(toks: seq<Tok>, d: Doc, j: nat, m: Member)
    requires d.root.Obj? && j < |d.root.members| && NewTokens(toks, d, j, m)
    ensures var n := 1 + |MemberToks(d.root.members[..j], |d.pre| + 1)|;
            n + 3 < |toks| && toks[n + 3] == Toks(m.val, |BeforeValue(d, j)| + 1 + HeadLen(m))[0]
  {
    hide MemberToks, BeforeValue, Lead, Toks, HeadLen, KeyTok;
  }

  lemma IsReadAt(u: string, toks: seq<Tok>, name: Name, k: nat, v: Value)
    requires Tokens(u) == Some(toks) && Looked(u, toks, name, false) == At(k) && k < |toks| && Gives(u, toks[k], v)
    ensures ReadsAt(u, name, k, v)
  {
    hide Tokens, Looked, Gives;
  }

  lemma TokensAre(u: string, ts: seq<Raw>)
    requires Tokenized(u) == Some(ts)
    ensures Tokens(u) == Some(AsToks(ts))
  {
    hide Tokenized, AsToks;
  }

  lemma NewIsReadAt(ts: seq<Raw>, d: Doc, j: nat, m: Member, u: string, id1: string)
    requires d.root.Obj? && j < |d.root.members| && Tokenized(u) == Some(ts) && NewTokens(AsToks(ts), d, j, m)
    requires Looked(u, AsToks(ts), Two(id1, m.key), false) == At(KeyNo(d.root.members, 1, j) + 3)
    requires Gives(u, Toks(m.val, |BeforeValue(d, j)| + 1 + HeadLen(m))[0], m.val)
    ensures ReadsAt(u, Two(id1, m.key), KeyNo(d.root.members, 1, j) + 3, m.val)
  {
    hide *;
    MemberTokCount(d.root.members[..j], |d.pre| + 1);
    KeyNoIs(d.root.members, 1, j);
    NewTokensShow(AsToks(ts), d, j, m);
    TokensAre(u, ts);
    IsReadAt(u, AsToks(ts), Two(id1, m.key), KeyNo(d.root.members, 1, j) + 3, m.val);
  }

  // ----- A number or a string ---------------------------------------------------------------------

  // The first token of the value, whatever it has become: a string or a primitive.
  lemma LeafTaken(st: St, y: string, off: nat) returns (u: St, n: nat)
    requires y != [] && (y[0] == '"' || BareStart(y[0])) && ReadOn(st, y, off).Some?
    ensures n <= |y| && ReadOn(st, y, off) == ReadOn(u, y[n..], off + n)
    ensures u.super == st.super && |u.toks| == |st.toks| + 1 && u.toks[..|st.toks|] == Bump(st.toks, st.super)
    ensures !u.toks[|st.toks|].IsBox() && u.toks[|st.toks|].start == off + (if y[0] == '"' then 1 else 0)
    ensures n >= if y[0] == '"' then 2 else 1
  {
    hide ReadOn, Took, BareLen, TextLen, TakesBare, BareStart;
    if y[0] == '"' {
      TookText(st, y, off);
    } else {
      TookBare(st, y, off);
    }
    UnfoldTook(st, y, off);
    u, n := Took(st, y, off).value.0, Took(st, y, off).value.1;
  }

  lemma UnfoldTook(st: St, y: string, off: nat)
    requires y != [] && ReadOn(st, y, off).Some?
    ensures Took(st, y, off).Some?
            && var (t, n) := Took(st, y, off).value; ReadOn(st, y, off) == ReadOn(t, y[n..], off + n)
  {
    hide Took;
  }

  // What stays of the tokens in front.
  lemma FrontStays(u: St, s: string, off: nat, x: seq<Raw>)
    requires ReadOn(u, s, off).Some? && AllClosed(x)
    requires |u.toks| == 1 + |x| + 2 && u.super == 1 + |x| && u.toks[0].kind == TObj && u.toks[1..1 + |x|] == x
    ensures var ts := ReadOn(u, s, off).value;
            && |ts| >= 1 + |x| + 2 && ts[0].kind == TObj && ts[0].size >= u.toks[0].size && ts[1..1 + |x|] == x
            && ts[1 + |x|].kind == u.toks[1 + |x|].kind && ts[2 + |x|].kind == u.toks[2 + |x|].kind
  {
    var ts := ReadOn(u, s, off).value;
    AfterGrows(u, s, off);
    hide ReadOn;
    forall i | 0 <= i < |x| ensures ts[1 + i] == x[i] {
      assert u.toks[1..1 + |x|][i] == u.toks[1 + i];
      AfterFrozen(u, s, off, 1 + i);
    }
    assert ts[1..1 + |x|] == x;
  }

  // The tokens of a text that goes on differently from a value of this kind.
  predicate LeafTokens(ts: seq<Raw>, d: Doc, j: nat)
    requires d.root.Obj? && j < |d.root.members|
  {
    var x := FrontOfRoot(d, j);
    && |ts| >= 1 + |x| + 2 && ts[0].kind == TObj && ts[0].size > j && ts[1..1 + |x|] == x
    && ts[1 + |x|].kind == TStr && !ts[2 + |x|].IsBox()
  }

  lemma LeafRead(d: Doc, j: nat, y: string)
    requires WfDoc(d) && d.root.Obj? && j < |d.root.members| && y != [] && (y[0] == '"' || BareStart(y[0]))
    ensures var r := Tokenized(BeforeValue(d, j) + y); r.Some? ==> LeafTokens(r.value, d, j)
  {
    hide *;
    var off, st := |BeforeValue(d, j)|, ValueState(d, j);
    AfterBefore(d, j, y);
    StartReads(BeforeValue(d, j) + y, st, y, off);
    if Tokenized(BeforeValue(d, j) + y).Some? {
      var u, n := LeafTaken(st, y, off);
      KeyRaw(d, j);
      FrontClosed(d, j);
      LeafInRoot(d, j, u);
      FrontStays(u, y[n..], off + n, FrontOfRoot(d, j));
      LeafTokensAre(ReadOn(u, y[n..], off + n).value, d, j, u);
    }
  }

  lemma FrontClosed(d: Doc, j: nat)
    requires d.root.Obj? && j < |d.root.members|
    ensures AllClosed(FrontOfRoot(d, j))
  {
    RawsAreClosed(MemberToks(d.root.members[..j], |d.pre| + 1));
    hide MemberToks, Raws;
  }

  lemma LeafInRoot(d: Doc, j: nat, u: St)
    requires d.root.Obj? && j < |d.root.members|
    requires var st := ValueState(d, j);
             u.super == st.super && |u.toks| == |st.toks| + 1 && u.toks[..|st.toks|] == Bump(st.toks, st.super)
    requires Bump(ValueState(d, j).toks, ValueState(d, j).super) == [Raw(TObj, |d.pre|, -1, j + 1)] + UpToKey(d, j)
    ensures var x := FrontOfRoot(d, j);
            && |u.toks| == 1 + |x| + 2 && u.super == 1 + |x| && u.toks[0].kind == TObj && u.toks[0].size == j + 1
            && u.toks[1..1 + |x|] == x && u.toks[1 + |x|].kind == TStr && u.toks[2 + |x|] == u.toks[|u.toks| - 1]
  {
    ValueStateIs(d, j);
    var x, st := FrontOfRoot(d, j), ValueState(d, j);
    assert |Held([], TObj, |d.pre|, j + 1, x)| == 1 + |x|;
    assert |st.toks| == |[Raw(TObj, |d.pre|, -1, j + 1)] + UpToKey(d, j)|;
    hide FrontOfRoot, ValueState, Lead, Bump, Held;
    var z := u.toks[..|st.toks|];
    assert z[0] == u.toks[0] && z[1..1 + |x|] == u.toks[1..1 + |x|] && z[1 + |x|] == u.toks[1 + |x|];
    assert z[1..1 + |x|] == UpToKey(d, j)[..|x|];
  }

  lemma LeafTokensAre(ts: seq<Raw>, d: Doc, j: nat, u: St)
    requires d.root.Obj? && j < |d.root.members|
    requires var x := FrontOfRoot(d, j);
             && |u.toks| == 1 + |x| + 2 && u.toks[0].size == j + 1 && u.toks[1 + |x|].kind == TStr
                && !u.toks[2 + |x|].IsBox()
             && |ts| >= 1 + |x| + 2 && ts[0].kind == TObj && ts[0].size >= u.toks[0].size && ts[1..1 + |x|] == x
             && ts[1 + |x|].kind == u.toks[1 + |x|].kind && ts[2 + |x|].kind == u.toks[2 + |x|].kind
    ensures LeafTokens(ts, d, j)
  {
    hide FrontOfRoot;
  }

  lemma LeafInFront(ts: seq<Raw>, d: Doc, j: nat, y: string, id1: string)
    requires d.root.Obj? && KeyIndex(d.root.members, id1) == Some(j) && LeafTokens(ts, d, j)
    ensures InFront(AsToks(ts), d.root.members[..j], |d.pre| + 1, BeforeValue(d, j) + y, id1)
    ensures var n := 1 + |MemberToks(d.root.members[..j], |d.pre| + 1)|;
            n + 1 < |AsToks(ts)| && !AsToks(ts)[n].IsContainer() && !AsToks(ts)[n + 1].IsContainer()
  {
    FirstIndexed(d.root.members, id1, j);
    FrontShown(d, j, y);
    AsToksParts(ts, FrontOfRoot(d, j));
    RawsAsToks(MemberToks(d.root.members[..j], |d.pre| + 1));
    hide MemberToks, KeysAt, BeforeValue, KeyIndex, Raws;
  }

  lemma LeafFindsNothing(d: Doc, j: nat, y: string, id1: string, id2: string, v: Value)
    requires WfDoc(d) && d.root.Obj? && KeyIndex(d.root.members, id1) == Some(j) && y != []
             && (y[0] == '"' || BareStart(y[0]))
    ensures !ReadsAt(BeforeValue(d, j) + y, Two(id1, id2), KeyNo(d.root.members, 1, j) + 3, v)
  {
    hide *;
    var u, ms, off := BeforeValue(d, j) + y, d.root.members[..j], |d.pre| + 1;
    FirstIndexed(d.root.members, id1, j);
    LeafRead(d, j, y);
    if Tokenized(u).Some? {
      var ts := Tokenized(u).value;
      LeafInFront(ts, d, j, y, id1);
      NewIsNoHit(AsToks(ts), ms, off, u, id1, id2);
      MemberTokCount(ms, off);
      KeyNoIs(d.root.members, 1, j);
      HitIsLooked(u, AsToks(ts), id1, id2, 1 + |MemberToks(ms, off)| + 2);
    }
    NotReadAt(u, Two(id1, id2), KeyNo(d.root.members, 1, j) + 3, v);
  }

  lemma NotReadAt(u: string, name: Name, k: nat, v: Value)
    requires Tokenized(u).Some? ==> Looked(u, AsToks(Tokenized(u).value), name, false) != At(k)
    ensures !ReadsAt(u, name, k, v)
  {
    hide Tokenized, Looked, AsToks, Gives;
  }

  // ----- The text made ----------------------------------------------------------------------------

  lemma ArrayTextMade(d: Doc, j: nat, m: Member)
    requires WfDoc(d) && d.root.Obj? && j < |d.root.members| && d.root.members[j].val.Arr?
    ensures 1 <= FirstAt(d, j) < |PrintDoc(d)|
    ensures InsText(PrintDoc(d), FirstAt(d, j), PrintMember(m))
         == BeforeValue(d, j) + ("[" + ArrayText(m, d.root.members[j].val, RestOf(d, j)))
  {
    var v, b, r := d.root.members[j].val, BeforeValue(d, j), RestOf(d, j);
    FirstAtIn(d, j);
    ValueInText(d, j);
    PrintOfArray(v);
    ValueWf(d, j);
    ElementsFirst(v);
    assert r == d.root.members[j].post + MoreOf(d.root.members, j) + "}" + d.post;
    hide *;
    FirstAtArray(d, j);
    JoinArray(b, InnerItems(v), r, PrintMember(m));
    InsBetween(b + "[", InnerItems(v) + ("]" + r), PrintMember(m));
    ArrayTextIs(m, v, r);
  }

  lemma FirstAtArray(d: Doc, j: nat)
    requires d.root.Obj? && j < |d.root.members| && d.root.members[j].val.Arr?
    ensures FirstAt(d, j) == |BeforeValue(d, j) + "["|
  {
    hide BeforeValue;
  }

  lemma PrintOfArray(v: Value)
    requires v.Arr?
    ensures Print(v) == "[" + InnerItems(v) + "]"
  {
    hide PrintItems;
  }

  lemma JoinArray(b: string, inner: string, r: string, m: string)
    ensures b + ("[" + inner + "]") + r == (b + "[") + (inner + ("]" + r))
    ensures (b + "[") + "" + m + "," + (inner + ("]" + r)) == b + ("[" + (m + ("," + (inner + ("]" + r)))))
    ensures b + "[" != []
  {
  }

  lemma ElementsFirst(v: Value)
    requires v.Arr? && Wf(v)
    ensures InnerItems(v) == [] || InnerItems(v)[0] != '}'
  {
    WfItems(v);
    if v.items != [] {
      ItemFirst(v.items);
    }
    hide PrintItems, Wf, WfItem;
  }

  lemma ItemFirst(es: seq<Item>)
    requires es != [] && WfItem(es[0])
    ensures PrintItems(es) != [] && PrintItems(es)[0] != '}'
  {
    var e := es[0];
    ItemText(e, "");
    FirstOfValue(e.val, "");
    hide Print, Wf;
    assert PrintItem(e) != [] && PrintItem(e)[0] != '}';
    hide PrintItem;
    assert PrintItems(es)[0] == PrintItem(e)[0];
  }

  lemma LeafFirst(d: Doc, j: nat)
    requires WfDoc(d) && d.root.Obj? && j < |d.root.members| && !IsBox(d.root.members[j].val)
    ensures |BeforeValue(d, j)| < |PrintDoc(d)|
    ensures var c := PrintDoc(d)[|BeforeValue(d, j)|]; c == '"' || BareStart(c)
  {
    var v, b := d.root.members[j].val, BeforeValue(d, j);
    ValueInText(d, j);
    ValueWf(d, j);
    FirstOfValue(v, "");
    if v.Prim? {
      StartOfPrim(v.text);
    }
    assert Print(v) + "" == Print(v) && (v.Prim? ==> Print(v) == v.text);
    var rest := d.root.members[j].post + MoreOf(d.root.members, j) + "}" + d.post;
    hide *;
    assert (b + Print(v) + rest)[|b|] == Print(v)[0];
  }

  // In front of the elements of an array the new member is found; in a number or a string it is not.
  lemma InsideReadsIff(d: Doc, j: nat, m: Member, id1: string)
    requires WfDoc(d) && d.root.Obj? && KeyIndex(d.root.members, id1) == Some(j) && !d.root.members[j].val.Obj?
    requires WfMember(m) && !IsBox(m.val)
    ensures 1 <= FirstAt(d, j) < |PrintDoc(d)|
    ensures ReadsAt(InsText(PrintDoc(d), FirstAt(d, j), PrintMember(m)), Two(id1, m.key),
            KeyNo(d.root.members, 1, j) + 3, m.val)
            <==> d.root.members[j].val.Arr?
  {
    hide WfDoc, PrintDoc, PrintMember, InsText, ReadsAt, FirstAt, KeyNo, BeforeValue, WfMember, KeyIndex, ArrayText,
      RestOf, BareStart;
    if d.root.members[j].val.Arr? {
      ArrayTextMade(d, j, m);
      ArrayFinds(d, j, m, id1);
    } else {
      FirstAtIn(d, j);
      LeafFirst(d, j);
      var y := InsKeeps(PrintDoc(d), BeforeValue(d, j), FirstAt(d, j), PrintMember(m));
      LeafFindsNothing(d, j, y, id1, m.key, m.val);
    }
  }

  // ----- Where the new member is ------------------------------------------------------------------

  // The lookup ends at the value of the first key from the place on, and that is this value.
  predicate ReadsBack(json: string, name: Name, pos: int, v: Value) {
    match Tokens(json)
    case None => false
    case Some(toks) =>
      var found := Looked(json, toks, name, false);
      && found.At? && 2 <= found.tok < |toks| && toks[found.tok - 2].start < pos <= toks[found.tok - 1].start
      && Gives(json, toks[found.tok], v)
  }

  lemma BackIsAt(u: string, name: Name, pos: nat, n: nat, v: Value)
    requires n >= 1 && (Tokenized(u).Some? ==> Splits(Tokenized(u).value, pos, n))
    ensures ReadsBack(u, name, pos, v) <==> ReadsAt(u, name, n + 1, v)
  {
    hide Tokenized, Looked, Gives;
    if Tokenized(u).Some? {
      var xs := Tokenized(u).value;
      assert forall i | 0 <= i < n :: xs[..n][i] == xs[i];
    }
  }

  lemma KeyLength(d: Doc, j: nat)
    requires d.root.Obj? && j < |d.root.members|
    ensures var q := |d.pre| + 1 + |Lead(d.root.members[..j])|;
            q + |d.root.members[j].pre| + 1 < |BeforeValue(d, j)| && q <= |BeforeValue(d, j)|
    ensures d.root.members[..j] != [] ==> |PrintMembers(d.root.members[..j])| <= |Lead(d.root.members[..j])|
    ensures |d.pre| < |BeforeValue(d, j)|
  {
    BeforeLength(d, j);
    if d.root.members[..j] != [] {
      LeadIsPrint(d.root.members[..j]);
    }
    hide Lead, BeforeValue, PrintMembers;
  }

  lemma KeyRawIs(d: Doc, j: nat)
    requires d.root.Obj? && j < |d.root.members|
    ensures UpToKey(d, j) == FrontOfRoot(d, j) +
            [ToRaw(KeyTok(d.root.members[j], |d.pre| + 1 + |Lead(d.root.members[..j])|))]
    ensures d.root.members[..j] == [] ==> FrontOfRoot(d, j) == []
  {
    hide Lead;
  }

  // The tokens up to the key of member j start in front of its value.
  lemma FrontStarts(d: Doc, j: nat)
    requires WfDoc(d) && d.root.Obj? && j < |d.root.members|
    ensures StartBy([Raw(TObj, |d.pre|, -1, j + 1)] + UpToKey(d, j), |BeforeValue(d, j)|)
  {
    var ms, p, b := d.root.members[..j], |d.pre| + 1, |BeforeValue(d, j)|;
    FrontOf(d, j);
    MembersStartBy(ms, p);
    KeyLength(d, j);
    KeyRawIs(d, j);
    hide MemberToks, Raws, BeforeValue, Lead, PrintMembers, WfMember, UpToKey;
    if ms != [] {
      StartLater(FrontOfRoot(d, j), p + |PrintMembers(ms)|, b);
    }
  }

  lemma BumpStarts(xs: seq<Raw>, i: int, x: Raw, n: nat)
    requires StartBy(Bump(xs, i), n) && x.start <= n
    ensures StartBy(Bump(xs, i) + [x], n + 1)
  {
  }

  lemma FrontCount(d: Doc, j: nat)
    requires d.root.Obj? && j < |d.root.members|
    ensures |ValueState(d, j).toks| == KeyNo(d.root.members, 1, j) + 1
  {
    KeyNoIs(d.root.members, 1, j);
    MemberTokCount(d.root.members[..j], |d.pre| + 1);
    hide KeyNo, MemberToks, MemberCount, Lead;
  }

  // In front of any value, what comes next being a container.
  lemma BoxSplits(d: Doc, j: nat, c: char, y: string)
    requires WfDoc(d) && d.root.Obj? && j < |d.root.members| && (c == '{' || c == '[')
    requires Tokenized(BeforeValue(d, j) + ([c] + y)).Some?
    ensures Splits(Tokenized(BeforeValue(d, j) + ([c] + y)).value, |BeforeValue(d, j)| + 1,
            KeyNo(d.root.members, 1, j) + 2)
  {
    hide *;
    var st, n, u := ValueState(d, j), |BeforeValue(d, j)|, BeforeValue(d, j) + ([c] + y);
    AfterBefore(d, j, [c] + y);
    AfterOpen(st, c, y, n);
    Then(Start, u, 0, st, [c] + y, n, Opens(st, BoxKind(c), n), y, n + 1);
    StartReads(u, Opens(st, BoxKind(c), n), y, n + 1);
    KeyRaw(d, j);
    FrontStarts(d, j);
    FrontCount(d, j);
    OpensStarts(st, BoxKind(c), n);
    SplitsAt(u, Opens(st, BoxKind(c), n), y, n + 1, n + 1);
  }

  lemma OpensStarts(st: St, kind: Kind, n: nat)
    requires StartBy(Bump(st.toks, st.super), n)
    ensures StartBy(Opens(st, kind, n).toks, n + 1) && |Opens(st, kind, n).toks| == |st.toks| + 1
  {
    BumpStarts(st.toks, st.super, Raw(kind, n, -1, 0), n);
    hide Bump;
  }

  // The same, for a number or a string.
  lemma LeafSplits(d: Doc, j: nat, y: string)
    requires WfDoc(d) && d.root.Obj? && j < |d.root.members| && y != [] && (y[0] == '"' || BareStart(y[0]))
    requires Tokenized(BeforeValue(d, j) + y).Some?
    ensures Splits(Tokenized(BeforeValue(d, j) + y).value,
            |BeforeValue(d, j)| + (if y[0] == '"' then 2 else 1), KeyNo(d.root.members, 1, j) + 2)
  {
    hide *;
    var st, b, u := ValueState(d, j), |BeforeValue(d, j)|, BeforeValue(d, j) + y;
    var pos := b + (if y[0] == '"' then 2 else 1);
    AfterBefore(d, j, y);
    StartReads(u, st, y, b);
    var v, n := LeafTaken(st, y, b);
    KeyRaw(d, j);
    FrontStarts(d, j);
    FrontCount(d, j);
    LeafStarts(st, v, b, pos);
    SplitsAt(u, v, y[n..], b + n, pos);
  }

  lemma LeafStarts(st: St, v: St, n: nat, pos: nat)
    requires StartBy(Bump(st.toks, st.super), n) && n < pos && |v.toks| == |st.toks| + 1
             && v.toks[..|st.toks|] == Bump(st.toks, st.super)
    requires v.toks[|st.toks|].start < pos
    ensures StartBy(v.toks, pos)
  {
    hide Bump;
    assert forall i | 0 <= i < |st.toks| :: v.toks[i] == v.toks[..|st.toks|][i];
  }

  lemma BoxFirst(d: Doc, j: nat)
    requires WfDoc(d) && d.root.Obj? && j < |d.root.members| && |BeforeValue(d, j)| < |PrintDoc(d)|
    ensures var v, c := d.root.members[j].val, PrintDoc(d)[|BeforeValue(d, j)|];
            && (v.Obj? <==> c == '{') && (v.Arr? <==> c == '[') && (v.Str? <==> c == '"')
  {
    var v, b := d.root.members[j].val, BeforeValue(d, j);
    ValueInText(d, j);
    ValueWf(d, j);
    FirstOfValue(v, "");
    assert Print(v) + "" == Print(v);
    var rest := d.root.members[j].post + MoreOf(d.root.members, j) + "}" + d.post;
    hide *;
    assert (b + Print(v) + rest)[|b|] == Print(v)[0];
  }

  // The place in the value of member j.
  lemma InsideSplits(d: Doc, j: nat, val: string)
    requires WfDoc(d) && d.root.Obj? && j < |d.root.members|
    ensures 1 <= FirstAt(d, j) < |PrintDoc(d)|
    ensures var r := Tokenized(InsText(PrintDoc(d), FirstAt(d, j), val)); r.Some? ==>
            Splits(r.value, FirstAt(d, j), KeyNo(d.root.members, 1, j) + 2)
  {
    hide WfDoc, PrintDoc, InsText, KeyNo, BeforeValue, BareStart, Tokenized, Splits;
    FirstAtIn(d, j);
    BoxFirst(d, j);
    var y := InsKeeps(PrintDoc(d), BeforeValue(d, j), FirstAt(d, j), val);
    if Tokenized(BeforeValue(d, j) + y).Some? {
      if IsBox(d.root.members[j].val) {
        assert y == [y[0]] + y[1..];
        BoxSplits(d, j, y[0], y[1..]);
      } else {
        LeafFirst(d, j);
        LeafSplits(d, j, y);
      }
    }
  }
}
