/** Whether a lookup in the new text ends at the value that _cfg_set_int or _cfg_set_string of
    cfg/cfg.cpp has put there, read from the tokens that jsmn_parse makes of it. */
module CfgReadBack {
  import opened Wrappers
  import opened JsonText
  import opened CfgText
  import opened CfgSet
  import opened CfgDoc
  import opened CfgSpots
  import opened CfgExact
  import opened CfgCreate
  import opened CfgWalk
  import opened CfgLookup
  import opened CfgFind
  import opened CfgPlaces
  import opened CfgStray
  import opened Jsmn
  import opened JsmnTree
  import opened JsmnRead
  import opened JsmnDoc
  import opened JsmnOrder
  import opened CfgReads
  import opened CfgReadsIff
  import opened CfgCreated
  import opened CfgInside
  import opened CfgParam
  import opened CfgSetting

  // ----- In a text that reads as a document -------------------------------------------------------

  lemma ShownValue(d: Doc, at: Place, i: nat)
    requires WfDoc(d) && Holds(d, at) && i < |ObjAt(d, at).members|
    ensures var off := |LeftOf(d, at)| + 1 + |Lead(ObjAt(d, at).members[..i])|;
            Shows(PrintDoc(d), off + HeadLen(ObjAt(d, at).members[i]), Print(ObjAt(d, at).members[i].val))
  {
    hide *;
    var ms, left := ObjAt(d, at).members, LeftOf(d, at);
    KeyIsInText(d, at, i);
    AroundMember(left, ms, i, RightOf(d, at));
    OpeningLength(left, ms, i);
    ShowsIn(Opening(left, ms, i), PrintMember(ms[i]), Closing(ms, i, RightOf(d, at)));
    ShowsKey(ms[i], |Opening(left, ms, i)|, PrintDoc(d));
  }

  lemma MemberValue(toks: seq<Tok>, n: nat, m: Member, off: nat)
    requires MemberTokens(toks, n, m, off)
    ensures n + 1 < |toks| && toks[n + 1] == Toks(m.val, off + HeadLen(m))[0]
  {
    hide Toks, HeadLen, TokensAt, KeyTok;
  }

  // The token of a member's value shows the value.
  lemma MemberGives(d: Doc, at: Place, i: nat)
    requires WfDoc(d) && Holds(d, at) && i < |ObjAt(d, at).members| && !IsBox(ObjAt(d, at).members[i].val)
    ensures var ms, toks := ObjAt(d, at).members, Toks(d.root, |d.pre|);
            var n := KeyNo(ms, FirstNo(d, at), i);
            n + 1 < |toks| && Gives(PrintDoc(d), toks[n + 1], ms[i].val)
  {
    hide *;
    var ms, left, toks := ObjAt(d, at).members, LeftOf(d, at), Toks(d.root, |d.pre|);
    var off := |left| + 1 + |Lead(ms[..i])|;
    TokensOfObject(d, at);
    TokenOfKey(ms, FirstNo(d, at), |left| + 1, toks, i);
    MemberValue(toks, KeyNo(ms, FirstNo(d, at), i), ms[i], off);
    ShownValue(d, at, i);
    GivesIfShown(PrintDoc(d), off + HeadLen(ms[i]), ms[i].val);
  }

  lemma SameGives(json: string, xs: seq<Tok>, text: string, ys: seq<Tok>, k: nat, v: Value)
    requires SameSteps(json, xs, text, ys) && k < |ys| && Gives(text, ys[k], v)
    ensures k < |xs| && Gives(json, xs[k], v)
  {
    hide TextOf;
    assert SameStep(json, xs[k], text, ys[k]);
  }

  // A member of it is read back.
  lemma SpotReads(u: string, e: Doc, name: Name, at: Place, i: nat)
    requires ReadsAs(u, e) && WfDoc(e) && e.root.Obj? && Depth(e.root) < 32 && Unique(e.root.members)
    requires Spot(e.root.members, name) == Some((at, i)) && Holds(e, at) && i < |ObjAt(e, at).members|
    requires !IsBox(ObjAt(e, at).members[i].val)
    ensures ReadsAt(u, name, KeyNo(ObjAt(e, at).members, FirstNo(e, at), i) + 1, ObjAt(e, at).members[i].val)
  {
    hide *;
    LookupOfSpot(e, name);
    ReadsLookup(u, e, name, false);
    TokensIfReads(u, e);
    MemberGives(e, at, i);
    var k, v := KeyNo(ObjAt(e, at).members, FirstNo(e, at), i) + 1, ObjAt(e, at).members[i].val;
    SameGives(u, Tokens(u).value, PrintDoc(e), Toks(e.root, |e.pre|), k, v);
    IsReadAt(u, Tokens(u).value, name, k, v);
  }

  // ----- A parameter that was there ---------------------------------------------------------------

  lemma ReplacedKeys(ms: seq<Member>, i: nat, m: Member)
    requires i < |ms| && m.key == ms[i].key
    ensures var us := Replaced(ms, i, m);
            |us| == |ms| && us[i] == m
            && forall k | 0 <= k < |us| :: us[k].key == ms[k].key
  {
    ReplacedAt(ms, i, m, i);
    forall k | 0 <= k < |ms| ensures Replaced(ms, i, m)[k].key == ms[k].key {
      ReplacedAt(ms, i, m, k);
    }
    hide Replaced;
  }

  lemma AfterSetting(d: Doc, name: Name, at: Place, i: nat, v: Value)
    requires d.root.Obj? && Unique(d.root.members) && Spot(d.root.members, name) == Some((at, i)) && Holds(d, at)
    requires i < |ObjAt(d, at).members| && Unique(ObjAt(d, at).members)
    ensures var e := Setting(d, at, i, v);
            && e.root.Obj? && Unique(e.root.members) && Spot(e.root.members, name) == Some((at, i))
            && Holds(e, at) && i < |ObjAt(e, at).members| && ObjAt(e, at).members[i].val == v
  {
    var ms, w := ObjAt(d, at).members, Plain(ObjAt(d, at).members[i].key, v);
    var us := Replaced(ms, i, w);
    ReplacedKeys(ms, i, w);
    hide Replaced, HasKey, Unique, TrimFirst, KeyIndex, NextBox;
    SameKeys(ms, us);
    KeyIndexIs(us, i);
    if at.Within? {
      SpotWithin(d, name, at, i);
      SpotWithObj(d, name, at, i, us);
    } else {
      SpotInRoot(d, name, i);
      KeyIndexIs(ms, i);
    }
  }

  // It is found with its new value.
  lemma SettingReadsBack(d: Doc, name: Name, at: Place, i: nat, v: Value, u: string)
    requires WfDoc(d) && d.root.Obj? && Depth(d.root) < 32 && Unique(d.root.members)
             && Spot(d.root.members, name) == Some((at, i))
    requires Holds(d, at) && i < |ObjAt(d, at).members| && Unique(ObjAt(d, at).members) && Settable(v)
    requires ReadsAs(u, Setting(d, at, i, v))
    ensures exists k :: ReadsAt(u, name, k, v)
  {
    AfterSetting(d, name, at, i, v);
    SettableIs(v);
    hide *;
    SettingIsFine(d, at, i, v);
    SpotReads(u, Setting(d, at, i, v), name, at, i);
  }

  // ----- A new parameter --------------------------------------------------------------------------

  // The token of the new value, behind those that are in front of it and its key.
  ghost function NewNo(d: Doc, name: Name): nat
    requires d.root.Obj?
  {
    if InFirst(d.root.members, name) then KeyNo(d.root.members, 1, KeyIndex(d.root.members, name.id1).value) + 3
    else Count(d.root) + 1
  }

  lemma PlainNew(ms: seq<Member>, name: string, noDot: bool, v: Value)
    requires StrOk(NewKey(ms, name, noDot)) && Settable(v)
    ensures WfMember(Plain(NewKey(ms, name, noDot), v)) && !IsBox(v) && Wf(v)
  {
    PlainIsWf(NewKey(ms, name, noDot), v);
    hide NewKey, WfMember;
  }

  lemma {:induction false} KeyIndexAppend(ms: seq<Member>, m: Member)
    requires !HasKey(ms, m.key)
    ensures KeyIndex(ms + [m], m.key) == Some(|ms|)
  {
    if ms == [] {
      assert ms + [m] == [m];
    } else {
      assert ms[0].key != m.key && (ms + [m])[1..] == ms[1..] + [m];
      assert forall i | 0 <= i < |ms[1..]| :: ms[1..][i] == ms[i + 1];
      hide HasKey;
      assert !HasKey(ms[1..], m.key) by { RestHasNot(ms, m.key); }
      KeyIndexAppend(ms[1..], m);
    }
  }

  lemma RestHasNot(ms: seq<Member>, id: string)
    requires ms != [] && !HasKey(ms, id)
    ensures !HasKey(ms[1..], id)
  {
    assert forall i | 0 <= i < |ms[1..]| :: ms[1..][i] == ms[i + 1];
  }

  // As a new last member.
  lemma LastDoc(d: Doc, m: Member)
    requires d.root.Obj?
    ensures var ms, e := d.root.members, Inserted(d, Root, |d.root.members|, m);
            && e.root == Obj(ms + [m], "") && Holds(e, Root) && ObjAt(e, Root) == e.root && FirstNo(e, Root) == 1
            && ObjAt(e, Root).members[|ms|] == m && KeyNo(ms + [m], 1, |ms|) == Count(d.root)
            && (KeyIndex(ms + [m], m.key) == Some(|ms|) ==> Spot(ms + [m], One(m.key)) == Some((Root, |ms|)))
  {
    var ms := d.root.members;
    assert ms[|ms|..] == [] && ms[..|ms|] == ms;
    KeyNoIs(ms + [m], 1, |ms|);
    assert (ms + [m])[..|ms|] == ms;
    hide KeyNo, MemberCount, KeyIndex;
  }

  lemma LastIsFound(d: Doc, id: string, v: Value, u: string)
    requires WfDoc(d) && d.root.Obj? && Depth(d.root) < 32 && Unique(d.root.members) && !HasKey(d.root.members, id)
    requires StrOk(id) && Settable(v) && ReadsAs(u, Inserted(d, Root, |d.root.members|, Plain(id, v)))
    ensures ReadsAt(u, One(id), Count(d.root) + 1, v)
  {
    hide *;
    RootIsThere(d);
    var ms, m, e := d.root.members, Plain(id, v), Inserted(d, Root, |d.root.members|, Plain(id, v));
    SettableIs(v);
    PlainIsWf(id, v);
    PlainParts(id, v);
    InsertedIsFine(d, Root, |ms|, m);
    KeyIndexAppend(ms, m);
    UniqueAppend(ms, m);
    LastDoc(d, m);
    SpotReads(u, e, One(id), Root, |ms|);
  }

  lemma UniqueAppend(ms: seq<Member>, m: Member)
    requires Unique(ms) && !HasKey(ms, m.key)
    ensures Unique(ms + [m])
  {
  }

  // As the first member of the object that id1 stands for.
  lemma FirstDoc(d: Doc, j: nat, m: Member)
    requires Holds(d, Within(j))
    ensures var us, e := [m] + ObjAt(d, Within(j)).members, Inserted(d, Within(j), 0, m);
            && e == WithObj(d, Within(j), Obj(us, "")) && us != [] && us[0] == m
            && Holds(e, Within(j)) && ObjAt(e, Within(j)) == Obj(us, "")
               && KeyNo(us, FirstNo(e, Within(j)), 0) == KeyNo(d.root.members, 1, j) + 2
  {
    var us, e := [m] + ObjAt(d, Within(j)).members, Inserted(d, Within(j), 0, m);
    assert With(ObjAt(d, Within(j)).members, 0, m) == us;
    SamePlace(d, Within(j), Obj(us, ""));
    SameNo(d.root.members, e.root.members, j);
    hide LeftOf, RightOf;
  }

  lemma FirstIsFound(d: Doc, name: Name, v: Value, u: string)
    requires WfDoc(d) && d.root.Obj? && Depth(d.root) < 32 && Unique(d.root.members) && InFirst(d.root.members, name)
    requires var j := KeyIndex(d.root.members, name.id1).value;
             d.root.members[j].val.Obj? && StrOk(name.id2) && Settable(v)
             && ReadsAs(u, Inserted(d, Within(j), 0, Plain(name.id2, v)))
    ensures ReadsAt(u, name, NewNo(d, name), v)
  {
    hide *;
    FirstThere(d.root.members, name);
    var j, m := KeyIndex(d.root.members, name.id1).value, Plain(name.id2, v);
    PlaceFirst(d, name);
    SettableIs(v);
    PlainIsWf(name.id2, v);
    PlainParts(name.id2, v);
    InsertedIsFine(d, Within(j), 0, m);
    FirstDoc(d, j, m);
    FirstSpot(d, name, [m] + ObjAt(d, Within(j)).members);
    SpotReads(u, Inserted(d, Within(j), 0, m), name, Within(j), 0);
  }

  lemma FirstSpot(d: Doc, name: Name, us: seq<Member>)
    requires d.root.Obj? && Unique(d.root.members) && InFirst(d.root.members, name) && us != [] && us[0].key == name.id2
    requires d.root.members[KeyIndex(d.root.members, name.id1).value].val.Obj?
    ensures var at := Within(KeyIndex(d.root.members, name.id1).value);
            var e := WithObj(d, at, Obj(us, ""));
            e.root.Obj? && Unique(e.root.members) && Spot(e.root.members, name) == Some((at, 0))
  {
    var os, j := d.root.members, KeyIndex(d.root.members, name.id1).value;
    var vs := os[j := os[j].(val := Obj(us, ""))];
    assert WithObj(d, Within(j), Obj(us, "")).root.members == vs;
    assert KeyIndex(us, name.id2) == Some(0);
    assert NextBox(vs, j) == Some(j);
    hide Unique, HasKey, KeyIndex, NextBox;
    SameKeys(os, vs);
    SameIndex(os, vs, name.id1);
  }

  lemma SameNo(ms: seq<Member>, us: seq<Member>, j: nat)
    requires |us| == |ms| && j < |ms| && us[..j] == ms[..j]
    ensures KeyNo(us, 1, j) == KeyNo(ms, 1, j)
  {
    KeyNoIs(ms, 1, j);
    KeyNoIs(us, 1, j);
    hide KeyNo, MemberCount;
  }

  // As a last member whose key is the whole of a dotted name, or of one that is nothing.
  lemma LastIsLost(d: Doc, name: Name, m: Member, k: nat, u: string)
    requires WfDoc(d) && d.root.Obj? && Depth(d.root) < 32 && WfMember(m) && !IsBox(m.val)
    requires !name.One? && (name.Two? ==> !HasKey(d.root.members, name.id1) && m.key != name.id1)
    requires ReadsAs(u, Inserted(d, Root, |d.root.members|, m))
    ensures !ReadsAt(u, name, k, m.val)
  {
    var ms, e := d.root.members, Inserted(d, Root, |d.root.members|, m);
    assert e.root == Obj(ms + [m], "") by { assert ms[|ms|..] == [] && ms[..|ms|] == ms; }
    InsertedIsFine(d, Root, |ms|, m);
    hide WfDoc, Depth, ReadsAs, Inserted, WfMember, FindKey, Find2, Looked, Gives;
    ReadsLookup(u, e, name, false);
    if name.Two? {
      assert !HasKey(ms + [m], name.id1);
      NoKeyNothing(ms + [m], 1, name.id1, name.id2);
      FindKeyIff(ms + [m], 1, name.id1);
    }
  }

  // Which containers are open does not depend on what is searched.
  lemma {:induction false} SettleFrames(s: State, t: State)
    requires s.frames == t.frames
    ensures Settle(s).frames == Settle(t).frames
    decreases |s.frames|
  {
    var n := |s.frames|;
    if n > 0 && s.frames[n - 1].rem == 0 {
      SettleFrames(State(s.frames[..n - 1], s.hit && n - 1 >= 2, s.trace + [Close(s.frames[n - 1].owner, n)]),
                   State(t.frames[..n - 1], t.hit && n - 1 >= 2, t.trace + [Close(t.frames[n - 1].owner, n)]));
    }
  }

  lemma StepFrames(s: State, t: State, k: nat, tok: Tok, scope: Scope, text: string, scope2: Scope, text2: string)
    requires s.frames == t.frames
    ensures Step(s, k, tok, scope, text).frames == Step(t, k, tok, scope2, text2).frames
  {
    SettleFrames(Taken(s, k, tok, scope, text), Taken(t, k, tok, scope2, text2));
    hide Settle;
  }

  lemma {:induction false} RunFrames(s: State, t: State, k: nat, toks: seq<Tok>, scope: Scope, json: string,
      scope2: Scope, json2: string)
    requires s.frames == t.frames
    ensures Run(s, k, toks, scope, json).frames == Run(t, k, toks, scope2, json2).frames
    decreases |toks|
  {
    hide Step, TextOf;
    if toks != [] {
      StepFrames(s, t, k, toks[0], scope, TextOf(json, toks[0]), scope2, TextOf(json2, toks[0]));
      RunFrames(Step(s, k, toks[0], scope, TextOf(json, toks[0])),
        Step(t, k, toks[0], scope2, TextOf(json2, toks[0])), k + 1,
                toks[1..], scope, json, scope2, json2);
    }
  }

  // Behind the document nothing is found.
  lemma StrayNoHit(toks: seq<Tok>, root: Value, off: nat, scope: Scope, u: string, id: string, want: nat)
    requires |toks| > Count(root) && toks[..Count(root)] == Toks(root, off) && want > 0
    ensures Hit(u, toks, scope, id, want) != Some(Count(root))
  {
    var k, cb := Count(root), Callback(u, toks, id, want);
    hide Run, Toks, Events, FirstHit, TextOf, Count;
    WalkFindsTree(root, off, u);
    RunFrames(Begin, Begin, 0, toks[..k], Everything, u, scope, u);
    HitAt(toks, k, scope, u, cb);
  }

  lemma StrayIsLost(d: Doc, name: Name, m: Member, n: nat, u: string, v: Value)
    requires d.root.Obj? && Tokenized(u) == Some(Raws(Toks(d.root, |d.pre|)) + OneToks(m, n))
    ensures !ReadsAt(u, name, Count(d.root) + 1, v)
  {
    var xs, k := Raws(Toks(d.root, |d.pre|)) + OneToks(m, n), Count(d.root);
    TokCount(d.root, |d.pre|);
    StrayToks(Toks(d.root, |d.pre|), OneToks(m, n));
    hide Tokenized, Toks, OneToks, Count, Hit, Gives, AsToks;
    match name
    case Bad =>
    case One(id) =>
      StrayNoHit(AsToks(xs), d.root, |d.pre|, Everything, u, id, 1);
    case Two(id1, id2) =>
      StrayNoHit(AsToks(xs), d.root, |d.pre|, Under(id1), u, id2, 2);
  }

  lemma StrayToks(ts: seq<Tok>, y: seq<Raw>)
    requires y != []
    ensures |AsToks(Raws(ts) + y)| > |ts| && AsToks(Raws(ts) + y)[..|ts|] == ts
  {
    RawsAsToks(ts);
    AsToksAppend(Raws(ts), y);
  }

  // A new parameter is read back: the name ends at the value of the first key from its place on.
  ghost predicate CreatedBack(d: Doc, name: string, noDot: bool, v: Value)
    requires WfDoc(d) && d.root.Obj?
  {
    ReadsBack(NewText(d, name, noDot, v), NameOf(name, noDot), CreateAt(d, NameOf(name, noDot)), v)
  }

  lemma CreatedInText(d: Doc, name: string, noDot: bool, v: Value, u: string)
    requires WfDoc(d) && d.root.Obj? && u == NewText(d, name, noDot, v)
    ensures CreatedBack(d, name, noDot, v) <==> ReadsBack(u, NameOf(name, noDot), CreateAt(d, NameOf(name, noDot)), v)
  {
    hide NewText, NameOf, CreateAt, ReadsBack;
  }

  lemma PlaceFirst(d: Doc, name: Name)
    requires d.root.Obj? && InFirst(d.root.members, name)
    ensures var j := KeyIndex(d.root.members, name.id1).value;
            && CreateAt(d, name) == FirstAt(d, j) && NewNo(d, name) == KeyNo(d.root.members, 1, j) + 3
            && (d.root.members[j].val.Obj? ==> Holds(d, Within(j)) && FirstAt(d, j) == |LeftOf(d, Within(j))| + 1)
  {
    hide BeforeValue, KeyNo, KeyIndex, HasKey;
  }

  lemma KeyOfFirst(ms: seq<Member>, name: string, noDot: bool)
    requires InFirst(ms, NameOf(name, noDot)) && Tidy(name, noDot)
    ensures NewKey(ms, name, noDot) == NameOf(name, noDot).id2
    ensures NameOf(name, noDot) == Two(NameOf(name, noDot).id1, NameOf(name, noDot).id2)
  {
    hide NameOf, AfterDot, HasKey;
  }

  lemma CreatedFirst(d: Doc, name: string, noDot: bool, v: Value)
    requires WfDoc(d) && d.root.Obj? && Depth(d.root) < 32 && Unique(d.root.members)
             && InFirst(d.root.members, NameOf(name, noDot))
    requires StrOk(NewKey(d.root.members, name, noDot)) && Settable(v) && Tidy(name, noDot)
    ensures CreatedBack(d, name, noDot, v)
            <==> IsBox(d.root.members[KeyIndex(d.root.members, NameOf(name, noDot).id1).value].val)
  {
    hide *;
    var ms, nm := d.root.members, NameOf(name, noDot);
    KeyOfFirst(ms, name, noDot);
    PlaceFirst(d, nm);
    FirstThere(ms, nm);
    var j, m := KeyIndex(ms, nm.id1).value, Plain(nm.id2, v);
    PlainNew(ms, name, noDot, v);
    PlainParts(nm.id2, v);
    NewTextIs(d, name, noDot, v);
    CreatedInText(d, name, noDot, v, InsText(PrintDoc(d), CreateAt(d, nm), PrintMember(m)));
    BoxKinds(ms[j].val);
    InsideSplits(d, j, PrintMember(m));
    BackIsAt(InsText(PrintDoc(d), CreateAt(d, nm), PrintMember(m)), nm, CreateAt(d, nm), KeyNo(ms, 1, j) + 2, v);
    if ms[j].val.Obj? {
      CreatingReadsFirst(d, Within(j), m);
      FirstIsFound(d, nm, v, InsText(PrintDoc(d), CreateAt(d, nm), PrintMember(m)));
    } else {
      InsideReadsIff(d, j, m, nm.id1);
    }
  }

  lemma FirstThere(ms: seq<Member>, name: Name)
    requires InFirst(ms, name)
    ensures name.Two? && KeyIndex(ms, name.id1).Some? && KeyIndex(ms, name.id1).value < |ms|
  {
    KeyIndexIff(ms, name.id1);
    hide KeyIndex, HasKey;
  }

  lemma PlainParts(key: string, v: Value)
    ensures Plain(key, v).key == key && Plain(key, v).val == v
  {
  }

  lemma BoxKinds(v: Value)
    ensures IsBox(v) <==> v.Arr? || v.Obj?
  {
  }

  lemma PlaceLast(d: Doc, name: string, noDot: bool)
    requires d.root.Obj? && !InFirst(d.root.members, NameOf(name, noDot))
             && Spot(d.root.members, NameOf(name, noDot)) == None
    ensures var nm := NameOf(name, noDot);
            && CreateAt(d, nm) == |PrintDoc(d)| - 1 && NewNo(d, nm) == Count(d.root) + 1
            && NewKey(d.root.members, name, noDot) == name
            && (nm.One? ==> nm == One(name) && !HasKey(d.root.members, name))
            && (nm.Two? ==> !HasKey(d.root.members, nm.id1) && name != nm.id1)
  {
    var nm := NameOf(name, noDot);
    NameParts(name, noDot);
    hide NameOf, AfterDot, HasKey, PrintDoc, Count, KeyIndex, NextBox;
    if nm.One? {
      KeyIndexIff(d.root.members, name);
    } else if nm.Two? {
      assert |name| > |nm.id1|;
    }
  }

  lemma CountIsPositive(v: Value)
    ensures Count(v) >= 1
  {
  }

  // Behind the document.
  lemma StraySplits(d: Doc, m: Member)
    requires WfDoc(d) && d.root.Obj? && d.post != "" && WfMember(m) && !IsBox(m.val)
    ensures 1 <= |PrintDoc(d)| - 1 < |PrintDoc(d)|
    ensures var r := Tokenized(InsText(PrintDoc(d), |PrintDoc(d)| - 1, PrintMember(m)));
            r.Some? && Splits(r.value, |PrintDoc(d)| - 1, Count(d.root))
  {
    assert Wf(d.root) && |PrintDoc(d)| == |d.pre| + |Print(d.root)| + |d.post|;
    hide *;
    StrayTokens(d, m);
    ValueStartsBy(d.root, |d.pre|);
    TokCount(d.root, |d.pre|);
    RawsLength(Toks(d.root, |d.pre|));
    StartLater(Raws(Toks(d.root, |d.pre|)), |d.pre| + |Print(d.root)|, |PrintDoc(d)| - 1);
    NewStarts(m, |PrintDoc(d)| - 1);
    JoinedSplits(Raws(Toks(d.root, |d.pre|)), OneToks(m, |PrintDoc(d)| - 1), |PrintDoc(d)| - 1);
  }

  lemma RawsLength(ts: seq<Tok>)
    ensures |Raws(ts)| == |ts|
  {
  }

  lemma NewStarts(m: Member, off: nat)
    requires !IsBox(m.val)
    ensures forall i | 0 <= i < |OneToks(m, off)| :: OneToks(m, off)[i].start >= off
  {
    hide Print;
  }

  lemma JoinedSplits(a: seq<Raw>, b: seq<Raw>, pos: nat)
    requires StartBy(a, pos) && forall i | 0 <= i < |b| :: b[i].start >= pos
    ensures Splits(a + b, pos, |a|)
  {
    assert (a + b)[..|a|] == a;
  }

  // At the end of the object, in front of its brace.
  lemma EmptyFrontRead(d: Doc, r: string)
    requires WfDoc(d) && d.root.Obj? && d.root.members == []
    ensures var st, p := Filled([], TObj, |d.pre|, 0, []), d.pre + "{" + d.root.ws;
            Goes(Start, p + r, 0, st, r, |p|) && |st.toks| == 1 && StartBy(st.toks, |p|)
  {
    var st, ws := Filled([], TObj, |d.pre|, 0, []), d.root.ws;
    assert AllWs(ws);
    hide ReadOn, Goes, WfDoc, Wf;
    AfterRoot(d, ws + r);
    AfterWs(st, ws, r, |d.pre| + 1);
    assert d.pre + "{" + ws + r == d.pre + ("{" + (ws + r));
    Then(Start, d.pre + ("{" + (ws + r)), 0, st, ws + r, |d.pre| + 1, st, r, |d.pre| + 1 + |ws|);
  }

  lemma FullFrontRead(d: Doc, r: string)
    requires WfDoc(d) && d.root.Obj? && d.root.members != [] && Stops(r)
    ensures var i := |d.root.members| - 1;
            var m, o := d.root.members[i], Opening(d.pre, d.root.members, i);
            var st := WithOne(d, Root, i, m);
            && Goes(Start, o + PrintMember(m) + r, 0, st, r, |o + PrintMember(m)|) && |st.toks| == Count(d.root)
            && StartBy(st.toks, |o + PrintMember(m)|)
  {
    hide *;
    RootIsThere(d);
    var i := |d.root.members| - 1;
    var m, o := d.root.members[i], Opening(d.pre, d.root.members, i);
    FrontOf(d, i);
    AfterWithOne(d, Root, i, m, r);
    Assoc3(o, PrintMember(m), r);
    PlusLength(o, PrintMember(m));
    LongerCount(d, Root, i, m);
    TokenStep(d, Root, i);
    AllCounted(d);
    WithOneStarts(d, i);
  }

  lemma RootIsThere(d: Doc)
    requires d.root.Obj?
    ensures Holds(d, Root) && ObjAt(d, Root) == d.root && LeftOf(d, Root) == d.pre
    ensures d.root.members != [] ==> |d.root.members| - 1 < |d.root.members|
  {
  }

  lemma AllCounted(d: Doc)
    requires d.root.Obj?
    ensures Holds(d, Root) && |d.root.members| <= |ObjAt(d, Root).members|
            && TokenFrom(d, Root, |d.root.members|) == Count(d.root)
  {
    assert d.root.members[..|d.root.members|] == d.root.members;
  }

  lemma WithOneStarts(d: Doc, i: nat)
    requires WfDoc(d) && d.root.Obj? && i < |d.root.members|
    ensures Holds(d, Root) && i < |ObjAt(d, Root).members|
    ensures var m, o := d.root.members[i], Opening(d.pre, d.root.members, i);
            StartBy(WithOne(d, Root, i, m).toks, |o + PrintMember(m)|)
  {
    hide *;
    RootIsThere(d);
    var m, o := d.root.members[i], Opening(d.pre, d.root.members, i);
    ObjStateStarts(d, i);
    FrontOf(d, i);
    ValueWf(d, i);
    PlusLength(o, PrintMember(m));
    ValueStartsBy(m.val, |o| + HeadLen(m));
    OneStarts(m, |o|);
    JoinedStarts(ObjState(d, Root, i), m, |o|, |o + PrintMember(m)|);
    WithOneJoins(d, i);
  }

  lemma WithOneJoins(d: Doc, i: nat)
    requires d.root.Obj? && i < |d.root.members|
    ensures Holds(d, Root) && i < |ObjAt(d, Root).members|
    ensures WithOne(d, Root, i, d.root.members[i])
            == Joined(ObjState(d, Root, i), d.root.members[i], |Opening(d.pre, d.root.members, i)|)
  {
    hide ObjState, Joined, Opening;
  }

  lemma JoinedStarts(st: St, m: Member, off: nat, n: nat)
    requires StartBy(st.toks, off) && off <= n && StartBy(OneToks(m, off), n)
    ensures StartBy(Joined(st, m, off).toks, n)
  {
    assert Joined(st, m, off).toks == Bump(st.toks, st.super) + OneToks(m, off);
    hide OneToks, Joined;
  }

  lemma ObjStateStarts(d: Doc, i: nat)
    requires WfDoc(d) && d.root.Obj? && i < |d.root.members|
    ensures Holds(d, Root) && i <= |ObjAt(d, Root).members|
            && StartBy(ObjState(d, Root, i).toks, |Opening(d.pre, d.root.members, i)|)
  {
    var ms := d.root.members[..i];
    RootIsThere(d);
    FrontOf(d, i);
    MembersStartBy(ms, |d.pre| + 1);
    OpeningLength(d.pre, d.root.members, i);
    if ms != [] { LeadIsPrint(ms); } else { assert MemberToks(ms, |d.pre| + 1) == []; }
    hide MemberToks, Lead, PrintMembers, WfMember, Opening;
    assert ObjState(d, Root, i).toks == [Raw(TObj, |d.pre|, -1, i)] + Raws(MemberToks(ms, |d.pre| + 1));
  }

  lemma LastSplits(d: Doc, m: Member)
    requires WfDoc(d) && d.root.Obj? && WfMember(m) && !IsBox(m.val)
    ensures 1 <= |PrintDoc(d)| - 1 < |PrintDoc(d)|
    ensures var r := Tokenized(InsText(PrintDoc(d), |PrintDoc(d)| - 1, PrintMember(m)));
            r.Some? ==> Splits(r.value, |PrintDoc(d)| - 1, Count(d.root))
  {
    hide *;
    if d.post != "" {
      StraySplits(d, m);
    } else if d.root.members == [] {
      EmptySplits(d, m);
    } else {
      FullSplits(d, m);
    }
  }

  lemma EmptySplits(d: Doc, m: Member)
    requires WfDoc(d) && d.root.Obj? && d.post == "" && d.root.members == []
    ensures 1 <= |PrintDoc(d)| - 1 < |PrintDoc(d)|
    ensures var r := Tokenized(InsText(PrintDoc(d), |PrintDoc(d)| - 1, PrintMember(m)));
            r.Some? ==> Splits(r.value, |PrintDoc(d)| - 1, Count(d.root))
  {
    var p := d.pre + "{" + d.root.ws;
    assert PrintDoc(d) == p + "}" && Count(d.root) == 1 by { assert d.pre + ("{" + d.root.ws + "}") + "" == p + "}"; }
    hide *;
    var r := InsAtBrace(p, PrintMember(m));
    EmptyFrontRead(d, r);
    StartReads(p + r, Filled([], TObj, |d.pre|, 0, []), r, |p|);
    if Tokenized(p + r).Some? {
      SplitsAt(p + r, Filled([], TObj, |d.pre|, 0, []), r, |p|, |p|);
    }
  }

  lemma InsAtBrace(p: string, m: string) returns (r: string)
    requires p != []
    ensures |p + "}"| - 1 == |p| >= 1 && InsText(p + "}", |p|, m) == p + r && (p[|p| - 1] != '{' ==> Stops(r))
  {
    InsBetween(p, "}", m);
    CommaStops(m + "}");
    hide InsText, Stops;
    r := if p[|p| - 1] == '{' then m + "}" else "," + (m + "}");
    assert p + "" + m + "" + "}" == p + (m + "}") && p + "," + m + "" + "}" == p + ("," + (m + "}"));
  }

  lemma FullSplits(d: Doc, m: Member)
    requires WfDoc(d) && d.root.Obj? && d.post == "" && d.root.members != []
    ensures 1 <= |PrintDoc(d)| - 1 < |PrintDoc(d)|
    ensures var r := Tokenized(InsText(PrintDoc(d), |PrintDoc(d)| - 1, PrintMember(m)));
            r.Some? ==> Splits(r.value, |PrintDoc(d)| - 1, Count(d.root))
  {
    hide *;
    RootIsThere(d);
    var i := |d.root.members| - 1;
    var n, p := d.root.members[i], Opening(d.pre, d.root.members, i) + PrintMember(d.root.members[i]);
    FullText(d);
    var r := InsAtBrace(p, PrintMember(m));
    FullFrontRead(d, r);
    StartReads(p + r, WithOne(d, Root, i, n), r, |p|);
    if Tokenized(p + r).Some? {
      SplitsAt(p + r, WithOne(d, Root, i, n), r, |p|, |p|);
    }
  }

  lemma FullText(d: Doc)
    requires WfDoc(d) && d.root.Obj? && d.post == "" && d.root.members != []
    ensures var i := |d.root.members| - 1;
            var p := Opening(d.pre, d.root.members, i) + PrintMember(d.root.members[i]);
            PrintDoc(d) == p + "}" && p != [] && p[|p| - 1] != '{'
  {
    var i := |d.root.members| - 1;
    KeyIsInText(d, Root, i);
    AroundMember(d.pre, d.root.members, i, "");
    FrontOf(d, i);
    LastOfMember(d.root.members[i]);
    assert Closing(d.root.members, i, "") == "}";
    hide WfDoc, PrintDoc, PrintMember, Opening, Closing, Around, WfMember;
  }

  lemma CreatedLast(d: Doc, name: string, noDot: bool, v: Value)
    requires WfDoc(d) && d.root.Obj? && Depth(d.root) < 32 && Unique(d.root.members)
             && !InFirst(d.root.members, NameOf(name, noDot))
    requires Spot(d.root.members, NameOf(name, noDot)) == None && StrOk(NewKey(d.root.members, name, noDot))
             && Settable(v)
    ensures CreatedBack(d, name, noDot, v) <==> NameOf(name, noDot).One? && d.post == ""
  {
    hide *;
    var ms, nm, m := d.root.members, NameOf(name, noDot), Plain(name, v);
    PlaceLast(d, name, noDot);
    PlainNew(ms, name, noDot, v);
    PlainParts(name, v);
    NewTextIs(d, name, noDot, v);
    var u := NewText(d, name, noDot, v);
    CreatedInText(d, name, noDot, v, u);
    LastSplits(d, m);
    CountIsPositive(d.root);
    BackIsAt(u, nm, CreateAt(d, nm), Count(d.root), v);
    if d.post != "" {
      StrayTokens(d, m);
      StrayIsLost(d, nm, m, |PrintDoc(d)| - 1, u, v);
    } else {
      CreatingReadsLast(d, m);
      if nm.One? {
        LastIsFound(d, name, v, u);
      } else {
        LastIsLost(d, nm, m, NewNo(d, nm), u);
      }
    }
  }

  // A new parameter is found again, with its value, if and only if its first part is there and stands
  // for an object or an array, or its name has one part and the text ends with its brace.
  lemma CreatedReadsBack(d: Doc, name: string, noDot: bool, v: Value)
    requires WfDoc(d) && d.root.Obj? && Depth(d.root) < 32 && Unique(d.root.members)
             && Spot(d.root.members, NameOf(name, noDot)) == None
    requires StrOk(NewKey(d.root.members, name, noDot)) && Settable(v) && Tidy(name, noDot)
    ensures CreatedBack(d, name, noDot, v) <==>
            var nm := NameOf(name, noDot);
            if InFirst(d.root.members, nm) then IsBox(d.root.members[KeyIndex(d.root.members, nm.id1).value].val)
            else nm.One? && d.post == ""
  {
    hide WfDoc, Depth, Unique, Spot, NameOf, NewKey, StrOk, Settable, Tidy, CreatedBack, InFirst, IsBox;
    if InFirst(d.root.members, NameOf(name, noDot)) {
      CreatedFirst(d, name, noDot, v);
    } else {
      CreatedLast(d, name, noDot, v);
    }
  }

  // ----- Which document the new text is -----------------------------------------------------------

  // The text with the new member, which goes in front of the last character, or behind the first one
  // of the object.
  predicate MakesText(t: string, pos: int, m: Member, e: Doc) {
    && 1 <= pos < |t| && InsText(t, pos, PrintMember(m)) == PrintDoc(e)
    && WfDoc(e) && e.root.Obj? && Depth(e.root) < 32
  }

  lemma MadeText(d: Doc, at: Place, i: nat, m: Member)
    requires WfDoc(d) && Holds(d, at) && Depth(d.root) < 32 && i <= |ObjAt(d, at).members| && ObjAt(d, at).ws == ""
    requires WfMember(m) && !IsBox(m.val)
    ensures MakesText(PrintDoc(d), InsertAt(d, at, i), m, Inserted(d, at, i, m))
  {
    InsertedText(d, at, i, m);
    InsertedIsFine(d, at, i, m);
    hide InsertAt, Inserted, PrintDoc, InsText, PrintMember, WfDoc, WfMember, Depth, Holds;
  }

  lemma FirstIsMade(d: Doc, name: Name, m: Member)
    requires WfDoc(d) && d.root.Obj? && Depth(d.root) < 32 && InFirst(d.root.members, name) && RoomFor(d, name)
             && WfMember(m) && !IsBox(m.val)
    ensures var at := Within(KeyIndex(d.root.members, name.id1).value);
            Holds(d, at) && MakesText(PrintDoc(d), CreateAt(d, name), m, Inserted(d, at, 0, m))
  {
    var at := Within(KeyIndex(d.root.members, name.id1).value);
    assert Holds(d, at) && ObjAt(d, at).ws == "";
    hide *;
    PlaceFirst(d, name);
    MadeText(d, at, 0, m);
    FirstPosition(d, at);
  }

  lemma LastIsMade(d: Doc, name: Name, m: Member)
    requires WfDoc(d) && d.root.Obj? && Depth(d.root) < 32 && !InFirst(d.root.members, name) && RoomFor(d, name)
             && WfMember(m) && !IsBox(m.val)
    ensures MakesText(PrintDoc(d), CreateAt(d, name), m, Inserted(d, Root, |d.root.members|, m))
  {
    assert CreateAt(d, name) == |PrintDoc(d)| - 1 && d.post == "" && ObjAt(d, Root).ws == "" && Holds(d, Root)
           && ObjAt(d, Root) == d.root;
    hide *;
    MadeText(d, Root, |d.root.members|, m);
    LastCharacter(d);
  }

  // Where there is room for it, the new text is that of the document with the member.
  lemma NewTextIsDoc(d: Doc, name: string, noDot: bool, val: Value)
    requires WfDoc(d) && d.root.Obj? && Depth(d.root) < 32 && RoomFor(d, NameOf(name, noDot))
    requires StrOk(NewKey(d.root.members, name, noDot)) && Settable(val)
    ensures var e := Created(d, name, noDot, val);
            NewText(d, name, noDot, val) == PrintDoc(e) && WfDoc(e) && e.root.Obj? && Depth(e.root) < 32
  {
    var ms, nm := d.root.members, NameOf(name, noDot);
    var m := Plain(NewKey(ms, name, noDot), val);
    hide PrintDoc, WfDoc, Depth, NewKey, StrOk, Inserted, WfMember, NameOf, MakesText, InsText, NewText, PrintMember,
      CreateAt, HasKey,
      KeyIndex, Plain, Settable;
    PlainNew(ms, name, noDot, val);
    PlainParts(NewKey(ms, name, noDot), val);
    NewTextIs(d, name, noDot, val);
    if InFirst(ms, nm) {
      FirstIsMade(d, nm, m);
    } else {
      LastIsMade(d, nm, m);
    }
    TextMade(PrintDoc(d), CreateAt(d, nm), m, Created(d, name, noDot, val));
  }

  lemma TextMade(t: string, pos: int, m: Member, e: Doc)
    requires MakesText(t, pos, m, e)
    ensures 1 <= pos < |t| && InsText(t, pos, PrintMember(m)) == PrintDoc(e) && WfDoc(e) && e.root.Obj?
            && Depth(e.root) < 32
  {
    hide InsText, PrintMember, PrintDoc, WfDoc, Depth;
  }

  // What comes of a text in the end.
  ghost predicate NewReads(d: Doc, nm: Name, m: Member, u: string)
    requires d.root.Obj?
  {
    var ms := d.root.members;
    if InFirst(ms, nm) then
      var j := KeyIndex(ms, nm.id1).value;
      && (IsBox(ms[j].val) ==> Tokens(u).Some?)
      && (ms[j].val.Obj? ==> ReadsAs(u, Inserted(d, Within(j), 0, m)))
    else
      Tokens(u).Some? && (ReadsAs(u, Inserted(d, Root, |ms|, m)) <==> d.post == "")
  }

  lemma TokensIfBack(u: string, name: Name, k: nat, v: Value)
    requires ReadsAt(u, name, k, v)
    ensures Tokens(u).Some?
  {
  }

  lemma TokensOf(u: string)
    requires Tokenized(u).Some?
    ensures Tokens(u).Some?
  {
    hide Tokenized;
  }

  lemma NewFirstReads(d: Doc, nm: Name, v: Value)
    requires WfDoc(d) && d.root.Obj? && InFirst(d.root.members, nm) && StrOk(nm.id2) && Settable(v)
    ensures 1 <= CreateAt(d, nm) < |PrintDoc(d)|
    ensures NewReads(d, nm, Plain(nm.id2, v), InsText(PrintDoc(d), CreateAt(d, nm), PrintMember(Plain(nm.id2, v))))
  {
    var ms, j, m := d.root.members, KeyIndex(d.root.members, nm.id1).value, Plain(nm.id2, v);
    PlainIsWf(nm.id2, v);
    PlaceFirst(d, nm);
    CreateIsInside(d, nm);
    hide WfDoc, PrintDoc, InsText, PrintMember, ReadsAs, Inserted, KeyIndex, HasKey, CreateAt, LeftOf, Tokens,
      ReadsAt, FirstAt,
      WfMember, StrOk, KeyNo, NewNo, Plain;
    PlainParts(nm.id2, v);
    if ms[j].val.Obj? {
      CreatingReadsFirst(d, Within(j), m);
      TokensIfReads(InsText(PrintDoc(d), CreateAt(d, nm), PrintMember(m)), Inserted(d, Within(j), 0, m));
    } else if ms[j].val.Arr? {
      InsideReadsIff(d, j, m, nm.id1);
      TokensIfBack(InsText(PrintDoc(d), CreateAt(d, nm), PrintMember(m)), Two(nm.id1, m.key), KeyNo(ms, 1, j) + 3, v);
    }
  }

  // The code does not panic unless the first part of the name stands for a number or a string.
  lemma NewTextReads(d: Doc, name: string, noDot: bool, v: Value)
    requires WfDoc(d) && d.root.Obj? && Spot(d.root.members, NameOf(name, noDot)) == None
    requires StrOk(NewKey(d.root.members, name, noDot)) && Settable(v) && Tidy(name, noDot)
    ensures NewReads(d, NameOf(name, noDot), Plain(NewKey(d.root.members, name, noDot), v), NewText(d, name, noDot, v))
  {
    hide *;
    var nm := NameOf(name, noDot);
    NewTextIs(d, name, noDot, v);
    if InFirst(d.root.members, nm) {
      KeyOfFirst(d.root.members, name, noDot);
      NewFirstReads(d, nm, v);
    } else {
      PlaceLast(d, name, noDot);
      SettableIs(v);
      NewLastReads(d, nm, name, v, NewText(d, name, noDot, v));
    }
  }

  lemma NewLastReads(d: Doc, nm: Name, key: string, v: Value, u: string)
    requires WfDoc(d) && d.root.Obj? && !InFirst(d.root.members, nm) && StrOk(key) && Wf(v)
    requires 1 <= |PrintDoc(d)| - 1 < |PrintDoc(d)|
             && u == InsText(PrintDoc(d), |PrintDoc(d)| - 1, PrintMember(Plain(key, v)))
    ensures NewReads(d, nm, Plain(key, v), u)
  {
    var m := Plain(key, v);
    PlainIsWf(key, v);
    hide WfDoc, PrintDoc, InsText, PrintMember, ReadsAs, Inserted, KeyIndex, InFirst, Tokens, Tokenized, WfMember,
      StrOk, Plain;
    CreatingReadsIff(d, key, v);
    if d.post == "" {
      TokensIfReads(u, Inserted(d, Root, |d.root.members|, m));
    } else {
      StrayTokens(d, m);
      TokensOf(u);
    }
  }
}
