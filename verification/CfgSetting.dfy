/** What setting a parameter of a document does, from its name on: the text _cfg_set_int and
    _cfg_set_string of cfg/cfg.cpp make, and when jsmn_parse reads it as the document wanted. */
module CfgSetting {
  import opened Wrappers
  import opened JsonText
  import opened CfgText
  import opened CfgSet
  import opened CfgDoc
  import opened CfgSpots
  import opened CfgExact
  import opened CfgCreate
  import opened CfgRemove
  import opened CfgWalk
  import opened CfgLookup
  import opened CfgFind
  import opened CfgPlaces
  import opened CfgParam
  import opened JsmnTree
  import opened JsmnRead
  import opened CfgReads
  import opened CfgReadsIff

  // ----- Cutting a member out ---------------------------------------------------------------------

  // What the cut asks of its caller.
  predicate CutGives(t: string, keyStart: nat, keyEnd: nat, valLen: nat, r: Option<(string, nat)>) {
    && 2 <= keyStart <= keyEnd && keyEnd + 2 + valLen <= |t|
    && BackOver(t, keyStart - 2) >= 0 && OverInside(t, keyEnd + 2) + valLen <= |t|
    && CutText(t, keyStart, keyEnd, valLen) == r
  }

  lemma CutIsSafe(d: Doc, at: Place, i: nat, k: nat, e: nat, n: nat)
    requires WfDoc(d) && Holds(d, at) && i < |ObjAt(d, at).members|
             && InText(PrintDoc(d), LeftOf(d, at), ObjAt(d, at).members, i)
    requires k == KeyAt(LeftOf(d, at), ObjAt(d, at).members, i) && e == k + |ObjAt(d, at).members[i].key|
    requires n == ValLen(ObjAt(d, at).members, i)
    ensures CutGives(PrintDoc(d), k, e, n, CutOf(PrintDoc(d), LeftOf(d, at), ObjAt(d, at).members, i))
  {
    hide *;
    var ms, left := ObjAt(d, at).members, LeftOf(d, at);
    var p := SpotsOf(Opening(left, ms, i), ms[i]);
    KeyIsInText(d, at, i);
    MemberInText(left, ms, i, RightOf(d, at));
    SpotsAreKeyAt(left, ms, i);
    InSpotsIs(PrintDoc(d), Opening(left, ms, i), ms[i], Closing(ms, i, RightOf(d, at)), p);
    CutOfIsCut(PrintDoc(d), left, ms, i, p);
    SafeAtSpots(PrintDoc(d), p);
  }

  lemma SafeAtSpots(t: string, p: Spots)
    requires MemberAt(t, p)
    ensures CutGives(t, p.key, p.colon - 1, p.post - p.val, CutText(t, p.key, p.colon - 1, p.post - p.val))
  {
    StartStops(t, p);
    ValueStops(t, p);
    hide BackOver, OverInside, OverAfter, Before, Inside, After, IsWs, CutText;
  }

  function OfCut(r: Option<(string, nat)>): Removal {
    match r case None => Fails case Some((u, pos)) => Cut(u, pos)
  }

  lemma SuitsIsScalar(forString: bool, v: Value)
    ensures Suits(forString, v) ==> Scalar(v)
  {
  }

  // The tokens of a member say whether it can be replaced.
  lemma ReplaceableIs(t: string, toks: seq<Tok>, n: nat, ms: seq<Member>, i: nat, left: string, forString: bool)
    requires i < |ms| && PointsAt(toks, n, ms, i, left)
             && (ms[i].val.Prim? ==> TextOf(t, toks[n + 1]) == ms[i].val.text && !AfterQuote(t, toks[n + 1].start))
    ensures Replaceable(t, toks, n + 1, forString)
            == if Suits(forString, ms[i].val) then Some((toks[n], ValLen(ms, i))) else None
  {
    assert ms[i].val.Str? ==> ValLen(ms, i) == |ms[i].val.text| + 2;
    hide Print, SpotsOf, Opening, KeyAt, TextOf, IsNull, IsInt, AfterQuote;
  }

  // What is in front of a value is the colon or white space.
  lemma NotAfterQuote(o: string, m: Member, c: string)
    requires WfMember(m)
    ensures !AfterQuote(o + PrintMember(m) + c, SpotsOf(o, m).val)
  {
    var rest, p := Print(m.val) + (m.post + c), SpotsOf(o, m);
    MemberParts(m);
    HeadSpots(o, m, rest);
    SplitAtValue(o, m, c);
    hide HeadOf, Print, PrintMember, Wf;
    if m.mid != "" {
      var t := (o + HeadOf(m)) + rest;
      assert t[p.val - 1] == t[p.mid..p.val][|m.mid| - 1] == m.mid[|m.mid| - 1];
      assert IsWs(m.mid[|m.mid| - 1]);
    }
  }

  lemma SplitAtValue(o: string, m: Member, c: string)
    ensures o + PrintMember(m) + c == (o + HeadOf(m)) + (Print(m.val) + (m.post + c))
  {
    MemberSplit(m, c);
    HeadJoins(m, Print(m.val) + (m.post + c));
    hide *;
    Assoc3(o, PrintMember(m), c);
    Assoc3(o, HeadOf(m), Print(m.val) + (m.post + c));
  }

  lemma HeadJoins(m: Member, y: string)
    ensures HeadOf(m) + y == m.pre + ("\"" + m.key + "\"" + (m.colon + (":" + (m.mid + y))))
  {
    var h := m.pre + ("\"" + m.key + "\"" + m.colon + ":" + m.mid);
    assert HeadOf(m) == h;
    assert h + y == m.pre + ("\"" + m.key + "\"" + (m.colon + (":" + (m.mid + y))));
  }

  lemma PrimIsFree(d: Doc, at: Place, i: nat)
    requires WfDoc(d) && Holds(d, at) && i < |ObjAt(d, at).members| && ObjAt(d, at).members[i].val.Prim?
    ensures var ms, toks, n := ObjAt(d, at).members, Toks(d.root, |d.pre|),
            KeyNo(ObjAt(d, at).members, FirstNo(d, at), i);
            n + 1 < |toks| && !AfterQuote(PrintDoc(d), toks[n + 1].start)
  {
    hide *;
    var ms, left := ObjAt(d, at).members, LeftOf(d, at);
    TokenOfMember(d, at, i);
    KeyIsInText(d, at, i);
    AroundMember(left, ms, i, RightOf(d, at));
    MemberOfObject(d, at, i);
    NotAfterQuote(Opening(left, ms, i), ms[i], Closing(ms, i, RightOf(d, at)));
    PointsAtPrim(Toks(d.root, |d.pre|), KeyNo(ms, FirstNo(d, at), i), ms, i, left);
  }

  lemma MemberOfObject(d: Doc, at: Place, i: nat)
    requires WfDoc(d) && Holds(d, at) && i < |ObjAt(d, at).members|
    ensures WfMember(ObjAt(d, at).members[i])
  {
    ObjectIsWf(d, at);
    assert ObjAt(d, at).members[i] in ObjAt(d, at).members;
    hide Wf;
  }

  lemma PointsAtPrim(toks: seq<Tok>, n: nat, ms: seq<Member>, i: nat, left: string)
    requires i < |ms| && ms[i].val.Prim? && PointsAt(toks, n, ms, i, left)
    ensures n + 1 < |toks| && toks[n + 1].start == SpotsOf(Opening(left, ms, i), ms[i]).val
  {
    hide KeyAt, Opening, SpotsOf, ValLen;
  }

  lemma CutOnSafe(t: string, key: Tok, n: nat, r: Option<(string, nat)>)
    requires CutGives(t, key.start, key.end, n, r)
    ensures CutOn(t, Some((key, n))) == OfCut(r)
  {
    hide BackOver, OverInside, CutText;
  }

  // Removing the member that is found.
  lemma RemoveInDoc(d: Doc, name: Name, at: Place, i: nat, forString: bool)
    requires WfDoc(d) && d.root.Obj? && Depth(d.root) < 32 && Unique(d.root.members)
             && Spot(d.root.members, name) == Some((at, i))
    ensures Holds(d, at) && i < |ObjAt(d, at).members| && InText(PrintDoc(d), LeftOf(d, at), ObjAt(d, at).members, i)
    ensures RemoveOn(PrintDoc(d), Toks(d.root, |d.pre|), name, forString)
         == if !Suits(forString, ObjAt(d, at).members[i].val) then Fails
            else OfCut(CutOf(PrintDoc(d), LeftOf(d, at), ObjAt(d, at).members, i))
  {
    hide *;
    LookupOfSpot(d, name);
    DocLooks(d, name, false);
    var ms, toks, t := ObjAt(d, at).members, Toks(d.root, |d.pre|), PrintDoc(d);
    var n := KeyNo(ms, FirstNo(d, at), i);
    MemberIsInText(d, at, i);
    TokenOfMember(d, at, i);
    if ms[i].val.Prim? {
      TextOfMember(d, at, i);
      PrimIsFree(d, at, i);
    }
    ReplaceableIs(t, toks, n, ms, i, LeftOf(d, at), forString);
    RemoveOnFound(t, toks, name, forString, n + 1);
    if Suits(forString, ms[i].val) {
      PointsAtKey(toks, n, ms, i, LeftOf(d, at));
      CutIsSafe(d, at, i, toks[n].start, toks[n].end, ValLen(ms, i));
      CutOnSafe(t, toks[n], ValLen(ms, i), CutOf(t, LeftOf(d, at), ms, i));
    } else {
      NothingToCut(t);
    }
  }

  lemma DocLooks(d: Doc, name: Name, firstOnly: bool)
    requires WfDoc(d) && d.root.Obj? && Depth(d.root) < 32
    ensures Looks(PrintDoc(d), Toks(d.root, |d.pre|), name, firstOnly) == Some(Lookup(d.root.members, name, firstOnly))
    ensures Tokens(PrintDoc(d)) == Some(Toks(d.root, |d.pre|))
  {
    BoxOfObj(d);
    hide *;
    DocReads(d);
    ReadsLookup(PrintDoc(d), d, name, firstOnly);
  }

  lemma RemoveOnFound(t: string, toks: seq<Tok>, name: Name, forString: bool, k: nat)
    requires Looks(t, toks, name, false) == Some(At(k))
    ensures RemoveOn(t, toks, name, forString) == CutOn(t, Replaceable(t, toks, k, forString))
  {
    hide Looks, CutOn, Replaceable;
  }

  lemma PointsAtKey(toks: seq<Tok>, n: nat, ms: seq<Member>, i: nat, left: string)
    requires i < |ms| && PointsAt(toks, n, ms, i, left)
    ensures n + 1 < |toks| && toks[n].start == KeyAt(left, ms, i) && toks[n].end == toks[n].start + |ms[i].key|
  {
    hide KeyAt, Opening, SpotsOf, ValLen;
  }

  // ----- The document without it ------------------------------------------------------------------

  // A dotted name is its two parts, without white space.
  ghost predicate Tidy(name: string, noDot: bool) {
    match NameOf(name, noDot)
    case Two(id1, id2) => AfterDot(name) == id2
    case _ => true
  }

  // Where a name that is not there goes: first in the object of its first part if that is there, and
  // last in the top level, under the whole name, if not.
  ghost predicate InFirst(ms: seq<Member>, name: Name) {
    name.Two? && HasKey(ms, name.id1)
  }

  ghost function NewKey(ms: seq<Member>, name: string, noDot: bool): string {
    if InFirst(ms, NameOf(name, noDot)) then AfterDot(name) else name
  }

  lemma RemovedLength(ms: seq<Member>, i: nat)
    requires i < |ms|
    ensures |Removed(ms, i)| == |ms| - 1
  {
    hide TrimAfter;
  }

  lemma TrimFirstAt(ms: seq<Member>, k: nat)
    requires k < |ms|
    ensures |TrimFirst(ms)| == |ms| && TrimFirst(ms)[k].key == ms[k].key && TrimFirst(ms)[k].val == ms[k].val
  {
    hide TrimAfter;
  }

  lemma RemovedAt(ms: seq<Member>, i: nat, k: nat)
    requires i < |ms| && k < |ms| - 1
    ensures |Removed(ms, i)| == |ms| - 1
    ensures var m, o := Removed(ms, i)[k], ms[if k < i then k else k + 1]; m.key == o.key && m.val == o.val
  {
    RemovedLength(ms, i);
    if k >= i {
      TrimFirstAt(ms[i + 1..], k - i);
    }
    hide TrimFirst;
  }

  lemma RemovedKeys(ms: seq<Member>, i: nat)
    requires i < |ms|
    ensures var us := Removed(ms, i);
            |us| == |ms| - 1 && forall k | 0 <= k < |us| :: us[k].key == ms[if k < i then k else k + 1].key
  {
    RemovedLength(ms, i);
    forall k | 0 <= k < |ms| - 1 ensures Removed(ms, i)[k].key == ms[if k < i then k else k + 1].key {
      RemovedAt(ms, i, k);
    }
    hide Removed;
  }

  lemma ReplacedAt(ms: seq<Member>, i: nat, m: Member, k: nat)
    requires i < |ms| && k < |ms|
    ensures |Replaced(ms, i, m)| == |ms|
    ensures if k == i then Replaced(ms, i, m)[k] == m
            else Replaced(ms, i, m)[k].key == ms[k].key && Replaced(ms, i, m)[k].val == ms[k].val
  {
    RemovedLength(ms, i);
    if k > i {
      TrimFirstAt(ms[i + 1..], k - i - 1);
    }
    hide TrimFirst;
  }

  lemma KeysOfRemoved(ms: seq<Member>, i: nat)
    requires i < |ms| && Unique(ms)
    ensures Unique(Removed(ms, i)) && !HasKey(Removed(ms, i), ms[i].key)
  {
    RemovedKeys(ms, i);
    hide Removed;
  }

  lemma KeyIndexIs(ms: seq<Member>, i: nat)
    requires i < |ms| && Unique(ms)
    ensures KeyIndex(ms, ms[i].key) == Some(i)
  {
    assert HasKey(ms, ms[i].key);
  }

  lemma SameKeys(ms: seq<Member>, us: seq<Member>)
    requires |us| == |ms| && Unique(ms) && forall i | 0 <= i < |ms| :: us[i].key == ms[i].key
    ensures Unique(us)
  {
  }

  // With the same keys, and containers in the same places, the same is found.
  lemma SameIndex(ms: seq<Member>, us: seq<Member>, id: string)
    requires |us| == |ms| && forall i | 0 <= i < |ms| :: us[i].key == ms[i].key
    ensures KeyIndex(us, id) == KeyIndex(ms, id)
    decreases ms
  {
    if ms != [] {
      SameIndex(ms[1..], us[1..], id);
    }
  }

  lemma SameBoxes(ms: seq<Member>, us: seq<Member>, j: nat)
    requires |us| == |ms| && j <= |ms| && forall i | 0 <= i < |ms| :: IsBox(us[i].val) == IsBox(ms[i].val)
    ensures NextBox(us, j) == NextBox(ms, j)
    decreases |ms| - j
  {
    if j < |ms| {
      SameBoxes(ms, us, j + 1);
    }
  }

  // An object in the place of the one that the name leads to.
  lemma SpotWithObj(d: Doc, name: Name, at: Place, i: nat, us: seq<Member>)
    requires d.root.Obj? && Unique(d.root.members) && Spot(d.root.members, name) == Some((at, i)) && at.Within?
             && Holds(d, at)
    ensures var e := WithObj(d, at, Obj(us, ""));
            && e.root.Obj? && Unique(e.root.members) && name.Two? && HasKey(e.root.members, name.id1)
            && Spot(e.root.members, name)
               == match KeyIndex(us, name.id2) case None => None case Some(k) => Some((at, k))
  {
    var os := d.root.members;
    var vs := os[at.j := os[at.j].(val := Obj(us, ""))];
    assert WithObj(d, at, Obj(us, "")).root.members == vs;
    hide Unique, HasKey, KeyIndex, NextBox;
    SameKeys(os, vs);
    SameIndex(os, vs, name.id1);
    SameBoxes(os, vs, KeyIndex(os, name.id1).value);
    KeyIndexIff(vs, name.id1);
  }

  lemma SpotInRoot(d: Doc, name: Name, i: nat)
    requires d.root.Obj? && Spot(d.root.members, name) == Some((Root, i))
    ensures name.One? && KeyIndex(d.root.members, name.id) == Some(i)
  {
    hide KeyIndex, NextBox;
  }

  lemma SpotWithin(d: Doc, name: Name, at: Place, i: nat)
    requires d.root.Obj? && Spot(d.root.members, name) == Some((at, i)) && at.Within?
    ensures Holds(d, at) && i < |ObjAt(d, at).members| && name.Two? && ObjAt(d, at).members[i].key == name.id2
  {
    hide NextBox;
  }

  // The name stands for nothing then, and what it adds is the key that was there.
  lemma AfterRemoving(d: Doc, name: string, noDot: bool, at: Place, i: nat)
    requires d.root.Obj? && Unique(d.root.members) && Spot(d.root.members, NameOf(name, noDot)) == Some((at, i))
             && Holds(d, at)
    requires i < |ObjAt(d, at).members| && Unique(ObjAt(d, at).members) && Tidy(name, noDot)
    ensures var e := Less(d, at, i);
            && e.root.Obj? && Unique(e.root.members) && Spot(e.root.members, NameOf(name, noDot)) == None
            && NewKey(e.root.members, name, noDot) == ObjAt(d, at).members[i].key
  {
    var ms, nm := ObjAt(d, at).members, NameOf(name, noDot);
    var us := Removed(ms, i);
    KeysOfRemoved(ms, i);
    hide Removed, NameOf, AfterDot, HasKey, Unique, NextBox, KeyIndex, TrimAfter;
    if at.Within? {
      SpotWithin(d, nm, at, i);
      SpotWithObj(d, nm, at, i, us);
      KeyIndexIff(us, nm.id2);
    } else {
      SpotInRoot(d, nm, i);
      KeyIndexIff(us, nm.id);
      NameParts(name, noDot);
    }
  }

  lemma LessDepth(d: Doc, at: Place, i: nat)
    requires Holds(d, at) && Depth(d.root) < 32 && i < |ObjAt(d, at).members|
    ensures Depth(Less(d, at, i).root) < 32
  {
    var ms := ObjAt(d, at).members;
    var us := Removed(ms, i);
    RemovedLength(ms, i);
    forall k | 0 <= k < |us| ensures us[k].val == ms[if k < i then k else k + 1].val {
      RemovedAt(ms, i, k);
    }
    hide Depth, Removed;
    DepthOfWith(d, at, us, "");
  }

  // ----- A parameter that is there ----------------------------------------------------------------

  // What the lookup finds when the name stands for nothing: which part of it is there.
  lemma LookupOfNothing(e: Doc, name: string, noDot: bool)
    requires e.root.Obj? && Unique(e.root.members) && Spot(e.root.members, NameOf(name, noDot)) == None
    ensures Lookup(e.root.members, NameOf(name, noDot), false)
            == if InFirst(e.root.members, NameOf(name, noDot)) then OnlyFirst else Missing
  {
    hide NameOf, Lookup, Spot, Unique, HasKey;
    LookupOfSpot(e, NameOf(name, noDot));
  }

  // Changing in a text that reads as a document in which the name stands for nothing.
  lemma ChangeOnRead(u: string, e: Doc, name: string, val: Value, pos: nat)
    requires ReadsAs(u, e) && e.root.Obj? && Depth(e.root) < 32 && Unique(e.root.members)
             && Spot(e.root.members, NameOf(name, false)) == None
    ensures Tokens(u).Some?
    ensures ChangeOn(u, Tokens(u).value, name, val, pos)
            == InsertOn(u, pos, NewKey(e.root.members, name, false), val)
  {
    hide *;
    LookupOfNothing(e, name, false);
    ReadsLookup(u, e, NameOf(name, false), false);
    TokensIfReads(u, e);
    ChangeOnNothing(u, Tokens(u).value, e.root.members, name, val, pos);
  }

  lemma TokensIfReads(u: string, e: Doc)
    requires ReadsAs(u, e)
    ensures Tokens(u).Some?
  {
    hide Alike;
  }

  lemma ChangeOnNothing(u: string, toks: seq<Tok>, ms: seq<Member>, name: string, val: Value, pos: nat)
    requires Looks(u, toks, NameOf(name, false), false)
             == Some(if InFirst(ms, NameOf(name, false)) then OnlyFirst else Missing)
    ensures ChangeOn(u, toks, name, val, pos) == InsertOn(u, pos, NewKey(ms, name, false), val)
  {
    hide Looks, NameOf, InFirst, InsertOn, AfterDot;
  }

  // The text the cut leaves still has what the name leads to.
  predicate Lingers(d: Doc, at: Place, i: nat, name: Name)
    requires Holds(d, at) && i < |ObjAt(d, at).members| && InText(PrintDoc(d), LeftOf(d, at), ObjAt(d, at).members, i)
  {
    match CutOf(PrintDoc(d), LeftOf(d, at), ObjAt(d, at).members, i)
    case None => false
    case Some((u, pos)) =>
      match Tokens(u)
      case None => false
      case Some(ts) => var r := Looks(u, ts, name, false); r.Some? && r.value.At?
  }

  // What can come of setting: the text, or None.
  predicate SetsTo(d: Doc, at: Place, i: nat, val: Value, name: Name, r: Option<string>)
    requires Holds(d, at) && i < |ObjAt(d, at).members| && InText(PrintDoc(d), LeftOf(d, at), ObjAt(d, at).members, i)
  {
    var m, e := ObjAt(d, at).members[i], Setting(d, at, i, val);
    if !Suits(val.Str?, m.val) then r == None
    else if HeadCuttable(m) then r == Some(if Cuttable(m) then PrintDoc(e) else SetLoosely(d, at, i, val))
            && ReadsAs(r.value, e)
    else r.Some? ==> Lingers(d, at, i, name) || !ReadsAs(r.value, e)
  }

  lemma SetOnFound(d: Doc, name: string, noDot: bool, val: Value, at: Place, i: nat)
    requires WfDoc(d) && d.root.Obj? && Depth(d.root) < 32 && Unique(d.root.members)
    requires Spot(d.root.members, NameOf(name, noDot)) == Some((at, i))
    ensures SetOn(PrintDoc(d), Toks(d.root, |d.pre|), name, noDot, val)
            == ReplaceOn(PrintDoc(d), Toks(d.root, |d.pre|), name, val)
  {
    hide *;
    LookupOfSpot(d, NameOf(name, noDot));
    DocLooks(d, NameOf(name, noDot), false);
    SetOnAt(PrintDoc(d), Toks(d.root, |d.pre|), name, noDot, val, KeyNo(ObjAt(d, at).members, FirstNo(d, at), i) + 1);
  }

  lemma SetOnAt(t: string, toks: seq<Tok>, name: string, noDot: bool, val: Value, k: nat)
    requires Looks(t, toks, NameOf(name, noDot), false) == Some(At(k))
    ensures SetOn(t, toks, name, noDot, val) == ReplaceOn(t, toks, name, val)
  {
    hide Looks, NameOf, ReplaceOn;
  }

  lemma ReplaceOnCut(t: string, toks: seq<Tok>, name: string, val: Value, u: string, pos: nat)
    requires RemoveOn(t, toks, NameOf(name, false), val.Str?) == Cut(u, pos)
    ensures ReplaceOn(t, toks, name, val)
         == match Tokens(u) case None => None case Some(ts) => ChangeOn(u, ts, name, val, pos)
  {
    hide Tokens, NameOf, RemoveOn, ChangeOn;
  }

  lemma ReplaceOnFails(t: string, toks: seq<Tok>, name: string, val: Value)
    requires RemoveOn(t, toks, NameOf(name, false), val.Str?) == Fails
    ensures ReplaceOn(t, toks, name, val) == None
  {
    hide NameOf, RemoveOn;
  }

  lemma InsertOnInside(t: string, pos: nat, id: string, val: Value)
    requires 1 <= pos < |t|
    ensures InsertOn(t, pos, id, val) == Some(InsText(t, pos, PrintMember(Plain(id, val))))
  {
    hide InsText, PrintMember;
  }

  lemma OfCutSome(u: string, pos: nat)
    ensures OfCut(Some((u, pos))) == Cut(u, pos) && OfCut(None) == Fails
  {
  }

  // White space that lets the cut find the value.
  lemma SetsWell(d: Doc, name: string, val: Value, at: Place, i: nat) returns (u: string)
    requires WfDoc(d) && d.root.Obj? && Depth(d.root) < 32 && Unique(d.root.members)
    requires Spot(d.root.members, NameOf(name, false)) == Some((at, i)) && Holds(d, at) && i < |ObjAt(d, at).members|
    requires Unique(ObjAt(d, at).members) && Tidy(name, false) && Settable(val)
    requires Suits(val.Str?, ObjAt(d, at).members[i].val) && HeadCuttable(ObjAt(d, at).members[i])
    ensures ReplaceOn(PrintDoc(d), Toks(d.root, |d.pre|), name, val) == Some(u)
            && ReadsAs(u, Setting(d, at, i, val))
    ensures Sets(PrintDoc(d), LeftOf(d, at), ObjAt(d, at).members, i, Plain(ObjAt(d, at).members[i].key, val), u)
  {
    hide *;
    var t, toks, ms, nm, e := PrintDoc(d), Toks(d.root, |d.pre|), ObjAt(d, at).members, NameOf(name, false),
        Less(d, at, i);
    SettableIs(val);
    SuitsIsScalar(val.Str?, ms[i].val);
    RemoveInDoc(d, nm, at, i, val.Str?);
    RemovingReadsIff(d, at, i);
    SettingReadsIff(d, at, i, val);
    u :| Sets(t, LeftOf(d, at), ms, i, Plain(ms[i].key, val), u) && ReadsAs(u, Setting(d, at, i, val));
    SetsParts(t, LeftOf(d, at), ms, i, Plain(ms[i].key, val), u);
    var (c, pos) := CutOf(t, LeftOf(d, at), ms, i).value;
    OfCutSome(c, pos);
    AfterRemoving(d, name, false, at, i);
    LessDepth(d, at, i);
    ChangeOnRead(c, e, name, val, pos);
    ReplaceOnCut(t, toks, name, val, c, pos);
    InsertOnInside(c, pos, ms[i].key, val);
  }

  lemma SettableIs(val: Value)
    ensures Settable(val) <==> Wf(val) && !IsBox(val)
  {
  }

  lemma SetsOnce(t: string, left: string, ms: seq<Member>, i: nat, m: Member, u: string, w: string)
    requires i < |ms| && Sets(t, left, ms, i, m, u) && Sets(t, left, ms, i, m, w)
    ensures u == w
  {
    hide SetText, PrintMember, KeyAt, ValLen;
  }

  // Any other.
  lemma SetsBadly(d: Doc, name: string, val: Value, at: Place, i: nat, u: string)
    requires WfDoc(d) && d.root.Obj? && Depth(d.root) < 32 && Unique(d.root.members)
    requires Spot(d.root.members, NameOf(name, false)) == Some((at, i)) && Holds(d, at) && i < |ObjAt(d, at).members|
    requires Settable(val) && Tidy(name, false)
    requires Suits(val.Str?, ObjAt(d, at).members[i].val) && !HeadCuttable(ObjAt(d, at).members[i])
    requires ReplaceOn(PrintDoc(d), Toks(d.root, |d.pre|), name, val) == Some(u)
    requires InText(PrintDoc(d), LeftOf(d, at), ObjAt(d, at).members, i) && !Lingers(d, at, i, NameOf(name, false))
    ensures !ReadsAs(u, Setting(d, at, i, val))
  {
    hide *;
    var t, toks, ms, nm := PrintDoc(d), Toks(d.root, |d.pre|), ObjAt(d, at).members, NameOf(name, false);
    var r := CutOf(t, LeftOf(d, at), ms, i);
    SettableIs(val);
    SuitsIsScalar(val.Str?, ms[i].val);
    RemoveInDoc(d, nm, at, i, val.Str?);
    OfCutSome("", 0);
    if r == None {
      ReplaceOnFails(t, toks, name, val);
    } else {
      var (c, pos) := r.value;
      OfCutSome(c, pos);
      ReplaceOnCut(t, toks, name, val, c, pos);
      LingersIs(d, at, i, nm, c, pos);
      CutIsInside(d, at, i, c, pos);
      var key := ChangedKey(c, Tokens(c).value, name, val, pos, u);
      NameIsOk(d, name, false, at, i);
      SetsFrom(t, LeftOf(d, at), ms, i, Plain(key, val), c, pos);
      SettingUnread(d, at, i, key, val, u);
    }
  }

  lemma StartOfDoc(d: Doc)
    requires WfDoc(d) && d.root.Obj?
    ensures PrintDoc(d) != [] && (IsWs(PrintDoc(d)[0]) || PrintDoc(d)[0] == '{')
  {
    FirstOfValue(d.root, "");
    assert Print(d.root) + "" == Print(d.root);
    hide Print, Wf;
    if d.pre == "" {
      assert PrintDoc(d)[0] == Print(d.root)[0];
    } else {
      assert PrintDoc(d)[0] == d.pre[0];
    }
  }

  lemma CutAtStart(t: string, keyStart: nat, keyEnd: nat, valLen: nat)
    requires 2 <= keyStart <= keyEnd && keyEnd + 2 + valLen <= |t| && t[0] != ','
    ensures var r := CutText(t, keyStart, keyEnd, valLen); r.Some? ==> r.value.1 >= 1
  {
    hide BackOver, OverInside, OverAfter;
  }

  lemma CutIsInside(d: Doc, at: Place, i: nat, u: string, pos: nat)
    requires WfDoc(d) && d.root.Obj? && Holds(d, at) && i < |ObjAt(d, at).members|
    requires InText(PrintDoc(d), LeftOf(d, at), ObjAt(d, at).members, i)
    requires CutOf(PrintDoc(d), LeftOf(d, at), ObjAt(d, at).members, i) == Some((u, pos))
    ensures pos >= 1
  {
    var t, ms, left := PrintDoc(d), ObjAt(d, at).members, LeftOf(d, at);
    StartOfDoc(d);
    hide PrintDoc, LeftOf, ObjAt, Holds, WfDoc, KeyAt, ValLen, CutText;
    CutAtStart(t, KeyAt(left, ms, i), KeyAt(left, ms, i) + |ms[i].key|, ValLen(ms, i));
  }

  lemma LingersIs(d: Doc, at: Place, i: nat, name: Name, u: string, pos: nat)
    requires Holds(d, at) && i < |ObjAt(d, at).members| && InText(PrintDoc(d), LeftOf(d, at), ObjAt(d, at).members, i)
    requires CutOf(PrintDoc(d), LeftOf(d, at), ObjAt(d, at).members, i) == Some((u, pos)) && !Lingers(d, at, i, name)
    ensures Tokens(u).Some? ==> var r := Looks(u, Tokens(u).value, name, false); r.Some? ==> !r.value.At?
  {
    hide CutOf, Tokens, Looks, PrintDoc, LeftOf, ObjAt, InText, Holds;
  }

  lemma OnlyFirstOfTwo(c: string, ts: seq<Tok>, name: Name)
    ensures Looks(c, ts, name, false) == Some(OnlyFirst) ==> name.Two?
  {
    hide Deep, Hit;
  }

  lemma {:induction false} JoinIsOk(a: string, b: string)
    requires StrOk(a) && StrOk(b)
    ensures StrOk(a + b)
  {
    if a == [] {
      assert a + b == b;
    } else {
      var n := CharLen(a);
      assert (a + b)[n..] == a[n..] + b;
      CharLenOfFront(a, b);
      JoinIsOk(a[n..], b);
    }
  }

  lemma CharLenOfFront(a: string, b: string)
    requires a != [] && CharLen(a) > 0
    ensures CharLen(a + b) == CharLen(a)
  {
  }

  lemma DotIsOk()
    ensures StrOk(".")
  {
    assert "."[1..] == "";
  }

  lemma NameParts(name: string, noDot: bool)
    ensures match NameOf(name, noDot)
            case Two(id1, id2) => name == id1 + "." + AfterDot(name)
            case One(id) => id == name
            case Bad => true
  {
    var n := UpTo(name, '.');
    hide Word, DropSpace;
    if n < |name| {
      assert name == name[..n] + "." + name[n + 1..];
    }
  }

  // A name that leads to a member can be a key itself.
  lemma NameIsOk(d: Doc, name: string, noDot: bool, at: Place, i: nat)
    requires WfDoc(d) && d.root.Obj? && Unique(d.root.members)
             && Spot(d.root.members, NameOf(name, noDot)) == Some((at, i))
    requires Holds(d, at) && i < |ObjAt(d, at).members| && Tidy(name, noDot)
    ensures StrOk(name) && (NameOf(name, noDot).Two? ==> StrOk(AfterDot(name)))
  {
    var nm, os := NameOf(name, noDot), d.root.members;
    NameParts(name, noDot);
    KeyIsOk(d, at, i);
    DotIsOk();
    hide NameOf, AfterDot, StrOk, WfDoc, Unique, NextBox, KeyIndex;
    if nm.Two? {
      SpotWithin(d, nm, at, i);
      KeyIsOk(d, Root, KeyIndex(os, nm.id1).value);
      JoinIsOk(nm.id1, ".");
      JoinIsOk(nm.id1 + ".", AfterDot(name));
    } else {
      SpotInRootKey(d, nm, at, i);
    }
  }

  lemma SpotInRootKey(d: Doc, name: Name, at: Place, i: nat)
    requires d.root.Obj? && Spot(d.root.members, name) == Some((at, i)) && !name.Two?
    ensures name.One? && Holds(d, at) && i < |ObjAt(d, at).members| && ObjAt(d, at).members[i].key == name.id
  {
    hide NextBox;
  }

  lemma ChangedKey(c: string, ts: seq<Tok>, name: string, val: Value, pos: nat, u: string)
      returns (key: string)
    requires ChangeOn(c, ts, name, val, pos) == Some(u) && pos >= 1
    requires var r := Looks(c, ts, NameOf(name, false), false); r.Some? ==> !r.value.At?
    ensures (key == name || (NameOf(name, false).Two? && key == AfterDot(name))) && 1 <= pos < |c|
            && u == InsText(c, pos, PrintMember(Plain(key, val)))
  {
    OnlyFirstOfTwo(c, ts, NameOf(name, false));
    hide Looks, NameOf, InsText, PrintMember, AfterDot;
    key := if Looks(c, ts, NameOf(name, false), false).value.OnlyFirst? then AfterDot(name) else name;
  }

  // Setting a parameter that is there: right if and only if the value is one to be replaced and the
  // white space lets the cut find it.  (Otherwise, should the text left have the name again, the code
  // starts over.)
  lemma SettingThere(d: Doc, name: string, val: Value, at: Place, i: nat)
    requires WfDoc(d) && d.root.Obj? && Depth(d.root) < 32 && Unique(d.root.members)
    requires Spot(d.root.members, NameOf(name, false)) == Some((at, i)) && Holds(d, at) && i < |ObjAt(d, at).members|
    requires Unique(ObjAt(d, at).members) && Tidy(name, false) && Settable(val)
    ensures InText(PrintDoc(d), LeftOf(d, at), ObjAt(d, at).members, i)
    ensures SetsTo(d, at, i, val, NameOf(name, false), SetOn(PrintDoc(d), Toks(d.root, |d.pre|), name, false, val))
  {
    hide *;
    var t, toks, ms, nm := PrintDoc(d), Toks(d.root, |d.pre|), ObjAt(d, at).members, NameOf(name, false);
    SetOnFound(d, name, false, val, at, i);
    RemoveInDoc(d, nm, at, i, val.Str?);
    if !Suits(val.Str?, ms[i].val) {
      ReplaceOnFails(t, toks, name, val);
      SetsToNone(d, at, i, val, nm);
    } else if HeadCuttable(ms[i]) {
      var u := SetsWell(d, name, val, at, i);
      SettableIs(val);
      if Cuttable(ms[i]) {
        SettingText(d, at, i, val);
        SetsOnce(t, LeftOf(d, at), ms, i, Plain(ms[i].key, val), u, PrintDoc(Setting(d, at, i, val)));
      } else {
        SetsLoosely(d, at, i, val);
        SetsFrom(t, LeftOf(d, at), ms, i, Plain(ms[i].key, val), CutLoosely(d, at, i), |Opening(LeftOf(d, at), ms, i)|);
        SetsOnce(t, LeftOf(d, at), ms, i, Plain(ms[i].key, val), u, SetLoosely(d, at, i, val));
      }
      SetsToText(d, at, i, val, nm, u);
    } else {
      var r := ReplaceOn(t, toks, name, val);
      if r.Some? && !Lingers(d, at, i, nm) {
        SetsBadly(d, name, val, at, i, r.value);
      }
      SetsToOther(d, at, i, val, nm, r);
    }
  }

  lemma SetsToNone(d: Doc, at: Place, i: nat, val: Value, name: Name)
    requires Holds(d, at) && i < |ObjAt(d, at).members| && InText(PrintDoc(d), LeftOf(d, at), ObjAt(d, at).members, i)
    requires !Suits(val.Str?, ObjAt(d, at).members[i].val)
    ensures SetsTo(d, at, i, val, name, None)
  {
    hide ObjAt, PrintDoc, LeftOf, InText, Holds, Suits, Setting, Lingers, ReadsAs, SetLoosely;
  }

  lemma SetsToText(d: Doc, at: Place, i: nat, val: Value, name: Name, u: string)
    requires Holds(d, at) && i < |ObjAt(d, at).members| && InText(PrintDoc(d), LeftOf(d, at), ObjAt(d, at).members, i)
    requires Suits(val.Str?, ObjAt(d, at).members[i].val) && HeadCuttable(ObjAt(d, at).members[i])
    requires ReadsAs(u, Setting(d, at, i, val))
    requires u == if Cuttable(ObjAt(d, at).members[i]) then PrintDoc(Setting(d, at, i, val)) else SetLoosely(d, at, i,
             val)
    ensures SetsTo(d, at, i, val, name, Some(u))
  {
    hide ObjAt, PrintDoc, LeftOf, InText, Holds, Suits, Setting, Lingers, ReadsAs, HeadCuttable, Cuttable, SetLoosely;
  }

  lemma SetsToOther(d: Doc, at: Place, i: nat, val: Value, name: Name, r: Option<string>)
    requires Holds(d, at) && i < |ObjAt(d, at).members| && InText(PrintDoc(d), LeftOf(d, at), ObjAt(d, at).members, i)
    requires Suits(val.Str?, ObjAt(d, at).members[i].val) && !HeadCuttable(ObjAt(d, at).members[i])
    requires r.Some? ==> Lingers(d, at, i, name) || !ReadsAs(r.value, Setting(d, at, i, val))
    ensures SetsTo(d, at, i, val, name, r)
  {
    hide ObjAt, PrintDoc, LeftOf, InText, Holds, Suits, Setting, Lingers, ReadsAs, HeadCuttable, Cuttable, SetLoosely;
  }

  // Removing it: right if and only if, in the same way.
  lemma RemovingThere(d: Doc, name: Name, at: Place, i: nat, forString: bool)
    requires WfDoc(d) && d.root.Obj? && Depth(d.root) < 32 && Unique(d.root.members)
             && Spot(d.root.members, name) == Some((at, i))
    requires Holds(d, at) && i < |ObjAt(d, at).members|
    ensures var m, r := ObjAt(d, at).members[i], RemoveOn(PrintDoc(d), Toks(d.root, |d.pre|), name, forString);
            if Suits(forString, m.val) then r.Cut? && ReadsAs(r.text, Less(d, at, i))
               <==> HeadCuttable(m) else r == Fails
  {
    RemoveInDoc(d, name, at, i, forString);
    SuitsIsScalar(forString, ObjAt(d, at).members[i].val);
    hide WfDoc, Depth, Unique, Spot, Toks, PrintDoc, RemoveOn, Suits, HeadCuttable, ReadsAs, CutOf, InText, LeftOf,
      ObjAt, Holds, Less;
    if Suits(forString, ObjAt(d, at).members[i].val) {
      RemovingReadsIff(d, at, i);
    }
  }

  // CFG_NO_DOT is for the first lookup only: a dotted key that it finds is not removed if the name, taken
  // apart, stands for nothing, and the member goes in front of the whole text.
  lemma SettingNoDot(d: Doc, name: string, val: Value)
    requires WfDoc(d) && d.root.Obj? && Depth(d.root) < 32 && Unique(d.root.members)
    requires Spot(d.root.members, NameOf(name, true)).Some? && Spot(d.root.members, NameOf(name, false)) == None
    ensures SetOn(PrintDoc(d), Toks(d.root, |d.pre|), name, true, val)
            == Some(PrintMember(Plain(NewKey(d.root.members, name, false), val)) + "," + PrintDoc(d))
  {
    hide *;
    var t, toks, key := PrintDoc(d), Toks(d.root, |d.pre|), NewKey(d.root.members, name, false);
    var (at, i) := Spot(d.root.members, NameOf(name, true)).value;
    SetOnFound(d, name, true, val, at, i);
    LookupOfNothing(d, name, false);
    DocLooks(d, NameOf(name, false), false);
    BoxOfObj(d);
    DocReads(d);
    ReplaceOnNothing(t, toks, d.root.members, name, val);
    ChangeOnRead(t, d, name, val, 0);
    StartOfDoc(d);
    InsertOnFront(t, key, val);
  }

  lemma ReplaceOnNothing(t: string, toks: seq<Tok>, ms: seq<Member>, name: string, val: Value)
    requires Looks(t, toks, NameOf(name, false), false)
             == Some(if InFirst(ms, NameOf(name, false)) then OnlyFirst else Missing)
    ensures ReplaceOn(t, toks, name, val) == ChangeOn(t, toks, name, val, 0)
  {
    hide Looks, NameOf, InFirst, ChangeOn;
  }

  lemma InsertOnFront(t: string, id: string, val: Value)
    requires t != [] && (IsWs(t[0]) || t[0] == '{')
    ensures InsertOn(t, 0, id, val) == Some(PrintMember(Plain(id, val)) + "," + t)
  {
    assert t[..0] == [] && t[0..] == t && !IsWs('}');
    hide PrintMember;
    assert [] + PrintMember(Plain(id, val)) == PrintMember(Plain(id, val));
  }

  // ----- A parameter that is not there ------------------------------------------------------------

  // In front of the text's last character, or in the value of the first part of the name, at the
  // second character of that, whatever it is.
  ghost function CreateAt(d: Doc, name: Name): int
    requires d.root.Obj?
  {
    if InFirst(d.root.members, name) then FirstAt(d, KeyIndex(d.root.members, name.id1).value)
    else |PrintDoc(d)| - 1
  }

  lemma CreateIsInside(d: Doc, name: Name)
    requires WfDoc(d) && d.root.Obj?
    ensures 1 <= CreateAt(d, name) < |PrintDoc(d)|
  {
    if InFirst(d.root.members, name) {
      FirstAtIn(d, KeyIndex(d.root.members, name.id1).value);
    }
    hide FirstAt, Print, WfDoc;
    assert |Print(d.root)| >= 2 by { ObjectHasBraces(d.root); }
  }

  lemma ObjectHasBraces(v: Value)
    requires v.Obj?
    ensures |Print(v)| >= 2
  {
    hide PrintMembers;
  }

  // The text that creating a parameter makes.
  ghost function NewText(d: Doc, name: string, noDot: bool, v: Value): string
    requires WfDoc(d) && d.root.Obj?
  {
    CreateIsInside(d, NameOf(name, noDot));
    InsText(PrintDoc(d), CreateAt(d, NameOf(name, noDot)), PrintMember(Plain(NewKey(d.root.members, name, noDot), v)))
  }

  lemma NewTextIs(d: Doc, name: string, noDot: bool, v: Value)
    requires WfDoc(d) && d.root.Obj?
    ensures var t, pos := PrintDoc(d), CreateAt(d, NameOf(name, noDot));
            1 <= pos < |t| && NewText(d, name, noDot, v)
              == InsText(t, pos, PrintMember(Plain(NewKey(d.root.members, name, noDot), v)))
  {
    CreateIsInside(d, NameOf(name, noDot));
    hide WfDoc, PrintDoc, CreateAt, NewKey, PrintMember, InsText, NameOf;
  }

  // Where the insertion of a new member works.
  ghost predicate RoomFor(d: Doc, name: Name)
    requires d.root.Obj?
  {
    if InFirst(d.root.members, name)
    then var m := d.root.members[KeyIndex(d.root.members, name.id1).value]; m.val.Obj? && m.val.ws == ""
    else d.post == "" && d.root.ws == ""
  }

  ghost function Created(d: Doc, name: string, noDot: bool, v: Value): Doc
    requires d.root.Obj? && RoomFor(d, NameOf(name, noDot))
  {
    var ms, nm := d.root.members, NameOf(name, noDot);
    var m := Plain(NewKey(ms, name, noDot), v);
    if InFirst(ms, nm) then Inserted(d, Within(KeyIndex(ms, nm.id1).value), 0, m) else Inserted(d, Root, |ms|, m)
  }

  lemma SettingIsFine(d: Doc, at: Place, i: nat, val: Value)
    requires WfDoc(d) && Holds(d, at) && Depth(d.root) < 32 && i < |ObjAt(d, at).members| && Settable(val)
    ensures var e := Setting(d, at, i, val); WfDoc(e) && e.root.Obj? && Depth(e.root) < 32
  {
    var ms := ObjAt(d, at).members;
    ObjectIsWf(d, at);
    ReplacedAreWf(ms, i, val);
    var us := Replaced(ms, i, Plain(ms[i].key, val));
    UpdatedIsWf(d, at, us, "");
    hide Depth, WfMember, Wf, WfDoc, Replaced;
    ReplacedAt(ms, i, Plain(ms[i].key, val), i);
    forall k | 0 <= k < |us| ensures us[k].val == if k == i then val else ms[k].val {
      ReplacedAt(ms, i, Plain(ms[i].key, val), k);
    }
    DepthOfWith(d, at, us, "");
  }

  lemma InsertedIsFine(d: Doc, at: Place, i: nat, m: Member)
    requires WfDoc(d) && Holds(d, at) && Depth(d.root) < 32 && i <= |ObjAt(d, at).members| && WfMember(m)
             && !IsBox(m.val)
    ensures var e := Inserted(d, at, i, m); WfDoc(e) && e.root.Obj? && Depth(e.root) < 32
  {
    var ms := ObjAt(d, at).members;
    var us := With(ms, i, m);
    ObjectIsWf(d, at);
    WithIsWf(ms, i, m);
    UpdatedIsWf(d, at, us, "");
    forall k | 0 <= k < |us| ensures us[k].val == if k == i then m.val else ms[if k < i then k else k - 1].val {
    }
    hide Depth, WfMember, Wf, WfDoc, With;
    DepthOfWith(d, at, us, "");
  }

  lemma LookupFirst(d: Doc, name: string, noDot: bool)
    requires d.root.Obj? && InFirst(d.root.members, NameOf(name, noDot))
    ensures var first, toks := Lookup(d.root.members, NameOf(name, false), true), Toks(d.root, |d.pre|);
            first.At? && first.tok < |toks| && toks[first.tok].start + 1 == CreateAt(d, NameOf(name, noDot))
  {
    var ms, nm := d.root.members, NameOf(name, noDot);
    assert NameOf(name, false) == nm;
    FindKeyIs(ms, 1, nm.id1);
    hide Toks, FirstAt, FindKey, Find2, NameOf;
    TokenOfValue(d, KeyIndex(ms, nm.id1).value);
  }

  lemma PlaceInDoc(d: Doc, name: string, noDot: bool)
    requires WfDoc(d) && d.root.Obj? && Depth(d.root) < 32
    ensures PlaceOn(PrintDoc(d), Toks(d.root, |d.pre|), name, InFirst(d.root.members, NameOf(name, noDot)))
         == Some(CreateAt(d, NameOf(name, noDot)))
  {
    hide Toks, PrintDoc, WfDoc, Depth, Looks, Lookup, NameOf, FirstAt, HasKey, KeyIndex;
    if InFirst(d.root.members, NameOf(name, noDot)) {
      DocLooks(d, NameOf(name, false), true);
      LookupFirst(d, name, noDot);
    }
  }

  lemma SetOnNothing(t: string, toks: seq<Tok>, ms: seq<Member>, name: string, noDot: bool, val: Value, pos: int)
    requires var first := InFirst(ms, NameOf(name, noDot));
             && Looks(t, toks, NameOf(name, noDot), false) == Some(if first then OnlyFirst else Missing)
             && PlaceOn(t, toks, name, first) == Some(pos)
    ensures SetOn(t, toks, name, noDot, val) == InsertOn(t, pos, NewKey(ms, name, noDot), val)
  {
    hide Looks, NameOf, InFirst, InsertOn, AfterDot, PlaceOn;
  }

  // The text made when the name stands for nothing.
  lemma SettingNew(d: Doc, name: string, noDot: bool, val: Value)
    requires WfDoc(d) && d.root.Obj? && Depth(d.root) < 32 && Unique(d.root.members)
             && Spot(d.root.members, NameOf(name, noDot)) == None
    ensures SetOn(PrintDoc(d), Toks(d.root, |d.pre|), name, noDot, val) == Some(NewText(d, name, noDot, val))
  {
    hide *;
    LookupOfNothing(d, name, noDot);
    DocLooks(d, NameOf(name, noDot), false);
    PlaceInDoc(d, name, noDot);
    NewTextIs(d, name, noDot, val);
    SetOnNothing(PrintDoc(d), Toks(d.root, |d.pre|), d.root.members, name, noDot, val,
      CreateAt(d, NameOf(name, noDot)));
    InsertOnInside(PrintDoc(d), CreateAt(d, NameOf(name, noDot)), NewKey(d.root.members, name, noDot), val);
  }
}
