/** Exactly when cutting a member out of a text of cfg/cfg.cpp removes it: CFG_REMOVE of a number or a
    string, whatever white space there is. */
module CfgRemove {
  import opened Wrappers
  import opened JsonText
  import opened JsonLex
  import opened CfgText
  import opened CfgSet
  import opened CfgDoc
  import opened CfgSpots
  import opened CfgExact
  import opened CfgCreate

  // The white space up to the value is what the cut skips.
  predicate HeadCuttable(m: Member) {
    && (forall i | 0 <= i < |m.pre| :: Before(m.pre[i])) && m.colon == ""
    && (forall i | 0 <= i < |m.mid| :: Inside(m.mid[i]))
  }

  // So is that after it, or the member is the only one.
  predicate Removable(ms: seq<Member>, i: nat)
    requires i < |ms|
  {
    Cuttable(ms[i]) || (|ms| == 1 && HeadCuttable(ms[i]))
  }

  // The document without the member.  An object without members keeps the white space behind the last
  // one, but for the blanks and line feeds the cut skips.
  function Without(d: Doc, at: Place, i: nat): Doc
    requires Holds(d, at) && i < |ObjAt(d, at).members|
  {
    var ms := ObjAt(d, at).members;
    WithObj(d, at, Obj(Removed(ms, i), TrimAfter(ms[i].post)))
  }

  // The key and the value are where the cut is told they are.
  predicate InText(t: string, left: string, ms: seq<Member>, i: nat)
    requires i < |ms|
  {
    var k, n := KeyAt(left, ms, i), ValLen(ms, i);
    2 <= k && k + |ms[i].key| + 2 + n <= |t|
  }

  function CutOf(t: string, left: string, ms: seq<Member>, i: nat): Option<(string, nat)>
    requires i < |ms| && InText(t, left, ms, i)
  {
    CutText(t, KeyAt(left, ms, i), KeyAt(left, ms, i) + |ms[i].key|, ValLen(ms, i))
  }

  // ----- Where the end pointer stops --------------------------------------------------------------

  predicate HeadAt(t: string, p: Spots)
    requires MemberAt(t, p)
  {
    && (forall j | p.open <= j < p.key - 1 :: Before(t[j])) && p.colon + 1 == p.mid
    && (forall j | p.mid <= j < p.val :: Inside(t[j]))
  }

  lemma HeadAtIs(t: string, o: string, m: Member, c: string, p: Spots)
    requires Laid(t, o, m, c, p) && MemberAt(t, p)
    ensures HeadAt(t, p) <==> HeadCuttable(m)
  {
    SliceHas(t, p.open, p.key - 1, m.pre);
    SliceHas(t, p.mid, p.val, m.mid);
    hide Before, Inside, After, IsWs, AllWs, MemberAt, Print;
  }

  lemma EndBefore(t: string, p: Spots)
    requires MemberAt(t, p) && !HeadAt(t, p) && forall j | p.open <= j < p.key - 1 :: Before(t[j])
    ensures EndAt(t, p) < p.post
  {
    ValueStops(t, p);
    hide Before, Inside, After, IsWs, OverInside, OverAfter;
    OverAfterStops(t, OverInside(t, p.colon + 1) + p.post - p.val, p.post - 1);
  }

  lemma EndBehind(t: string, p: Spots)
    requires MemberAt(t, p) && HeadAt(t, p)
    ensures EndAt(t, p) == OverAfter(t, p.post)
  {
    OverInsideRun(t, p.colon + 1, p.val);
    hide Before, Inside, After, IsWs, OverInside, OverAfter;
  }

  lemma {:induction false} TrimKept(w: string, x: string)
    requires exists i :: 0 <= i < |w| && !After(w[i])
    ensures TrimAfter(w + x) == TrimAfter(w) + x && TrimAfter(w) != []
  {
    if After(w[0]) {
      var i :| 0 <= i < |w| && !After(w[i]);
      assert w[1..][i - 1] == w[i];
      assert (w + x)[1..] == w[1..] + x;
      TrimKept(w[1..], x);
    }
  }

  lemma {:induction false} TrimAll(w: string)
    requires forall i | 0 <= i < |w| :: After(w[i])
    ensures TrimAfter(w) == ""
  {
    if w != [] {
      TrimAll(w[1..]);
    }
  }

  // Up to the value as it should be, and not after it: white space is left in front of what follows.
  lemma LeftIsTrimmed(t: string, o: string, m: Member, c: string, p: Spots)
    requires Laid(t, o, m, c, p) && MemberAt(t, p) && HeadCuttable(m) && !Cuttable(m)
    ensures 0 <= EndAt(t, p) <= |t| && t[EndAt(t, p)..] == TrimAfter(m.post) + c && TrimAfter(m.post) != []
  {
    HeadAtIs(t, o, m, c, p);
    EndBehind(t, p);
    EndIsBehind(t, p);
    OverAfterIsTrim(t, p.post);
    TrimKept(m.post, c);
    hide MemberAt, HeadAt, EndAt, Before, Inside, After, TrimAfter, OverAfter, Print;
    assert t[p.post..] == m.post + c by { assert t[p.post..] == t[p.post..p.end] + t[p.end..]; }
  }

  // ----- What the cut gives -----------------------------------------------------------------------

  // A check fails, or what is left starts neither a member nor ends the object, or ends in a string.
  predicate Broken(r: Option<(string, nat)>, t: string, o: string)
    requires o != []
  {
    r == None || exists e: nat :: e < |t| && r == Some(LeftFrom(t, o, e)) && (Junk(t[e..]) || Flipped(t[e..]))
  }

  lemma BrokenFrom(t: string, o: string, e: nat)
    requires o != [] && e < |t| && (Junk(t[e..]) || Flipped(t[e..]))
    ensures Broken(Some(LeftFrom(t, o, e)), t, o)
  {
    hide Junk, Flipped, LeftFrom;
  }

  lemma CutOfHead(t: string, o: string, m: Member, c: string, p: Spots)
    requires WfMember(m) && Laid(t, o, m, c, p) && MemberAt(t, p) && t[..p.open] == o && o != []
    requires HeadCuttable(m) && !Cuttable(m)
    ensures CutText(t, p.key, p.colon - 1, p.post - p.val) == Some((o + (TrimAfter(m.post) + c), |o|))
  {
    HeadAtIs(t, o, m, c, p);
    LaidCuttable(t, o, m, c, p);
    HeadHasPre(t, p);
    hide Laid, MemberAt, HeadCuttable, Cuttable, CuttableAt, HeadAt, EndAt, TrimAfter, CutText, WfMember;
    EndIsBehind(t, p);
    CutLeavesNow(t, p, o);
    LeftIsTrimmed(t, o, m, c, p);
    TrimmedIsWs(m);
    assert t[EndAt(t, p)] == t[EndAt(t, p)..][0];
  }

  lemma TrimmedIsWs(m: Member)
    requires WfMember(m)
    ensures TrimAfter(m.post) != [] ==> TrimAfter(m.post)[0] != '}'
    ensures AllWs(TrimAfter(m.post))
  {
    TrimmedStart(m.post);
    assert !IsWs('}') by { NotWsColon(); }
  }

  lemma HeadHasPre(t: string, p: Spots)
    requires MemberAt(t, p) && HeadAt(t, p)
    ensures forall j | p.open <= j < p.key - 1 :: Before(t[j])
  {
  }

  lemma CutLeavesNow(t: string, p: Spots, o: string)
    requires MemberAt(t, p) && !CuttableAt(t, p) && t[..p.open] == o && o != []
             && forall j | p.open <= j < p.key - 1 :: Before(t[j])
    ensures p.colon < EndAt(t, p) < p.end <= |t|
            && CutText(t, p.key, p.colon - 1, p.post - p.val) == Some(LeftFrom(t, o, EndAt(t, p)))
  {
    StartOfCut(t, p);
    EndOfCut(t, p);
    hide EndAt, Before, Inside, After, CutText, LeftFrom, CuttableAt, BackOver, IsWs;
    CutFrom(t, p, o, EndAt(t, p));
  }

  lemma CutOfRest(t: string, o: string, m: Member, c: string, p: Spots)
    requires WfMember(m) && Laid(t, o, m, c, p) && MemberAt(t, p) && t[..p.open] == o && o != [] && Scalar(m.val)
    requires t == o + PrintMember(m) + c && c != [] && (c[0] == ',' || c[0] == '}')
    requires Lex(Out, t) == Out && Lex(Out, o) == Out && !HeadCuttable(m)
    ensures Broken(CutText(t, p.key, p.colon - 1, p.post - p.val), t, o)
  {
    EndIsBehind(t, p);
    hide *;
    HeadAtIs(t, o, m, c, p);
    LaidCuttable(t, o, m, c, p);
    CuttableHasHead(m);
    if forall j | p.open <= j < p.key - 1 :: Before(t[j]) {
      CutLeavesNow(t, p, o);
      EndBefore(t, p);
      LeftBefore(t, o, m, c, p, EndAt(t, p));
      BrokenFrom(t, o, EndAt(t, p));
    } else {
      CutFails(t, p);
      NothingBroken(t, o);
    }
  }

  lemma NothingBroken(t: string, o: string)
    requires o != []
    ensures Broken(None, t, o)
  {
  }

  lemma CuttableHasHead(m: Member)
    ensures Cuttable(m) ==> HeadCuttable(m)
  {
  }

  // ----- In a document ----------------------------------------------------------------------------

  lemma MemberIsInText(d: Doc, at: Place, i: nat)
    requires WfDoc(d) && Holds(d, at) && i < |ObjAt(d, at).members|
    ensures InText(PrintDoc(d), LeftOf(d, at), ObjAt(d, at).members, i)
  {
    var ms, left := ObjAt(d, at).members, LeftOf(d, at);
    KeyIsInText(d, at, i);
    hide *;
    MemberInText(left, ms, i, RightOf(d, at));
    SpotsAreKeyAt(left, ms, i);
    InSpotsIs(PrintDoc(d), Opening(left, ms, i), ms[i], Closing(ms, i, RightOf(d, at)),
      SpotsOf(Opening(left, ms, i), ms[i]));
    SpotsInText(PrintDoc(d), left, ms, i);
  }

  lemma SpotsInText(t: string, left: string, ms: seq<Member>, i: nat)
    requires i < |ms| && MemberAt(t, SpotsOf(Opening(left, ms, i), ms[i]))
    requires var p := SpotsOf(Opening(left, ms, i), ms[i]);
             p.key == KeyAt(left, ms, i) && p.colon - 1 == p.key + |ms[i].key| && p.post - p.val == ValLen(ms, i)
    ensures InText(t, left, ms, i)
  {
    hide SpotsOf, Opening, KeyAt, ValLen, Inside, After, IsWs;
  }

  // What is left does not parse.
  lemma OpenFails(d: Doc, at: Place, i: nat, w: string)
    requires WfDoc(d) && Holds(d, at) && i < |ObjAt(d, at).members| && ParseMembers(w) == None
    requires i == 0 ==> var (_, r) := ScanWs(w); r == [] || r[0] != '}'
    ensures Parse(Opening(LeftOf(d, at), ObjAt(d, at).members, i) + w) == None
  {
    var ms, l := ObjAt(d, at).members, LeftOf(d, at);
    var a := ms[..i];
    ObjectIsWf(d, at);
    ObjectFails(a, w);
    DocFails(d, at, "{" + Lead(a) + w);
    hide Lead, ParseValue, Parse, LeftOf, WfDoc, WfMember, ObjAt, ParseMembers, ScanWs;
    Assoc(l, "{", Lead(a));
    Assoc(l, "{" + Lead(a), w);
  }

  lemma FlippedFails(d: Doc, at: Place, i: nat, w: string, pos: nat)
    requires WfDoc(d) && Holds(d, at) && i < |ObjAt(d, at).members| && Flipped(w)
    requires pos <= |Opening(LeftOf(d, at), ObjAt(d, at).members, i)| <= pos + 1
    ensures Parse(Opening(LeftOf(d, at), ObjAt(d, at).members, i)[..pos] + w) == None
  {
    var o := Opening(LeftOf(d, at), ObjAt(d, at).members, i);
    LastOfOpening(LeftOf(d, at), ObjAt(d, at).members, i);
    LexOpening(d, at, i);
    hide LeftOf, Opening, Ahead, ObjAt, WfDoc, Lex, Parse;
    LexOfPrefix(o, pos);
    LexJoin(o[..pos], w);
    if Parse(o[..pos] + w).Some? {
      ParsedIsOut(o[..pos] + w);
    }
  }

  lemma BrokenAtFails(d: Doc, at: Place, i: nat, t: string, e: nat)
    requires WfDoc(d) && Holds(d, at) && i < |ObjAt(d, at).members| && e < |t| && (Junk(t[e..]) || Flipped(t[e..]))
    ensures Parse(LeftFrom(t, Opening(LeftOf(d, at), ObjAt(d, at).members, i), e).0) == None
  {
    var o := Opening(LeftOf(d, at), ObjAt(d, at).members, i);
    hide LeftOf, Opening, ObjAt, WfDoc, Lex, Parse, Flipped, Junk, Holds;
    if Flipped(t[e..]) {
      FlippedFails(d, at, i, t[e..], |o|);
      FlippedFails(d, at, i, t[e..], |o| - 1);
      assert o[..|o|] == o;
    } else {
      NoBraceFirst(t, e);
      JunkFails(d, at, i, t[e..]);
    }
  }

  lemma JunkFails(d: Doc, at: Place, i: nat, w: string)
    requires WfDoc(d) && Holds(d, at) && i < |ObjAt(d, at).members| && Junk(w)
    ensures Parse(Opening(LeftOf(d, at), ObjAt(d, at).members, i) + w) == None
  {
    OpenFails(d, at, i, w);
    hide LeftOf, Opening, ObjAt, WfDoc, Parse, Holds;
  }

  lemma BrokenFails(d: Doc, at: Place, i: nat, r: Option<(string, nat)>)
    requires WfDoc(d) && Holds(d, at) && i < |ObjAt(d, at).members|
    requires Broken(r, PrintDoc(d), Opening(LeftOf(d, at), ObjAt(d, at).members, i))
    ensures r.Some? ==> Parse(r.value.0) == None
  {
    var t, o := PrintDoc(d), Opening(LeftOf(d, at), ObjAt(d, at).members, i);
    hide LeftOf, Opening, ObjAt, WfDoc, Parse, PrintDoc, Junk, Flipped, LeftFrom, Holds;
    if r.Some? {
      var e: nat :| e < |t| && r == Some(LeftFrom(t, o, e)) && (Junk(t[e..]) || Flipped(t[e..]));
      BrokenAtFails(d, at, i, t, e);
    }
  }

  lemma NoBraceFirst(t: string, e: nat)
    requires e < |t| && Junk(t[e..])
    ensures t[e] != '}'
  {
    assert t[e..][0] == t[e];
    JunkIsRubbish(t[e..]);
  }

  // The cut of a member that can be removed gives the document without it; that of any other fails a
  // check or leaves a text that does not parse.
  predicate Outcome(d: Doc, at: Place, i: nat, r: Option<(string, nat)>)
    requires Holds(d, at) && i < |ObjAt(d, at).members|
  {
    var ms := ObjAt(d, at).members;
    if Removable(ms, i) then r == Some((PrintDoc(Without(d, at, i)), CutAt(LeftOf(d, at), ms, i)))
    else r.Some? ==> Parse(r.value.0) == None
  }

  // What the cut is given, and gives.
  lemma CutsInDoc(d: Doc, at: Place, i: nat)
    requires WfDoc(d) && Holds(d, at) && i < |ObjAt(d, at).members| && Cuttable(ObjAt(d, at).members[i])
    ensures var ms, left := ObjAt(d, at).members, LeftOf(d, at);
            Cuts(PrintDoc(d), left, ms, i, PrintDoc(WithObj(d, at, Obj(Removed(ms, i), ""))), CutAt(left, ms, i))
  {
    var ms, left := ObjAt(d, at).members, LeftOf(d, at);
    KeyIsInText(d, at, i);
    hide *;
    CutsMember(left, ms, i, RightOf(d, at));
    PrintAround(d, at, Removed(ms, i), "");
  }

  lemma CutIsCutOf(t: string, left: string, ms: seq<Member>, i: nat, u: string, pos: nat)
    requires i < |ms| && InText(t, left, ms, i) && Cuts(t, left, ms, i, u, pos)
    ensures CutOf(t, left, ms, i) == Some((u, pos))
  {
    hide CutText, KeyAt, ValLen;
  }

  lemma OutcomeIfCuttable(d: Doc, at: Place, i: nat)
    requires WfDoc(d) && Holds(d, at) && i < |ObjAt(d, at).members| && Cuttable(ObjAt(d, at).members[i])
    requires InText(PrintDoc(d), LeftOf(d, at), ObjAt(d, at).members, i)
    ensures Outcome(d, at, i, CutOf(PrintDoc(d), LeftOf(d, at), ObjAt(d, at).members, i))
  {
    TrimAll(ObjAt(d, at).members[i].post);
    hide PrintDoc, LeftOf, ObjAt, WfDoc, Cuttable, CutOf, Cuts, Parse, CutAt, Removed, InText, WithObj, Holds;
    CutsInDoc(d, at, i);
    CutIsCutOf(PrintDoc(d), LeftOf(d, at), ObjAt(d, at).members, i, PrintDoc(Without(d, at, i)),
               CutAt(LeftOf(d, at), ObjAt(d, at).members, i));
  }

  lemma SpacesLeftAt(t: string, left: string, ms: seq<Member>, i: nat, right: string)
    requires i < |ms| && WfMembers(ms) && t == Around(left, ms, "", right) && InText(t, left, ms, i)
    requires HeadCuttable(ms[i]) && !Cuttable(ms[i])
    ensures var o := Opening(left, ms, i);
            CutOf(t, left, ms, i) == Some((o + (TrimAfter(ms[i].post) + Closing(ms, i, right)), |o|))
  {
    hide *;
    var p := SpotsOf(Opening(left, ms, i), ms[i]);
    MemberInText(left, ms, i, right);
    SpotsAreKeyAt(left, ms, i);
    InSpotsIs(t, Opening(left, ms, i), ms[i], Closing(ms, i, right), p);
    CutOfIsCut(t, left, ms, i, p);
    CutOfHead(t, Opening(left, ms, i), ms[i], Closing(ms, i, right), p);
  }

  lemma BrokenAt(t: string, left: string, ms: seq<Member>, i: nat, right: string)
    requires i < |ms| && WfMembers(ms) && t == Around(left, ms, "", right) && InText(t, left, ms, i)
    requires Scalar(ms[i].val) && !HeadCuttable(ms[i]) && Lex(Out, t) == Out && Lex(Out, Opening(left, ms, i)) == Out
    ensures Broken(CutOf(t, left, ms, i), t, Opening(left, ms, i))
  {
    hide *;
    var p := SpotsOf(Opening(left, ms, i), ms[i]);
    MemberInText(left, ms, i, right);
    SpotsAreKeyAt(left, ms, i);
    AroundMember(left, ms, i, right);
    InSpotsIs(t, Opening(left, ms, i), ms[i], Closing(ms, i, right), p);
    CutOfIsCut(t, left, ms, i, p);
    CutOfRest(t, Opening(left, ms, i), ms[i], Closing(ms, i, right), p);
  }

  // A member up to whose value the white space is as it should be, but not after it.
  lemma SpacesLeft(d: Doc, at: Place, i: nat)
    requires WfDoc(d) && Holds(d, at) && i < |ObjAt(d, at).members|
    requires HeadCuttable(ObjAt(d, at).members[i]) && !Cuttable(ObjAt(d, at).members[i])
    requires InText(PrintDoc(d), LeftOf(d, at), ObjAt(d, at).members, i)
    ensures var ms, o := ObjAt(d, at).members, Opening(LeftOf(d, at), ObjAt(d, at).members, i);
            CutOf(PrintDoc(d), LeftOf(d, at), ms, i) == Some((o + (TrimAfter(ms[i].post) + Closing(ms, i, RightOf(d,
                  at))), |o|))
  {
    var ms, left := ObjAt(d, at).members, LeftOf(d, at);
    hide *;
    KeyIsInText(d, at, i);
    SpacesLeftAt(PrintDoc(d), left, ms, i, RightOf(d, at));
  }

  lemma CutOfIsCut(t: string, left: string, ms: seq<Member>, i: nat, p: Spots)
    requires i < |ms| && InText(t, left, ms, i)
    requires p.key == KeyAt(left, ms, i) && p.colon - 1 == p.key + |ms[i].key| && p.post - p.val == ValLen(ms, i)
    ensures CutOf(t, left, ms, i) == CutText(t, p.key, p.colon - 1, p.post - p.val)
  {
    hide CutText, KeyAt, ValLen;
  }

  // The only member: the object keeps white space.
  lemma OutcomeIfAlone(d: Doc, at: Place, i: nat)
    requires WfDoc(d) && Holds(d, at) && i < |ObjAt(d, at).members| && |ObjAt(d, at).members| == 1
    requires HeadCuttable(ObjAt(d, at).members[i]) && !Cuttable(ObjAt(d, at).members[i])
    requires InText(PrintDoc(d), LeftOf(d, at), ObjAt(d, at).members, i)
    ensures Outcome(d, at, i, CutOf(PrintDoc(d), LeftOf(d, at), ObjAt(d, at).members, i))
  {
    var ms, left, right := ObjAt(d, at).members, LeftOf(d, at), RightOf(d, at);
    SpacesLeft(d, at, i);
    PrintAround(d, at, [], TrimAfter(ms[i].post));
    AloneAround(left, ms, TrimAfter(ms[i].post), right);
    hide PrintDoc, LeftOf, RightOf, ObjAt, WfDoc, Cuttable, CutOf, Parse, InText, WithObj, Holds, HeadCuttable,
      TrimAfter,
      Opening, Closing, Around, CutAt, Removed;
  }

  lemma AloneAround(left: string, ms: seq<Member>, ws: string, right: string)
    requires |ms| == 1
    ensures Removed(ms, 0) == [] && CutAt(left, ms, 0) == |Opening(left, ms, 0)|
    ensures Around(left, [], ws, right) == Opening(left, ms, 0) + (ws + Closing(ms, 0, right))
  {
    NothingPrinted();
    assert ms[..0] == [] && ms[1..] == [] && TrimFirst([]) == [];
    hide TrimFirst, Lead, PrintMembers;
    assert Opening(left, ms, 0) == left + "{" && Closing(ms, 0, right) == "}" + right;
    assert (left + "{") + (ws + ("}" + right)) == left + "{" + ws + "}" + right;
  }

  lemma OutcomeIfNot(d: Doc, at: Place, i: nat)
    requires WfDoc(d) && Holds(d, at) && i < |ObjAt(d, at).members| && Scalar(ObjAt(d, at).members[i].val)
    requires !HeadCuttable(ObjAt(d, at).members[i]) && InText(PrintDoc(d), LeftOf(d, at), ObjAt(d, at).members, i)
    ensures var r := CutOf(PrintDoc(d), LeftOf(d, at), ObjAt(d, at).members, i); r.Some? ==> Parse(r.value.0) == None
  {
    var ms, left := ObjAt(d, at).members, LeftOf(d, at);
    hide *;
    KeyIsInText(d, at, i);
    LexDoc(d);
    LexOpening(d, at, i);
    BrokenAt(PrintDoc(d), left, ms, i, RightOf(d, at));
    BrokenFails(d, at, i, CutOf(PrintDoc(d), left, ms, i));
  }

  // White space behind a member that has others beside it.
  lemma SpacesThen(ws: string, c: string)
    requires AllWs(ws) && c != [] && (c[0] == ',' || c[0] == '}')
    ensures ParseMembers(ws + c) == None && ScanWs(ws + c).1 == c
  {
    NotWsColon();
    ScanWsOfPrint(ws, c);
    NoMembers(ws + c);
  }

  lemma OutcomeIfMore(d: Doc, at: Place, i: nat)
    requires WfDoc(d) && Holds(d, at) && i < |ObjAt(d, at).members| && |ObjAt(d, at).members| > 1
    requires HeadCuttable(ObjAt(d, at).members[i]) && !Cuttable(ObjAt(d, at).members[i])
    requires InText(PrintDoc(d), LeftOf(d, at), ObjAt(d, at).members, i)
    ensures var r := CutOf(PrintDoc(d), LeftOf(d, at), ObjAt(d, at).members, i); r.Some? ==> Parse(r.value.0) == None
  {
    var ms, c := ObjAt(d, at).members, Closing(ObjAt(d, at).members, i, RightOf(d, at));
    SpacesLeft(d, at, i);
    ObjectIsWf(d, at);
    assert ms[i] in ms;
    TrimmedIsWs(ms[i]);
    StartsOfClosing(ms, i, RightOf(d, at));
    hide PrintDoc, LeftOf, RightOf, ObjAt, WfDoc, Cuttable, CutOf, Parse, InText, Holds, HeadCuttable, TrimAfter,
      Opening,
      Closing, WfMember, ParseMembers, ScanWs;
    SpacesThen(TrimAfter(ms[i].post), c);
    OpenFails(d, at, i, TrimAfter(ms[i].post) + c);
  }

  lemma CutOutcome(d: Doc, at: Place, i: nat)
    requires WfDoc(d) && Holds(d, at) && i < |ObjAt(d, at).members| && Scalar(ObjAt(d, at).members[i].val)
    ensures InText(PrintDoc(d), LeftOf(d, at), ObjAt(d, at).members, i)
    ensures Outcome(d, at, i, CutOf(PrintDoc(d), LeftOf(d, at), ObjAt(d, at).members, i))
  {
    var ms := ObjAt(d, at).members;
    hide PrintDoc, LeftOf, ObjAt, WfDoc, Cuttable, CutOf, Parse, InText, Holds, HeadCuttable, Without, CutAt;
    MemberIsInText(d, at, i);
    CuttableHasHead(ms[i]);
    if Cuttable(ms[i]) {
      OutcomeIfCuttable(d, at, i);
    } else if !HeadCuttable(ms[i]) {
      OutcomeIfNot(d, at, i);
    } else if |ms| == 1 {
      OutcomeIfAlone(d, at, i);
    } else {
      OutcomeIfMore(d, at, i);
    }
  }

  // ----- What the text means then -----------------------------------------------------------------

  // The text means this object without member i.
  predicate MeansRemoval(t: string, j: Json, at: Place, i: nat) {
    var js := MembersAt(j, at);
    && j.JObj? && (at.Within? ==> at.j < |j.members|)
    && i < |js|
    && Meaning(t) == Some(WithMembers(j, at, js[..i] + js[i + 1..]))
  }

  lemma WithoutIsWf(d: Doc, at: Place, i: nat)
    requires WfDoc(d) && Holds(d, at) && i < |ObjAt(d, at).members| && Removable(ObjAt(d, at).members, i)
    ensures WfDoc(Without(d, at, i))
  {
    var ms := ObjAt(d, at).members;
    ObjectIsWf(d, at);
    RestIsWf(ms, i);
    assert ms[i] in ms;
    TrimmedIsWs(ms[i]);
    if Cuttable(ms[i]) { TrimAll(ms[i].post); }
    var us := Removed(ms, i);
    assert WfMembers(us) && (|ms| == 1 ==> us == []);
    UpdatedIsWf(d, at, us, TrimAfter(ms[i].post));
    hide WfDoc, WfMember, Removed, TrimAfter, ObjAt;
  }

  lemma AbsOfRemoved(ms: seq<Member>, i: nat)
    requires i < |ms|
    ensures AbsMembers(Removed(ms, i)) == AbsMembers(ms)[..i] + AbsMembers(ms)[i + 1..]
  {
    AbsOfSplit(ms, i);
    AbsOfAppend(ms[..i], TrimFirst(ms[i + 1..]));
    AbsOfTrimmed(ms[i + 1..]);
    hide AbsMembers, Abs, TrimFirst;
    var x, y := AbsMembers(ms[..i]), AbsMembers(ms[i + 1..]);
    var m := [(ms[i].key, Abs(ms[i].val))];
    assert (x + m + y)[..i] == x && (x + m + y)[i + 1..] == y;
  }

  lemma WithoutMeans(d: Doc, at: Place, i: nat)
    requires WfDoc(d) && Holds(d, at) && i < |ObjAt(d, at).members| && Removable(ObjAt(d, at).members, i)
    ensures MeansRemoval(PrintDoc(Without(d, at, i)), Abs(d.root), at, i)
  {
    var ms := ObjAt(d, at).members;
    WithoutIsWf(d, at, i);
    ParseIffPrint(PrintDoc(Without(d, at, i)), Without(d, at, i));
    AbsWithObj(d, at, Removed(ms, i), TrimAfter(ms[i].post));
    AbsOfRemoved(ms, i);
    hide WfDoc, PrintDoc, Parse, Removed, AbsMembers, Abs, WithObj, ObjAt, MembersAt, TrimAfter, Removable, Holds;
  }

  // Cutting a number or a string out of a text gives one that means the object without it if and only
  // if the white space around it is what the cut skips, but behind the only member it may be any.
  lemma RemovingWorksIff(d: Doc, at: Place, i: nat)
    requires WfDoc(d) && Holds(d, at) && i < |ObjAt(d, at).members| && Scalar(ObjAt(d, at).members[i].val)
    ensures InText(PrintDoc(d), LeftOf(d, at), ObjAt(d, at).members, i)
    ensures var r := CutOf(PrintDoc(d), LeftOf(d, at), ObjAt(d, at).members, i);
            r.Some? && MeansRemoval(r.value.0, Abs(d.root), at, i) <==> Removable(ObjAt(d, at).members, i)
  {
    hide PrintDoc, LeftOf, ObjAt, WfDoc, CutOf, Parse, InText, Holds, Without, CutAt, Removable, Abs, MembersAt;
    CutOutcome(d, at, i);
    if Removable(ObjAt(d, at).members, i) {
      WithoutMeans(d, at, i);
    }
  }
}
