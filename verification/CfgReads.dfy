/** What jsmn_parse of pkgs/jsmn makes of the texts that the edits of cfg/cfg.cpp leave.  It takes more
    than RFC 8259 does: commas and white space between members, before the first and after the last. */
module CfgReads {
  import opened Wrappers
  import opened JsonText
  import opened CfgText
  import opened CfgSet
  import opened CfgDoc
  import opened CfgSpots
  import opened CfgExact
  import opened CfgCreate
  import opened CfgRemove
  import opened CfgWalk
  import opened Jsmn
  import opened JsmnTree
  import opened JsmnRead
  import opened JsmnDoc
  import opened JsmnSlack

  // ----- States inside a document -----------------------------------------------------------------

  lemma MoreEnds(a: seq<Raw>, ts: seq<Tok>, m: nat, n: nat)
    requires EndBy(a, m) && ToksEndBy(ts, n) && m <= n
    ensures EndBy(a + Raws(ts), n)
  {
  }

  lemma KeyEnds(at: nat, n: nat, ts: seq<Tok>, m: nat, a: nat, e: nat, k: nat)
    requires ToksEndBy(ts, m) && m <= k && a <= e <= k
    ensures var xs := Held([], TObj, at, n, Raws(ts)) + [Raw(TStr, a, e, 0)]; EndBy(xs, k) && Boxes(xs)
  {
    var root := [Raw(TObj, at, -1, n)];
    MoreEnds(root, ts, 0, m);
    RawsAreClosed(ts);
    assert Held([], TObj, at, n, Raws(ts)) == root + Raws(ts);
    assert EndBy(root + Raws(ts), k);
    hide Raws;
  }

  lemma ValueStateEnds(d: Doc, j: nat)
    requires WfDoc(d) && d.root.Obj? && j < |d.root.members|
    ensures EndBy(ValueState(d, j).toks, |BeforeValue(d, j)|) && Boxes(ValueState(d, j).toks)
  {
    hide *;
    var ms, p, m := d.root.members[..j], |d.pre| + 1, d.root.members[j];
    var a := p + |Lead(ms)| + |m.pre| + 1;
    ValueStateIs(d, j);
    MembersWithin(ms, p);
    LeadLength(ms);
    BeforeText(d, j, "");
    HeadIsLonger(m);
    KeyEnds(|d.pre|, j + 1, MemberToks(ms, p), p + |PrintMembers(ms)|, a, a + |m.key|, |BeforeValue(d, j)|);
  }

  lemma HeadIsLonger(m: Member)
    ensures HeadLen(m) >= |m.pre| + 1 + |m.key|
  {
  }

  lemma LeadLength(ms: seq<Member>)
    ensures |PrintMembers(ms)| <= |Lead(ms)|
  {
    if ms != [] { LeadIsPrint(ms); } else { NothingPrinted(); }
    hide PrintMembers, Lead;
  }

  lemma OuterEnds(d: Doc, at: Place)
    requires WfDoc(d) && Holds(d, at)
    ensures EndBy(Outer(d, at), |LeftOf(d, at)|) && Boxes(Outer(d, at))
  {
    if at.Within? {
      ValueStateEnds(d, at.j);
      BumpBoxes(ValueState(d, at.j).toks, ValueState(d, at.j).super);
      hide ValueState, BeforeValue;
    }
  }

  lemma ObjEnds(d: Doc, at: Place, i: nat)
    requires WfDoc(d) && Holds(d, at) && i < |ObjAt(d, at).members|
    ensures EndBy(ObjState(d, at, i).toks, |Opening(LeftOf(d, at), ObjAt(d, at).members, i)|)
  {
    var ms, p := ObjAt(d, at).members[..i], |LeftOf(d, at)| + 1;
    OuterEnds(d, at);
    MembersWithin(ms, p);
    LeadLength(ms);
    hide Lead, MemberToks, PrintMembers, LeftOf, Outer, WfDoc, Holds;
    MoreEnds(Outer(d, at) + [Raw(TObj, p - 1, -1, i)], MemberToks(ms, p), p, p + |Lead(ms)|);
  }

  lemma BumpEnds(xs: seq<Raw>, i: int, x: Raw, m: nat, n: nat)
    requires EndBy(xs, m) && m <= n && 0 <= x.start <= x.end <= n
    ensures EndBy(Bump(xs, i) + [x], n)
  {
  }

  lemma JoinedIs(st: St, m: Member, off: nat)
    ensures Joined(st, m, off).toks
            == Bump(st.toks, st.super) + [ToRaw(KeyTok(m, off))] + Raws(Toks(m.val, off + HeadLen(m)))
    ensures ToRaw(KeyTok(m, off)).end <= off + HeadLen(m)
            && 0 <= ToRaw(KeyTok(m, off)).start <= ToRaw(KeyTok(m, off)).end
  {
    hide Toks, Bump;
  }

  lemma JoinedEnds(st: St, m: Member, off: nat)
    requires EndBy(st.toks, off)
    ensures EndBy(Joined(st, m, off).toks, off + |PrintMember(m)|)
  {
    hide *;
    ValueWithin(m.val, off + HeadLen(m));
    MemberSplit(m, "");
    JoinedIs(st, m, off);
    BumpEnds(st.toks, st.super, ToRaw(KeyTok(m, off)), off, off + HeadLen(m));
    EndsNoLater(Toks(m.val, off + HeadLen(m)), off + HeadLen(m) + |Print(m.val)|, off + |PrintMember(m)|);
    MoreEnds(Bump(st.toks, st.super) + [ToRaw(KeyTok(m, off))], Toks(m.val, off + HeadLen(m)), off + HeadLen(m),
      off + |PrintMember(m)|);
  }

  lemma EndsNoLater(ts: seq<Tok>, m: nat, n: nat)
    requires ToksEndBy(ts, m) && m <= n
    ensures ToksEndBy(ts, n)
  {
  }

  // The object with the members before i, and one more.
  function FrontToks(d: Doc, at: Place, i: nat): seq<Raw>
    requires Holds(d, at) && i <= |ObjAt(d, at).members|
  {
    Raws(MemberToks(ObjAt(d, at).members[..i], |LeftOf(d, at)| + 1))
  }

  function WithOne(d: Doc, at: Place, i: nat, m: Member): St
    requires Holds(d, at) && i < |ObjAt(d, at).members|
  {
    Joined(ObjState(d, at, i), m, |Opening(LeftOf(d, at), ObjAt(d, at).members, i)|)
  }

  predicate InObject(d: Doc, at: Place, st: St, n: nat, x: seq<Raw>, p: nat)
    requires Holds(d, at)
  {
    && Loose(st, Outer(d, at), TObj, |LeftOf(d, at)|, n, x) && AllClosed(x) && Boxes(Outer(d, at))
    && EndBy(Held(Outer(d, at), TObj, |LeftOf(d, at)|, n, x), p)
  }

  lemma InObjectFrom(d: Doc, at: Place, st: St, n: nat, x: seq<Raw>, p: nat)
    requires Holds(d, at) && Loose(st, Outer(d, at), TObj, |LeftOf(d, at)|, n, x) && AllClosed(x) && Boxes(Outer(d, at))
    requires EndBy(st.toks, p)
    ensures InObject(d, at, st, n, x, p)
  {
    hide Outer, LeftOf, Held, EndBy, Boxes;
  }

  lemma ObjStateIs(d: Doc, at: Place, i: nat)
    requires Holds(d, at) && i <= |ObjAt(d, at).members|
    ensures ObjState(d, at, i) == Filled(Outer(d, at), TObj, |LeftOf(d, at)|, i, FrontToks(d, at, i))
            && AllClosed(FrontToks(d, at, i))
  {
    RawsAreClosed(MemberToks(ObjAt(d, at).members[..i], |LeftOf(d, at)| + 1));
    hide Outer, LeftOf, Filled, MemberToks;
  }

  lemma WithOneJoined(d: Doc, at: Place, i: nat, m: Member)
    requires Holds(d, at) && i < |ObjAt(d, at).members|
    ensures WithOne(d, at, i, m) == Joined(ObjState(d, at, i), m, |Opening(LeftOf(d, at), ObjAt(d, at).members, i)|)
  {
    hide Joined, ObjState, Opening, LeftOf, ObjAt;
  }

  lemma WithOneIs(d: Doc, at: Place, i: nat, m: Member)
    requires WfDoc(d) && Holds(d, at) && i < |ObjAt(d, at).members|
    ensures var o := Opening(LeftOf(d, at), ObjAt(d, at).members, i);
            InObject(d, at, WithOne(d, at, i, m), i + 1, FrontToks(d, at, i) + OneToks(m, |o|), |o| + |PrintMember(m)|)
  {
    hide *;
    var n := |Opening(LeftOf(d, at), ObjAt(d, at).members, i)|;
    WithOneJoined(d, at, i, m);
    OuterEnds(d, at);
    ObjEnds(d, at, i);
    ObjStateIs(d, at, i);
    JoinedEnds(ObjState(d, at, i), m, n);
    JoinedToHeld(Outer(d, at), TObj, |LeftOf(d, at)|, i, FrontToks(d, at, i), m, n);
    InObjectFrom(d, at, WithOne(d, at, i, m), i + 1, FrontToks(d, at, i) + OneToks(m, n), n + |PrintMember(m)|);
  }

  lemma AfterWithOne(d: Doc, at: Place, i: nat, m: Member, r: string)
    requires WfDoc(d) && Holds(d, at) && i < |ObjAt(d, at).members| && WfMember(m) && Stops(r)
    ensures var o := Opening(LeftOf(d, at), ObjAt(d, at).members, i);
            Goes(Start, o + (PrintMember(m) + r), 0, WithOne(d, at, i, m), r, |o| + |PrintMember(m)|)
  {
    hide *;
    var o := Opening(LeftOf(d, at), ObjAt(d, at).members, i);
    WithOneJoined(d, at, i, m);
    AfterOpening(d, at, i, PrintMember(m) + r);
    AfterMember(ObjState(d, at, i), m, r, |o|);
    Then(Start, o + (PrintMember(m) + r), 0, ObjState(d, at, i), PrintMember(m) + r, |o|,
         Joined(ObjState(d, at, i), m, |o|), r, |o| + |PrintMember(m)|);
  }

  // ----- Reading as a document --------------------------------------------------------------------

  // Two texts with the same beginning, the second one of a document.
  lemma ReadsIf(p: string, x: string, y: string, st: St, e: Doc)
    requires Goes(Start, p + x, 0, st, x, |p|) && Goes(Start, p + y, 0, st, y, |p|)
    requires Agrees(p + x, st, x, |p|, p + y, st, y, |p|) && p + y == PrintDoc(e) && WfDoc(e) && IsBox(e.root)
    ensures ReadsAs(p + x, e)
  {
    hide ReadOn, PrintDoc, WfDoc, Goes, Agrees;
    DocReads(e);
    ReadsIfAgree(p + x, st, x, |p|, p + y, y, e);
  }

  lemma ReadsIfAgree(t: string, st: St, x: string, n: nat, u: string, y: string, e: Doc)
    requires Goes(Start, t, 0, st, x, n) && Goes(Start, u, 0, st, y, n) && Agrees(t, st, x, n, u, st, y, n)
    requires u == PrintDoc(e) && WfDoc(e) && IsBox(e.root)
    ensures ReadsAs(t, e)
  {
    TokensOfText(e);
    hide ReadOn, PrintDoc, WfDoc, Alike;
  }

  // ----- Setting ----------------------------------------------------------------------------------

  // The texts after member i, split where a member starts again or the object ends.
  lemma ClosingMore(ms: seq<Member>, i: nat, right: string)
    requires i + 1 < |ms|
    ensures var r := Tail(ms[i + 1..]) + ("}" + right);
            && Closing(ms, i, right) == ("," + ms[i + 1].pre) + r
            && "," + PrintMembers(TrimFirst(ms[i + 1..])) + ("}" + right) == ("," + TrimAfter(ms[i + 1].pre)) + r
  {
    var rest, y := ms[i + 1..], "}" + right;
    MembersStart(rest, y);
    hide PrintMembers, Tail, TrimFirst, TrimAfter;
    var r := Tail(rest) + y;
    assert ("," + PrintMembers(rest)) + "}" + right == "," + (PrintMembers(rest) + y);
    assert "," + (rest[0].pre + r) == ("," + rest[0].pre) + r;
    assert "," + PrintMembers(TrimFirst(rest)) + y == "," + (PrintMembers(TrimFirst(rest)) + y);
    assert "," + (TrimAfter(rest[0].pre) + r) == ("," + TrimAfter(rest[0].pre)) + r;
  }

  lemma SlackOf(ws: string, pre: string)
    requires AllWs(ws) && AllWs(pre)
    ensures Slack("," + ws) && Slack("," + ws + "," + pre) && Slack("," + pre) && Slack(ws + "," + pre) && Slack(ws)
            && Slack(ws + ",")
  {
  }

  lemma JoinSlack(ws: string, pre: string, r: string)
    ensures "," + (ws + (("," + pre) + r)) == ("," + ws + "," + pre) + r
    ensures "," + (ws + r) == ("," + ws) + r && ws + (("," + pre) + r) == (ws + "," + pre) + r
  {
  }

  // The setting's own text, and its parts.
  lemma SettingParts(d: Doc, at: Place, i: nat, v: Value)
    requires WfDoc(d) && Holds(d, at) && i < |ObjAt(d, at).members| && Wf(v)
    ensures var ms, right := ObjAt(d, at).members, RightOf(d, at);
            var o, m := Opening(LeftOf(d, at), ms, i), Plain(ms[i].key, v);
            && PrintDoc(Setting(d, at, i, v)) == o + PrintMember(m) + Closing(Replaced(ms, i, m), i, right)
            && WfDoc(Setting(d, at, i, v)) && Setting(d, at, i, v).root.Obj? && WfMember(m)
            && |Replaced(ms, i, m)| == |ms| && Replaced(ms, i, m)[i + 1..] == TrimFirst(ms[i + 1..])
  {
    var ms, left, right := ObjAt(d, at).members, LeftOf(d, at), RightOf(d, at);
    var m := Plain(ms[i].key, v);
    var us := Replaced(ms, i, m);
    ObjectIsWf(d, at);
    PlainMember(ms, i, v);
    ReplacedAreWf(ms, i, v);
    UpdatedIsWf(d, at, us, "");
    SplitOfReplaced(ms, i, m);
    assert |TrimFirst(ms[i + 1..])| == |ms| - i - 1;
    hide WfDoc, PrintDoc, LeftOf, RightOf, Lead, PrintMember, Closing, Around, WfMember, TrimFirst, Wf, Replaced;
    PrintAround(d, at, us, "");
    AroundMember(left, us, i, right);
    assert Opening(left, us, i) == Opening(left, ms, i);
  }

  // The text that cutting and inserting leave when there is other white space behind the value.
  function SetLoosely(d: Doc, at: Place, i: nat, v: Value): string
    requires Holds(d, at) && i < |ObjAt(d, at).members|
  {
    var ms := ObjAt(d, at).members;
    Opening(LeftOf(d, at), ms, i) + PrintMember(Plain(ms[i].key, v)) +
      ("," + (TrimAfter(ms[i].post) + Closing(ms, i, RightOf(d, at))))
  }

  lemma MoreSlack(d: Doc, at: Place, i: nat, st: St, n: nat, x: seq<Raw>, p: string, ws: string, pre: string,
      pre2: string, r: string)
    requires Holds(d, at) && InObject(d, at, st, n, x, |p|) && AllWs(ws) && AllWs(pre) && AllWs(pre2)
    ensures var j1, j2 := "," + ws + "," + pre, "," + pre2;
            Agrees(p + (j1 + r), st, j1 + r, |p|, p + (j2 + r), st, j2 + r, |p|)
  {
    var j1, j2 := "," + ws + "," + pre, "," + pre2;
    var b, a := Outer(d, at), |LeftOf(d, at)|;
    SlackOf(ws, pre);
    SlackOf("", pre2);
    assert InObject(d, at, st, n, x, |p|);
    assert (p + (j1 + r))[|p|..] == j1 + r && (p + (j2 + r))[|p|..] == j2 + r;
    hide Outer, LeftOf, Slack, Loose, Held, Boxes, EndBy, Agrees, Alike;
    SharedAlike(p, j1 + r, j2 + r, Held(b, TObj, a, n, x));
    MoreAgrees(st, b, a, n, x, p + (j1 + r), |p|, j1, p + (j2 + r), |p|, j2, r);
  }

  lemma LastSlack(d: Doc, at: Place, st: St, n: nat, x: seq<Raw>, p: string, ws: string, r: string)
    requires Holds(d, at) && InObject(d, at, st, n, x, |p|) && AllWs(ws)
    ensures Agrees(p + (("," + ws) + ("}" + r)), st, ("," + ws) + ("}" + r), |p|, p + ("}" + r), st, "}" + r, |p|)
  {
    var j1 := "," + ws;
    var b, a := Outer(d, at), |LeftOf(d, at)|;
    SlackOf(ws, "");
    assert (p + (j1 + ("}" + r)))[|p|..] == j1 + ("}" + r) && (p + ("}" + r))[|p|..] == "}" + r;
    hide Outer, LeftOf, Slack, Loose, Held, Boxes, EndBy, Agrees, Alike;
    SharedAlike(p, j1 + ("}" + r), "}" + r, Held(b, TObj, a, n, x));
    LastAgrees(st, b, a, n, x, p + (j1 + ("}" + r)), |p|, j1, p + ("}" + r), |p|, r);
  }

  lemma CommaStarts(ws: string, r: string)
    ensures Stops("," + r) && Stops(("," + ws) + r) && Stops("}" + r)
  {
  }

  // Two continuations behind a member that replaces member i.
  lemma OneReads(d: Doc, at: Place, i: nat, m: Member, x: string, y: string, e: Doc)
    requires WfDoc(d) && Holds(d, at) && i < |ObjAt(d, at).members| && WfMember(m) && Stops(x) && Stops(y)
    requires var p, st := Opening(LeftOf(d, at), ObjAt(d, at).members, i) + PrintMember(m), WithOne(d, at, i, m);
             Agrees(p + x, st, x, |p|, p + y, st, y, |p|) && p + y == PrintDoc(e)
    requires WfDoc(e) && IsBox(e.root)
    ensures ReadsAs(Opening(LeftOf(d, at), ObjAt(d, at).members, i) + PrintMember(m) + x, e)
  {
    hide *;
    var o, q := Opening(LeftOf(d, at), ObjAt(d, at).members, i), PrintMember(m);
    AfterWithOne(d, at, i, m, x);
    AfterWithOne(d, at, i, m, y);
    Assoc(o, q, x);
    Assoc(o, q, y);
    PlusLength(o, q);
    ReadsIf(o + q, x, y, WithOne(d, at, i, m), e);
  }

  lemma OneMore(d: Doc, at: Place, i: nat, m: Member, ws: string, pre: string, pre2: string, r: string, e: Doc)
    requires WfDoc(d) && Holds(d, at) && i < |ObjAt(d, at).members| && WfMember(m) && AllWs(ws) && AllWs(pre)
             && AllWs(pre2)
    requires PrintDoc(e) == Opening(LeftOf(d, at), ObjAt(d, at).members, i) + PrintMember(m) + (("," + pre2) + r)
    requires WfDoc(e) && e.root.Obj?
    ensures ReadsAs(Opening(LeftOf(d, at), ObjAt(d, at).members, i) + PrintMember(m) + (("," + ws + "," + pre) + r), e)
  {
    hide *;
    var o, j1, j2 := Opening(LeftOf(d, at), ObjAt(d, at).members, i), "," + ws + "," + pre, "," + pre2;
    WithOneIs(d, at, i, m);
    PlusLength(o, PrintMember(m));
    MoreSlack(d, at, i, WithOne(d, at, i, m), i + 1, FrontToks(d, at, i) + OneToks(m, |o|), o + PrintMember(m), ws,
      pre, pre2, r);
    StopsSlack(ws, pre, r);
    StopsSlack("", pre2, r);
    BoxOfObj(e);
    OneReads(d, at, i, m, j1 + r, j2 + r, e);
  }

  lemma OneLast(d: Doc, at: Place, i: nat, m: Member, ws: string, r: string, e: Doc)
    requires WfDoc(d) && Holds(d, at) && i < |ObjAt(d, at).members| && WfMember(m) && AllWs(ws)
    requires PrintDoc(e) == Opening(LeftOf(d, at), ObjAt(d, at).members, i) + PrintMember(m) + ("}" + r)
    requires WfDoc(e) && e.root.Obj?
    ensures ReadsAs(Opening(LeftOf(d, at), ObjAt(d, at).members, i) + PrintMember(m) + (("," + ws) + ("}" + r)), e)
  {
    hide *;
    var o := Opening(LeftOf(d, at), ObjAt(d, at).members, i);
    WithOneIs(d, at, i, m);
    PlusLength(o, PrintMember(m));
    LastSlack(d, at, WithOne(d, at, i, m), i + 1, FrontToks(d, at, i) + OneToks(m, |o|), o + PrintMember(m), ws, r);
    CommaStarts(ws, "}" + r);
    CommaStarts(ws, r);
    BoxOfObj(e);
    OneReads(d, at, i, m, ("," + ws) + ("}" + r), "}" + r, e);
  }

  lemma PlusLength(a: string, b: string)
    ensures |a + b| == |a| + |b|
  {
  }

  lemma PostIsWs(d: Doc, at: Place, i: nat)
    requires WfDoc(d) && Holds(d, at) && i < |ObjAt(d, at).members|
    ensures AllWs(TrimAfter(ObjAt(d, at).members[i].post))
    ensures i + 1 < |ObjAt(d, at).members| ==>
              AllWs(ObjAt(d, at).members[i + 1].pre)
              && AllWs(TrimAfter(ObjAt(d, at).members[i + 1].pre))
  {
    var ms := ObjAt(d, at).members;
    ObjectIsWf(d, at);
    assert ms[i] in ms;
    TrimmedStart(ms[i].post);
    if i + 1 < |ms| {
      assert ms[i + 1] in ms;
      TrimmedStart(ms[i + 1].pre);
    }
    hide Wf, StrOk, AllWs;
  }

  // Whatever white space is left behind the value: the text reads as the setting.
  lemma SettingReads(d: Doc, at: Place, i: nat, v: Value)
    requires WfDoc(d) && Holds(d, at) && i < |ObjAt(d, at).members| && Wf(v)
    ensures ReadsAs(SetLoosely(d, at, i, v), Setting(d, at, i, v))
  {
    if i + 1 < |ObjAt(d, at).members| {
      SettingReadsMore(d, at, i, v);
    } else {
      SettingReadsLast(d, at, i, v);
    }
    hide *;
  }

  lemma BoxOfObj(e: Doc)
    requires e.root.Obj?
    ensures IsBox(e.root)
  {
  }

  lemma ClosingOfReplaced(ms: seq<Member>, us: seq<Member>, i: nat, right: string)
    requires i < |ms| == |us| && us[i + 1..] == TrimFirst(ms[i + 1..])
    ensures Closing(us, i, right) == if i + 1
            == |ms| then "}" + right else "," + PrintMembers(TrimFirst(ms[i + 1..])) + ("}" + right)
    ensures i + 1 == |ms| ==> Closing(ms, i, right) == "}" + right
  {
    hide PrintMembers, TrimFirst;
    if i + 1 < |ms| {
      Assoc("," + PrintMembers(TrimFirst(ms[i + 1..])), "}", right);
    } else {
      assert "" + "}" + right == "}" + right;
    }
  }

  // The two texts behind the new member, commas and white space first.
  function LooseMore(ms: seq<Member>, i: nat): string
    requires i + 1 < |ms|
  {
    "," + TrimAfter(ms[i].post) + "," + ms[i + 1].pre
  }

  lemma SettingTextsMore(d: Doc, at: Place, i: nat, v: Value)
    requires WfDoc(d) && Holds(d, at) && i + 1 < |ObjAt(d, at).members| && Wf(v)
    ensures var ms := ObjAt(d, at).members;
            var p, r := Opening(LeftOf(d, at), ms, i) + PrintMember(Plain(ms[i].key, v)),
                Tail(ms[i + 1..]) + ("}" + RightOf(d, at));
            && SetLoosely(d, at, i, v) == p + (LooseMore(ms, i) + r)
            && PrintDoc(Setting(d, at, i, v)) == p + (("," + TrimAfter(ms[i + 1].pre)) + r)
  {
    var ms, right := ObjAt(d, at).members, RightOf(d, at);
    var m := Plain(ms[i].key, v);
    assert LooseMore(ms, i) == "," + TrimAfter(ms[i].post) + "," + ms[i + 1].pre;
    assert SetLoosely(d, at, i, v)
           == Opening(LeftOf(d, at), ms, i) + PrintMember(m) + ("," + (TrimAfter(ms[i].post) + Closing(ms, i, right)));
    hide *;
    SettingParts(d, at, i, v);
    ClosingOfReplaced(ms, Replaced(ms, i, m), i, right);
    ClosingMore(ms, i, right);
    JoinSlack(TrimAfter(ms[i].post), ms[i + 1].pre, Tail(ms[i + 1..]) + ("}" + right));
  }

  lemma SettingReadsMore(d: Doc, at: Place, i: nat, v: Value)
    requires WfDoc(d) && Holds(d, at) && i + 1 < |ObjAt(d, at).members| && Wf(v)
    ensures ReadsAs(SetLoosely(d, at, i, v), Setting(d, at, i, v))
  {
    var ms := ObjAt(d, at).members;
    assert LooseMore(ms, i) == "," + TrimAfter(ms[i].post) + "," + ms[i + 1].pre;
    hide *;
    SettingTextsMore(d, at, i, v);
    SettingParts(d, at, i, v);
    PostIsWs(d, at, i);
    OneMore(d, at, i, Plain(ms[i].key, v), TrimAfter(ms[i].post), ms[i + 1].pre, TrimAfter(ms[i + 1].pre),
            Tail(ms[i + 1..]) + ("}" + RightOf(d, at)), Setting(d, at, i, v));
  }

  lemma StopsSlack(ws: string, pre: string, r: string)
    ensures Stops(("," + ws + "," + pre) + r) && Stops(("," + pre) + r)
  {
  }

  lemma SettingTextsLast(d: Doc, at: Place, i: nat, v: Value)
    requires WfDoc(d) && Holds(d, at) && i + 1 == |ObjAt(d, at).members| && Wf(v)
    ensures var ms := ObjAt(d, at).members;
            var p := Opening(LeftOf(d, at), ms, i) + PrintMember(Plain(ms[i].key, v));
            && SetLoosely(d, at, i, v) == p + (("," + TrimAfter(ms[i].post)) + ("}" + RightOf(d, at)))
            && PrintDoc(Setting(d, at, i, v)) == p + ("}" + RightOf(d, at))
  {
    var ms, right := ObjAt(d, at).members, RightOf(d, at);
    var m := Plain(ms[i].key, v);
    assert SetLoosely(d, at, i, v)
           == Opening(LeftOf(d, at), ms, i) + PrintMember(m) + ("," + (TrimAfter(ms[i].post) + Closing(ms, i, right)));
    hide *;
    SettingParts(d, at, i, v);
    ClosingOfReplaced(ms, Replaced(ms, i, m), i, right);
    JoinSlack(TrimAfter(ms[i].post), "", "}" + right);
  }

  lemma SettingReadsLast(d: Doc, at: Place, i: nat, v: Value)
    requires WfDoc(d) && Holds(d, at) && i + 1 == |ObjAt(d, at).members| && Wf(v)
    ensures ReadsAs(SetLoosely(d, at, i, v), Setting(d, at, i, v))
  {
    hide *;
    var ms := ObjAt(d, at).members;
    SettingTextsLast(d, at, i, v);
    SettingParts(d, at, i, v);
    PostIsWs(d, at, i);
    OneLast(d, at, i, Plain(ms[i].key, v), TrimAfter(ms[i].post), RightOf(d, at), Setting(d, at, i, v));
  }

  // ----- Removing ---------------------------------------------------------------------------------

  // The document without member i.
  function Less(d: Doc, at: Place, i: nat): Doc
    requires Holds(d, at) && i < |ObjAt(d, at).members|
  {
    WithObj(d, at, Obj(Removed(ObjAt(d, at).members, i), ""))
  }

  // The text that cutting leaves.
  function CutLoosely(d: Doc, at: Place, i: nat): string
    requires Holds(d, at) && i < |ObjAt(d, at).members|
  {
    var ms := ObjAt(d, at).members;
    Opening(LeftOf(d, at), ms, i) + (TrimAfter(ms[i].post) + Closing(ms, i, RightOf(d, at)))
  }

  lemma LessIsWf(d: Doc, at: Place, i: nat)
    requires WfDoc(d) && Holds(d, at) && i < |ObjAt(d, at).members|
    ensures WfDoc(Less(d, at, i)) && Less(d, at, i).root.Obj? && IsBox(Less(d, at, i).root)
    ensures PrintDoc(Less(d, at, i)) == Around(LeftOf(d, at), Removed(ObjAt(d, at).members, i), "", RightOf(d, at))
  {
    var ms := ObjAt(d, at).members;
    ObjectIsWf(d, at);
    RestIsWf(ms, i);
    assert WfMembers(Removed(ms, i));
    UpdatedIsWf(d, at, Removed(ms, i), "");
    PrintAround(d, at, Removed(ms, i), "");
    hide WfDoc, PrintDoc, Around, Removed, LeftOf, RightOf, WfMember, Wf;
  }

  // In front of member i, two ways on.
  lemma SlackReads(d: Doc, at: Place, i: nat, j1: string, j2: string, r: string, e: Doc)
    requires WfDoc(d) && Holds(d, at) && i < |ObjAt(d, at).members| && Slack(j1) && Slack(j2)
    requires PrintDoc(e) == Opening(LeftOf(d, at), ObjAt(d, at).members, i) + (j2 + r) && WfDoc(e) && IsBox(e.root)
    ensures ReadsAs(Opening(LeftOf(d, at), ObjAt(d, at).members, i) + (j1 + r), e)
  {
    hide *;
    var o, st := Opening(LeftOf(d, at), ObjAt(d, at).members, i), ObjState(d, at, i);
    var b, a := Outer(d, at), |LeftOf(d, at)|;
    ObjStateIs(d, at, i);
    OuterEnds(d, at);
    ObjEnds(d, at, i);
    AfterOpening(d, at, i, j1 + r);
    AfterOpening(d, at, i, j2 + r);
    SharedAlike(o, j1 + r, j2 + r, st.toks);
    DropFront(o, j1 + r);
    DropFront(o, j2 + r);
    FilledIsHeld(b, a, i, FrontToks(d, at, i));
    FilledAgrees(b, a, i, FrontToks(d, at, i), o + (j1 + r), |o|, j1, o + (j2 + r), |o|, j2, r);
    ReadsIf(o, j1 + r, j2 + r, st, e);
  }

  lemma FilledIsHeld(b: seq<Raw>, at: nat, n: nat, x: seq<Raw>)
    ensures Filled(b, TObj, at, n, x).toks == Held(b, TObj, at, n, x)
  {
  }

  lemma DropFront(o: string, x: string)
    ensures |o + x| >= |o| && (o + x)[|o|..] == x
  {
  }

  lemma RemovingReadsMore(d: Doc, at: Place, i: nat)
    requires WfDoc(d) && Holds(d, at) && i + 1 < |ObjAt(d, at).members|
    ensures ReadsAs(CutLoosely(d, at, i), Less(d, at, i))
  {
    var ms, left, right := ObjAt(d, at).members, LeftOf(d, at), RightOf(d, at);
    var ws, pre, r := TrimAfter(ms[i].post), ms[i + 1].pre, Tail(ms[i + 1..]) + ("}" + right);
    assert CutLoosely(d, at, i) == Opening(left, ms, i) + (ws + Closing(ms, i, right));
    RemovedText(left, ms, i, right);
    hide *;
    LessIsWf(d, at, i);
    ClosingMore(ms, i, right);
    JoinSlack(ws, pre, r);
    PostIsWs(d, at, i);
    SlackOf(ws, pre);
    SlackOf(TrimAfter(pre), "");
    SlackReads(d, at, i, ws + "," + pre, TrimAfter(pre), r, Less(d, at, i));
  }

  lemma RemovedText(left: string, ms: seq<Member>, i: nat, right: string)
    requires i + 1 < |ms|
    ensures Around(left, Removed(ms, i), "", right)
            == Opening(left, ms, i) + (TrimAfter(ms[i + 1].pre) + (Tail(ms[i + 1..]) + ("}" + right)))
  {
    var a, b := ms[..i], TrimFirst(ms[i + 1..]);
    SplitAround(left, a, b, right);
    MembersStart(ms[i + 1..], "}" + right);
    hide PrintMembers, Lead, Tail, TrimFirst, TrimAfter;
    assert b != [];
    Assoc(PrintMembers(b), "}", right);
  }

  lemma RemovingReadsOnly(d: Doc, at: Place)
    requires WfDoc(d) && Holds(d, at) && |ObjAt(d, at).members| == 1
    ensures ReadsAs(CutLoosely(d, at, 0), Less(d, at, 0))
  {
    var ms, left, right := ObjAt(d, at).members, LeftOf(d, at), RightOf(d, at);
    var ws := TrimAfter(ms[0].post);
    assert CutLoosely(d, at, 0) == Opening(left, ms, 0) + (ws + Closing(ms, 0, right));
    AloneAround(left, ms, "", right);
    hide *;
    LessIsWf(d, at, 0);
    ClosingLast(ms, 0, right);
    PostIsWs(d, at, 0);
    SlackOf(ws, "");
    SlackOf("", "") by { NothingIsWs(); }
    SlackReads(d, at, 0, ws, "", "}" + right, Less(d, at, 0));
  }

  lemma ClosingLast(ms: seq<Member>, i: nat, right: string)
    requires i + 1 == |ms|
    ensures Closing(ms, i, right) == "}" + right
  {
    assert "" + "}" + right == "}" + right;
  }

  lemma RemovingTextsLast(d: Doc, at: Place, i: nat)
    requires WfDoc(d) && Holds(d, at) && i + 1 == |ObjAt(d, at).members| && i > 0
    ensures var ms := ObjAt(d, at).members;
            var p := Opening(LeftOf(d, at), ms, i - 1) + PrintMember(ms[i - 1]);
            && CutLoosely(d, at, i) == p + (("," + TrimAfter(ms[i].post)) + ("}" + RightOf(d, at)))
            && PrintDoc(Less(d, at, i)) == p + ("}" + RightOf(d, at))
  {
    var ms, left, right := ObjAt(d, at).members, LeftOf(d, at), RightOf(d, at);
    assert CutLoosely(d, at, i) == Opening(left, ms, i) + (TrimAfter(ms[i].post) + Closing(ms, i, right));
    hide *;
    LessIsWf(d, at, i);
    RemovedLast(left, ms, i, right);
    ClosingLast(ms, i, right);
    AssocComma(Opening(left, ms, i - 1) + PrintMember(ms[i - 1]), TrimAfter(ms[i].post), right);
  }

  lemma RemovingReadsLast(d: Doc, at: Place, i: nat)
    requires WfDoc(d) && Holds(d, at) && i + 1 == |ObjAt(d, at).members| && i > 0
    ensures ReadsAs(CutLoosely(d, at, i), Less(d, at, i))
  {
    hide *;
    var ms := ObjAt(d, at).members;
    FrontMember(d, at, i - 1);
    RemovingTextsLast(d, at, i);
    LessIsWf(d, at, i);
    PostIsWs(d, at, i);
    OneLast(d, at, i - 1, ms[i - 1], TrimAfter(ms[i].post), RightOf(d, at), Less(d, at, i));
  }

  lemma AssocComma(p: string, ws: string, right: string)
    ensures p + "," + (ws + ("}" + right)) == p + (("," + ws) + ("}" + right))
  {
  }

  lemma FrontMember(d: Doc, at: Place, i: nat)
    requires WfDoc(d) && Holds(d, at) && i < |ObjAt(d, at).members|
    ensures WfMember(ObjAt(d, at).members[i])
  {
    ObjectIsWf(d, at);
    assert ObjAt(d, at).members[i] in ObjAt(d, at).members;
    hide WfMember, Wf, WfDoc;
  }

  // The last member's text without it, and what opens it.
  lemma RemovedIsFront(ms: seq<Member>, i: nat)
    requires i + 1 == |ms| && i > 0
    ensures Removed(ms, i) == ms[..i] && ms[..i] == ms[..i - 1] + [ms[i - 1]] && ms[..i] != []
  {
    assert ms[i + 1..] == [] && TrimFirst([]) == [];
    hide TrimAfter;
  }

  lemma JoinedAhead(left: string, l: string, m: string, right: string)
    ensures left + "{" + (l + m + ",") == left + "{" + l + m + ","
    ensures left + "{" + (l + m) + "}" + right == left + "{" + l + m + ("}" + right)
  {
  }

  lemma RemovedLast(left: string, ms: seq<Member>, i: nat, right: string)
    requires i + 1 == |ms| && i > 0
    ensures var p := Opening(left, ms, i - 1) + PrintMember(ms[i - 1]);
            Opening(left, ms, i) == p + "," && Around(left, Removed(ms, i), "", right) == p + ("}" + right)
  {
    RemovedIsFront(ms, i);
    LeadAppend(ms[..i - 1], ms[i - 1]);
    LeadIsPrint(ms[..i]);
    hide PrintMembers, Lead, PrintMember, TrimFirst, Removed;
    var l, m := Lead(ms[..i - 1]), PrintMember(ms[i - 1]);
    LastDropped(PrintMembers(ms[..i]), l + m);
    JoinedAhead(left, l, m, right);
  }

  lemma LastDropped(a: string, b: string)
    requires a + "," == b + ","
    ensures a == b
  {
    assert (a + ",")[..|a|] == a && (b + ",")[..|b|] == b;
  }

  // Whatever white space is left behind the value cut: the text reads as the document without it.
  lemma RemovingReads(d: Doc, at: Place, i: nat)
    requires WfDoc(d) && Holds(d, at) && i < |ObjAt(d, at).members|
    ensures ReadsAs(CutLoosely(d, at, i), Less(d, at, i))
  {
    hide *;
    if i + 1 < |ObjAt(d, at).members| {
      RemovingReadsMore(d, at, i);
    } else if i > 0 {
      RemovingReadsLast(d, at, i);
    } else {
      RemovingReadsOnly(d, at);
    }
  }

  // ----- Creating ---------------------------------------------------------------------------------

  lemma InsertedIsWith(d: Doc, at: Place, m: Member)
    requires Holds(d, at) && ObjAt(d, at).members == []
    ensures Inserted(d, at, 0, m) == WithObj(d, at, Obj([m], ""))
  {
    assert [] + [m] + [] == [m] && With([], 0, m) == [m];
    hide WithObj;
  }

  lemma OneAround(left: string, m: Member, right: string)
    ensures Around(left, [m], "", right) == left + "{" + PrintMember(m) + ("}" + right)
    ensures Opening(left, [m], 0) == left + "{"
  {
    PrintMembersCons(m, []);
    assert [m] + [] == [m] && [m][..0] == [];
    hide PrintMember, PrintMembers;
    assert left + "{" + PrintMember(m) + "}" + right == left + "{" + PrintMember(m) + ("}" + right);
    assert left + "{" + "" == left + "{";
  }

  lemma InsertedFacts(d: Doc, at: Place, m: Member)
    requires WfDoc(d) && Holds(d, at) && ObjAt(d, at).members == [] && WfMember(m)
    ensures var e := Inserted(d, at, 0, m);
            && WfDoc(e) && e.root.Obj? && Holds(e, at) && ObjAt(e, at).members == [m] && LeftOf(e, at) == LeftOf(d, at)
            && RightOf(e, at) == RightOf(d, at) && Opening(LeftOf(e, at), [m], 0) == LeftOf(d, at) + "{"
            && PrintDoc(e) == LeftOf(d, at) + "{" + PrintMember(m) + ("}" + RightOf(d, at))
  {
    hide *;
    InsertedIsWith(d, at, m);
    InsertedIsWf(d, at, m);
    SamePlace(d, at, Obj([m], ""));
    PrintAround(d, at, [m], "");
    OneAround(LeftOf(d, at), m, RightOf(d, at));
  }

  lemma InsertedIsWf(d: Doc, at: Place, m: Member)
    requires WfDoc(d) && Holds(d, at) && WfMember(m)
    ensures WfDoc(Inserted(d, at, 0, m)) && Inserted(d, at, 0, m).root.Obj?
  {
    ObjectIsWf(d, at);
    WithIsWf(ObjAt(d, at).members, 0, m);
    UpdatedIsWf(d, at, With(ObjAt(d, at).members, 0, m), "");
    hide WfDoc, WfMember, Wf;
  }

  // The surroundings of an object do not depend on it.
  lemma SamePlace(d: Doc, at: Place, v: Value)
    requires Holds(d, at) && v.Obj?
    ensures var e := WithObj(d, at, v);
            Holds(e, at) && ObjAt(e, at) == v && LeftOf(e, at) == LeftOf(d, at) && RightOf(e, at) == RightOf(d, at)
  {
    if at.Within? {
      var os := d.root.members;
      var us := os[at.j := os[at.j].(val := v)];
      assert us[..at.j] == os[..at.j] && us[at.j + 1..] == os[at.j + 1..];
      hide Lead, PrintMembers;
    }
  }

  // In an object that just holds white space: behind the brace, and in front of the closing one.
  lemma FirstReads(d: Doc, at: Place, m: Member)
    requires WfDoc(d) && Holds(d, at) && ObjAt(d, at).members == [] && WfMember(m)
    ensures ReadsAs(LeftOf(d, at) + "{" + PrintMember(m) + (("," + ObjAt(d, at).ws) + ("}" + RightOf(d, at))),
            Inserted(d, at, 0, m))
    ensures ReadsAs(LeftOf(d, at) + "{" + ((ObjAt(d, at).ws + ",") + (PrintMember(m) + ("}" + RightOf(d, at)))),
            Inserted(d, at, 0, m))
  {
    var e, ws, right := Inserted(d, at, 0, m), ObjAt(d, at).ws, RightOf(d, at);
    ObjectIsWf(d, at);
    InsertedFacts(d, at, m);
    hide *;
    OneLast(e, at, 0, m, ws, right, e);
    SlackOf(ws, "") by { NothingIsWs(); }
    SlackOf("", "") by { NothingIsWs(); }
    BoxOfObj(e);
    Assoc(LeftOf(d, at) + "{", PrintMember(m), "}" + right);
    EmptyFront(PrintMember(m) + ("}" + right));
    SlackReads(e, at, 0, ws + ",", "", PrintMember(m) + ("}" + right), e);
  }

  lemma EmptyFront(x: string)
    ensures "" + x == x
  {
  }

  // A new last member of the top level, if the text ends with the brace.
  lemma CreatingReadsLast(d: Doc, m: Member)
    requires WfDoc(d) && d.root.Obj? && d.post == "" && WfMember(m)
    ensures 1 <= |PrintDoc(d)| - 1 < |PrintDoc(d)|
    ensures ReadsAs(InsText(PrintDoc(d), |PrintDoc(d)| - 1, PrintMember(m)), Inserted(d, Root, |d.root.members|, m))
  {
    LastCharacter(d);
    if d.root.ws == "" {
      InsertedText(d, Root, |d.root.members|, m);
      InsertedMeans(d, Root, |d.root.members|, m);
      hide WfDoc, PrintDoc, PrintMember, InsText, ReadsAs, InsertAt, Parse, MeansInsert, WfMember;
      DocReads(Inserted(d, Root, |d.root.members|, m));
    } else {
      ObjectIsWf(d, Root);
      LastInSpaces(d, m);
    }
  }

  lemma LastInSpaces(d: Doc, m: Member)
    requires WfDoc(d) && d.root.Obj? && d.post == "" && WfMember(m) && d.root.members == [] && d.root.ws != ""
             && AllWs(d.root.ws)
    ensures 1 <= |PrintDoc(d)| - 1 < |PrintDoc(d)|
    ensures ReadsAs(InsText(PrintDoc(d), |PrintDoc(d)| - 1, PrintMember(m)), Inserted(d, Root, 0, m))
  {
    var ws := d.root.ws;
    assert PrintDoc(d) == d.pre + "{" + ws + "}" by { NothingPrinted(); }
    assert IsWs(ws[|ws| - 1]) && LeftOf(d, Root) == d.pre && RightOf(d, Root) == "";
    FirstReads(d, Root, m);
    hide WfDoc, PrintDoc, PrintMember, InsText, ReadsAs, LeftOf, RightOf, WfMember, Inserted, AllWs;
    TextInSpaces(d.pre, ws, PrintMember(m));
    SpacesText(d.pre, ws, PrintMember(m));
  }

  lemma SpacesText(pre: string, ws: string, val: string)
    ensures pre + ("{" + "" + (ws + ("," + val + "}"))) == pre + "{" + ((ws + ",") + (val + ("}" + "")))
  {
  }

  // A new first member of an object.
  lemma CreatingReadsFirst(d: Doc, at: Place, m: Member)
    requires WfDoc(d) && Holds(d, at) && WfMember(m)
    ensures 1 <= |LeftOf(d, at)| + 1 < |PrintDoc(d)|
    ensures ReadsAs(InsText(PrintDoc(d), |LeftOf(d, at)| + 1, PrintMember(m)), Inserted(d, at, 0, m))
  {
    if ObjAt(d, at).ws == "" {
      FirstPosition(d, at);
      InsertedText(d, at, 0, m);
      InsertedMeans(d, at, 0, m);
      hide WfDoc, PrintDoc, PrintMember, InsText, ReadsAs, InsertAt, Parse, MeansInsert, WfMember, LeftOf;
      BoxOfObj(Inserted(d, at, 0, m));
      DocReads(Inserted(d, at, 0, m));
    } else {
      ObjectIsWf(d, at);
      FirstInSpaces(d, at, m);
    }
  }

  lemma FirstInSpaces(d: Doc, at: Place, m: Member)
    requires WfDoc(d) && Holds(d, at) && WfMember(m) && ObjAt(d, at).members == [] && ObjAt(d, at).ws != ""
             && AllWs(ObjAt(d, at).ws)
    ensures 1 <= |LeftOf(d, at)| + 1 < |PrintDoc(d)|
    ensures ReadsAs(InsText(PrintDoc(d), |LeftOf(d, at)| + 1, PrintMember(m)), Inserted(d, at, 0, m))
  {
    var ws, left, right := ObjAt(d, at).ws, LeftOf(d, at), RightOf(d, at);
    hide *;
    EmptyIsAround(d, at);
    FirstOfWs(ws);
    FirstReads(d, at, m);
    TextBeforeSpaces(left, ws, PrintMember(m), right);
    SpacesText2(left, ws, PrintMember(m), right);
  }

  lemma SpacesText2(left: string, ws: string, val: string, right: string)
    ensures left + ("{" + ("" + val + ",") + (ws + ("}" + right))) == left + "{" + val + (("," + ws) + ("}" + right))
  {
  }
}
