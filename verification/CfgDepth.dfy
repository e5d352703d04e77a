/** The level _cfg_walk gives a token is the number of containers around it in the text. */
module CfgDepth {
  import opened JsonText
  import opened CfgWalk

  // How many containers among the tokens reach beyond a position.
  function Open(toks: seq<Tok>, p: nat): nat {
    if toks == [] then 0
    else Open(toks[1..], p) + if toks[0].IsContainer() && p < toks[0].end then 1 else 0
  }

  lemma {:induction false} OpenAppend(a: seq<Tok>, b: seq<Tok>, p: nat)
    ensures Open(a + b, p) == Open(a, p) + Open(b, p)
  {
    if a == [] {
      assert a + b == b;
    } else {
      assert (a + b)[1..] == a[1..] + b;
      OpenAppend(a[1..], b, p);
    }
  }

  // No container ends between the two positions.
  predicate Apart(toks: seq<Tok>, a: nat, b: nat) {
    forall i | 0 <= i < |toks| :: toks[i].IsContainer() ==> toks[i].end <= a || b <= toks[i].end
  }

  lemma {:induction false} OpenIsSame(toks: seq<Tok>, a: nat, b: nat, p: nat)
    requires Apart(toks, a, b) && a <= p < b
    ensures Open(toks, p) == Open(toks, a)
  {
    if toks != [] {
      OpenIsSame(toks[1..], a, b, p);
    }
  }

  predicate Ended(toks: seq<Tok>, p: nat) {
    forall i | 0 <= i < |toks| :: toks[i].IsContainer() ==> toks[i].end <= p
  }

  lemma {:induction false} NoneOpen(toks: seq<Tok>, p: nat)
    requires Ended(toks, p)
    ensures Open(toks, p) == 0
  {
    if toks != [] {
      NoneOpen(toks[1..], p);
    }
  }

  // In pre-order a container around a token comes before it, and ends behind its start.
  function Nesting(toks: seq<Tok>, k: nat): nat
    requires k < |toks|
  {
    Open(toks[..k], toks[k].start)
  }

  predicate LevelsAre(toks: seq<Tok>, es: seq<Event>) {
    forall i | 0 <= i < |es| && es[i].Visit? :: es[i].tok < |toks| && es[i].lvl == Nesting(toks, es[i].tok)
  }

  lemma LevelsStay(toks: seq<Tok>, more: seq<Tok>, es: seq<Event>)
    requires LevelsAre(toks, es)
    ensures LevelsAre(toks + more, es)
  {
    forall i | 0 <= i < |es| && es[i].Visit?
      ensures es[i].tok < |toks + more| && es[i].lvl == Nesting(toks + more, es[i].tok)
    {
      assert (toks + more)[..es[i].tok] == toks[..es[i].tok];
    }
  }

  lemma LevelsJoin(toks: seq<Tok>, a: seq<Event>, b: seq<Event>)
    requires LevelsAre(toks, a) && LevelsAre(toks, b)
    ensures LevelsAre(toks, a + b)
  {
    hide Nesting;
  }

  // One token, after others.
  lemma LevelOfNext(pre: seq<Tok>, tok: Tok, lvl: nat)
    requires Open(pre, tok.start) == lvl
    ensures LevelsAre(pre + [tok], First(|pre|, lvl, All))
  {
    assert (pre + [tok])[..|pre|] == pre;
  }

  lemma EndedAppend(x: seq<Tok>, y: seq<Tok>, p: nat, q: nat)
    requires Ended(x, p) && Ended(y, q) && p <= q
    ensures Ended(x + y, q)
  {
  }

  // ----- Where a value's containers end -----------------------------------------------------------

  lemma {:induction false} ValueEnds(v: Value, off: nat)
    ensures Ended(Toks(v, off), off + |Print(v)|)
    decreases v
  {
    match v
    case Arr(items, _) =>
      ItemsEnd(items, off + 1);
      InsideEnds(v, off, ItemToks(items, off + 1), off + 1 + |PrintItems(items)|);
    case Obj(members, _) =>
      MembersEnd(members, off + 1);
      InsideEnds(v, off, MemberToks(members, off + 1), off + 1 + |PrintMembers(members)|);
    case _ =>
  }

  lemma InsideEnds(v: Value, off: nat, toks: seq<Tok>, p: nat)
    requires Toks(v, off) == [Toks(v, off)[0]] + toks && Toks(v, off)[0].end <= off + |Print(v)|
    requires Ended(toks, p) && p <= off + |Print(v)|
    ensures Ended(Toks(v, off), off + |Print(v)|)
  {
    hide Toks, Print;
  }

  lemma {:induction false} ItemsEnd(es: seq<Item>, off: nat)
    ensures Ended(ItemToks(es, off), off + |PrintItems(es)|)
    decreases es
  {
    if es != [] {
      var v, p, q := es[0].val, off + |es[0].pre|, off + |PrintItem(es[0])| + 1;
      ItemLengths(es, off);
      ItemsCons(es, 0, off, 0, All);
      hide Print, PrintItem, PrintItems, Toks, ItemToks;
      ValueEnds(v, p);
      ItemsEnd(es[1..], q);
      if |es| > 1 {
        EndedAppend(Toks(v, p), ItemToks(es[1..], q), p + |Print(v)|, off + |PrintItems(es)|);
      } else {
        NoItems(q);
        assert es[1..] == [];
        assert Toks(v, p) + [] == Toks(v, p);
      }
    }
  }

  lemma NoItems(off: nat)
    ensures ItemToks([], off) == [] && MemberToks([], off) == []
  {
  }

  lemma ItemLengths(es: seq<Item>, off: nat)
    requires es != []
    ensures |es[0].pre| + |Print(es[0].val)| <= |PrintItem(es[0])| <= |PrintItems(es)|
    ensures |es| > 1 ==> |PrintItems(es)| == |PrintItem(es[0])| + 1 + |PrintItems(es[1..])|
  {
    hide Print;
  }

  lemma MemberLengths(ms: seq<Member>)
    requires ms != []
    ensures HeadLen(ms[0]) + |Print(ms[0].val)| <= |PrintMember(ms[0])| <= |PrintMembers(ms)|
    ensures |ms| > 1 ==> |PrintMembers(ms)| == |PrintMember(ms[0])| + 1 + |PrintMembers(ms[1..])|
  {
    hide Print;
  }

  lemma {:induction false} MembersEnd(ms: seq<Member>, off: nat)
    ensures Ended(MemberToks(ms, off), off + |PrintMembers(ms)|)
    decreases ms
  {
    if ms != [] {
      var v, p, q := ms[0].val, off + HeadLen(ms[0]), off + |PrintMember(ms[0])| + 1;
      var end := off + |PrintMembers(ms)|;
      MemberLengths(ms);
      MembersCons(ms, 0, off, 0, All);
      hide Print, PrintMember, PrintMembers, Toks, MemberToks, HeadLen;
      ValueEnds(v, p);
      MembersEnd(ms[1..], q);
      if |ms| == 1 {
        NoItems(q);
        assert ms[1..] == [];
      }
      EndedAppend(Toks(v, p), MemberToks(ms[1..], q), p + |Print(v)|, end);
      EndedAppend([KeyTok(ms[0], off)], RestToks(ms, off), 0, end);
    }
  }

  // ----- Levels are nesting -----------------------------------------------------------------------

  // The tokens before a stretch of text [a, b): lvl of their containers are around it, the others over.
  predicate Around(pre: seq<Tok>, a: nat, b: nat, lvl: nat) {
    a < b && Apart(pre, a, b) && Open(pre, a) == lvl
  }

  lemma AroundPart(pre: seq<Tok>, a: nat, b: nat, lvl: nat, c: nat, d: nat)
    requires Around(pre, a, b, lvl) && a <= c < d <= b
    ensures Around(pre, c, d, lvl) && Open(pre, c) == lvl
  {
    OpenIsSame(pre, a, b, c);
  }

  lemma AroundMore(pre: seq<Tok>, a: nat, b: nat, lvl: nat, more: seq<Tok>, q: nat)
    requires Around(pre, a, b, lvl) && Ended(more, q) && a <= q < b
    ensures Around(pre + more, q, b, lvl)
  {
    OpenIsSame(pre, a, b, q);
    OpenAppend(pre, more, q);
    NoneOpen(more, q);
  }

  // Inside a container.
  lemma AroundInside(pre: seq<Tok>, a: nat, b: nat, lvl: nat, tok: Tok)
    requires Around(pre, a, b, lvl) && tok.IsContainer() && tok.end == b && a + 2 < b
    ensures Around(pre + [tok], a + 1, b - 1, lvl + 1)
  {
    OpenIsSame(pre, a, b, a + 1);
    OpenAppend(pre, [tok], a + 1);
    assert [tok][1..] == [];
  }

  lemma {:induction false} LevelsInValue(pre: seq<Tok>, v: Value, off: nat, lvl: nat)
    requires Wf(v) && Around(pre, off, off + |Print(v)|, lvl)
    ensures LevelsAre(pre + Toks(v, off), Events(v, |pre|, lvl, All))
    decreases v, 1
  {
    if v.Arr? || v.Obj? {
      hide Around, LevelsAre, Toks, Events;
      LevelsInBox(pre, v, off, lvl);
    } else {
      ToksOf(v, off);
      EventsOf(v, |pre|, lvl, All);
      StartOfLeaf(v, off);
      AroundPart(pre, off, off + |Print(v)|, lvl, Toks(v, off)[0].start, off + |Print(v)|);
      hide LevelsAre, First, Around, Toks, Events;
      LevelOfNext(pre, Toks(v, off)[0], lvl);
    }
  }

  lemma StartOfLeaf(v: Value, off: nat)
    ensures off <= Toks(v, off)[0].start
    ensures v.Str? ==> Toks(v, off)[0].start < off + |Print(v)|
    ensures !v.Str? ==> Toks(v, off)[0].start == off
  {
    hide ItemToks, MemberToks, PrintItems, PrintMembers;
  }

  lemma StartOfBox(v: Value, off: nat)
    requires v.Arr? || v.Obj?
    ensures var tok := Toks(v, off)[0];
            tok.start == off && tok.end == off + |Print(v)| && |Print(v)| >= 2
    ensures v.Arr? && v.items != [] ==> |Print(v)| == |PrintItems(v.items)| + 2
    ensures v.Obj? && v.members != [] ==> |Print(v)| == |PrintMembers(v.members)| + 2
  {
    hide ItemToks, MemberToks, PrintItems, PrintMembers;
  }

  // A container's own token, what is in it, and the callback for its end.
  lemma LevelsOfBox(pre: seq<Tok>, tok: Tok, toks: seq<Tok>, es: seq<Event>, lvl: nat)
    requires Open(pre, tok.start) == lvl && LevelsAre(pre + [tok] + toks, es)
    ensures LevelsAre(pre + ([tok] + toks), First(|pre|, lvl, All) + (es + [Close(|pre|, lvl + 1)]))
  {
    hide LevelsAre, First;
    var all, close := pre + [tok] + toks, [Close(|pre|, lvl + 1)];
    LevelOfNext(pre, tok, lvl);
    LevelsStay(pre + [tok], toks, First(|pre|, lvl, All));
    LevelOfClose(all, |pre|, lvl + 1);
    LevelsJoin(all, es, close);
    LevelsJoin(all, First(|pre|, lvl, All), es + close);
    AssocToks(pre, [tok], toks);
  }

  lemma LevelOfClose(toks: seq<Tok>, k: nat, lvl: nat)
    ensures LevelsAre(toks, [Close(k, lvl)])
  {
  }

  lemma {:induction false} LevelsInBox(pre: seq<Tok>, v: Value, off: nat, lvl: nat)
    requires Wf(v) && (v.Arr? || v.Obj?) && Around(pre, off, off + |Print(v)|, lvl)
    ensures LevelsAre(pre + Toks(v, off), Events(v, |pre|, lvl, All))
    decreases v, 0
  {
    var tok, end := Toks(v, off)[0], off + |Print(v)|;
    StartOfBox(v, off);
    ToksOf(v, off);
    EventsOf(v, |pre|, lvl, All);
    AroundPart(pre, off, end, lvl, off, end);
    assert v.Arr? && v.items != [] ==> v.items[0] in v.items && WfItem(v.items[0]);
    hide LevelsAre, First, Around, Toks, Events, ItemToks, MemberToks, ItemEvents, MemberEvents, Open, Print,
      PrintItems,
      PrintMembers;
    if v.Arr? {
      if v.items != [] {
        ItemLengths(v.items, off);
        ValueIsText(v.items[0].val);
        AroundInside(pre, off, end, lvl, tok);
        LevelsInItems(pre + [tok], v.items, off + 1, end - 1, lvl + 1);
      } else {
        NoLevels(pre + [tok] + ItemToks([], off + 1), |pre| + 1, lvl + 1);
      }
      LevelsOfBox(pre, tok, ItemToks(v.items, off + 1), ItemEvents(v.items, |pre| + 1, lvl + 1, All), lvl);
    } else {
      if v.members != [] {
        MemberLengths(v.members);
        AroundInside(pre, off, end, lvl, tok);
        LevelsInMembers(pre + [tok], v.members, off + 1, end - 1, lvl + 1);
      } else {
        NoLevels(pre + [tok] + MemberToks([], off + 1), |pre| + 1, lvl + 1);
      }
      LevelsOfBox(pre, tok, MemberToks(v.members, off + 1), MemberEvents(v.members, |pre| + 1, lvl + 1, All), lvl);
    }
  }

  lemma NoLevels(toks: seq<Tok>, k: nat, lvl: nat)
    ensures LevelsAre(toks, ItemEvents([], k, lvl, All)) && LevelsAre(toks, MemberEvents([], k, lvl, All))
  {
  }

  lemma ValueIsText(v: Value)
    requires Wf(v)
    ensures |Print(v)| > 0
  {
    hide WfItem, WfMember, PrintItems, PrintMembers;
  }

  // The parts of a stretch, one after the other.
  lemma LevelsBoth(pre: seq<Tok>, toks: seq<Tok>, rest: seq<Tok>, a: seq<Event>, b: seq<Event>)
    requires LevelsAre(pre + toks, a) && LevelsAre(pre + toks + rest, b)
    ensures LevelsAre(pre + (toks + rest), a + b)
  {
    hide LevelsAre;
    LevelsStay(pre + toks, rest, a);
    LevelsJoin(pre + toks + rest, a, b);
    AssocToks(pre, toks, rest);
  }

  lemma {:induction false} LevelsInItems(pre: seq<Tok>, es: seq<Item>, off: nat, b: nat, lvl: nat)
    requires es != [] && (forall e | e in es :: WfItem(e)) && Around(pre, off, b, lvl) && off + |PrintItems(es)| <= b
    ensures LevelsAre(pre + ItemToks(es, off), ItemEvents(es, |pre|, lvl, All))
    decreases es, 1
  {
    hide *;
    var v, p, q := es[0].val, off + |es[0].pre|, off + |PrintItem(es[0])| + 1;
    LevelsOfFirst(pre, es, off, b, lvl);
    LevelsAfterItem(pre, es, off, b, lvl);
    LevelsBoth(pre, Toks(v, p), ItemToks(es[1..], q), Events(v, |pre|, lvl, All), ItemEvents(es[1..], |pre| + Count(v),
               lvl, All));
    ItemsCons(es, |pre|, off, lvl, All);
  }

  lemma {:induction false} LevelsOfFirst(pre: seq<Tok>, es: seq<Item>, off: nat, b: nat, lvl: nat)
    requires es != [] && (forall e | e in es :: WfItem(e)) && Around(pre, off, b, lvl) && off + |PrintItems(es)| <= b
    ensures LevelsAre(pre + Toks(es[0].val, off + |es[0].pre|), Events(es[0].val, |pre|, lvl, All))
    decreases es, 0
  {
    hide *;
    var v, p := es[0].val, off + |es[0].pre|;
    FirstItemIsWf(es);
    ItemLengths(es, off);
    ValueIsText(v);
    AroundPart(pre, off, b, lvl, p, p + |Print(v)|);
    LevelsInValue(pre, v, p, lvl);
  }

  lemma {:induction false} LevelsAfterItem(pre: seq<Tok>, es: seq<Item>, off: nat, b: nat, lvl: nat)
    requires es != [] && (forall e | e in es :: WfItem(e)) && Around(pre, off, b, lvl) && off + |PrintItems(es)| <= b
    ensures var v, p, q := es[0].val, off + |es[0].pre|, off + |PrintItem(es[0])| + 1;
            LevelsAre(pre + Toks(v, p) + ItemToks(es[1..], q), ItemEvents(es[1..], |pre| + Count(v), lvl, All))
    decreases es, 0
  {
    hide LevelsAre, Around, Toks, ItemToks, Events, ItemEvents, Print, PrintItem, PrintItems, WfItem, Wf, Count;
    var v, q := es[0].val, off + |PrintItem(es[0])| + 1;
    var toks := Toks(v, off + |es[0].pre|);
    if |es| > 1 {
      RestItems(es);
      AroundRestItems(pre, es, off, b, lvl);
      LevelsInItems(pre + toks, es[1..], q, b, lvl);
    } else {
      assert es[1..] == [];
      NoLevels(pre + toks + ItemToks([], q), |pre| + Count(v), lvl);
    }
  }

  lemma AroundRestItems(pre: seq<Tok>, es: seq<Item>, off: nat, b: nat, lvl: nat)
    requires |es| > 1 && Around(pre, off, b, lvl) && off + |PrintItems(es)| <= b && |PrintItems(es[1..])| > 0
    ensures var v, p, q := es[0].val, off + |es[0].pre|, off + |PrintItem(es[0])| + 1;
            && Around(pre + Toks(v, p), q, b, lvl) && q + |PrintItems(es[1..])| <= b
            && |pre + Toks(v, p)| == |pre| + Count(v)
  {
    var v, p, q := es[0].val, off + |es[0].pre|, off + |PrintItem(es[0])| + 1;
    ItemLengths(es, off);
    hide Around, Toks, Print, PrintItem, PrintItems, Count;
    ValueEnds(v, p);
    TokCount(v, p);
    EndsLater(Toks(v, p), p + |Print(v)|, q);
    AroundMore(pre, off, b, lvl, Toks(v, p), q);
  }

  lemma FirstItemIsWf(es: seq<Item>)
    requires es != [] && forall e | e in es :: WfItem(e)
    ensures Wf(es[0].val)
  {
    assert es[0] in es;
    hide Wf;
  }

  lemma FirstMemberIsWf(ms: seq<Member>)
    requires ms != [] && forall m | m in ms :: WfMember(m)
    ensures Wf(ms[0].val)
  {
    assert ms[0] in ms;
    hide Wf;
  }

  lemma AssocToks(a: seq<Tok>, b: seq<Tok>, c: seq<Tok>)
    ensures a + b + c == a + (b + c)
  {
  }

  lemma EndsLater(toks: seq<Tok>, p: nat, q: nat)
    requires Ended(toks, p) && p <= q
    ensures Ended(toks, q)
  {
  }

  lemma RestItems(es: seq<Item>)
    requires |es| > 1 && forall e | e in es :: WfItem(e)
    ensures forall e | e in es[1..] :: WfItem(e)
    ensures |PrintItems(es[1..])| > 0
  {
    assert es[1] in es && WfItem(es[1]);
    ValueIsText(es[1].val);
    ItemLengths(es[1..], 0);
    hide Print, PrintItems, Wf;
  }

  lemma {:induction false} LevelsInMembers(pre: seq<Tok>, ms: seq<Member>, off: nat, b: nat, lvl: nat)
    requires ms != [] && (forall m | m in ms :: WfMember(m)) && Around(pre, off, b, lvl)
             && off + |PrintMembers(ms)| <= b
    ensures LevelsAre(pre + MemberToks(ms, off), MemberEvents(ms, |pre|, lvl, All))
    decreases ms, 2
  {
    var key := KeyTok(ms[0], off);
    MemberLengths(ms);
    assert off <= key.start < b && !key.IsContainer();
    MembersCons(ms, |pre|, off, lvl, All);
    hide LevelsAre, Around, Toks, MemberToks, Events, MemberEvents, Print, PrintMember, PrintMembers, WfMember, First,
      RestToks, RestEvents, KeyTok;
    AroundPart(pre, off, b, lvl, key.start, b);
    LevelOfNext(pre, key, lvl);
    AroundKey(pre, off, b, lvl, key);
    LevelsAfterKey(pre + [key], ms, off, b, lvl);
    LevelsStay(pre + [key], RestToks(ms, off), First(|pre|, lvl, All));
    LevelsJoin(pre + [key] + RestToks(ms, off), First(|pre|, lvl, All), RestEvents(ms, |pre| + 1, lvl, All));
    AssocToks(pre, [key], RestToks(ms, off));
  }

  lemma AroundKey(pre: seq<Tok>, a: nat, b: nat, lvl: nat, key: Tok)
    requires Around(pre, a, b, lvl) && !key.IsContainer()
    ensures Around(pre + [key], a, b, lvl)
  {
    AroundMore(pre, a, b, lvl, [key], a);
  }

  lemma {:induction false} LevelsAfterKey(pre: seq<Tok>, ms: seq<Member>, off: nat, b: nat, lvl: nat)
    requires ms != [] && (forall m | m in ms :: WfMember(m)) && Around(pre, off, b, lvl)
             && off + |PrintMembers(ms)| <= b
    ensures LevelsAre(pre + RestToks(ms, off), RestEvents(ms, |pre|, lvl, All))
    decreases ms, 1
  {
    hide Around, Toks, MemberToks, Events, MemberEvents, LevelsAre, Print, PrintMember, PrintMembers, WfMember, Wf,
      HeadLen, Count;
    var v, p, q := ms[0].val, off + HeadLen(ms[0]), off + |PrintMember(ms[0])| + 1;
    LevelsOfFirstValue(pre, ms, off, b, lvl);
    LevelsAfterMember(pre, ms, off, b, lvl);
    LevelsBoth(pre, Toks(v, p), MemberToks(ms[1..], q), Events(v, |pre|, lvl, All), MemberEvents(ms[1..],
               |pre| + Count(v), lvl, All));
  }

  lemma {:induction false} LevelsOfFirstValue(pre: seq<Tok>, ms: seq<Member>, off: nat, b: nat, lvl: nat)
    requires ms != [] && (forall m | m in ms :: WfMember(m)) && Around(pre, off, b, lvl)
             && off + |PrintMembers(ms)| <= b
    ensures LevelsAre(pre + Toks(ms[0].val, off + HeadLen(ms[0])), Events(ms[0].val, |pre|, lvl, All))
    decreases ms, 0
  {
    hide *;
    var v, p := ms[0].val, off + HeadLen(ms[0]);
    FirstMemberIsWf(ms);
    MemberLengths(ms);
    ValueIsText(v);
    AroundPart(pre, off, b, lvl, p, p + |Print(v)|);
    LevelsInValue(pre, v, p, lvl);
  }

  lemma {:induction false} LevelsAfterMember(pre: seq<Tok>, ms: seq<Member>, off: nat, b: nat, lvl: nat)
    requires ms != [] && (forall m | m in ms :: WfMember(m)) && Around(pre, off, b, lvl)
             && off + |PrintMembers(ms)| <= b
    ensures var v, p, q := ms[0].val, off + HeadLen(ms[0]), off + |PrintMember(ms[0])| + 1;
            LevelsAre(pre + Toks(v, p) + MemberToks(ms[1..], q), MemberEvents(ms[1..], |pre| + Count(v), lvl, All))
    decreases ms, 0
  {
    hide LevelsAre, Around, Toks, MemberToks, Events, MemberEvents, Print, PrintMember, PrintMembers, WfMember, Wf,
      HeadLen, Count;
    var v, q := ms[0].val, off + |PrintMember(ms[0])| + 1;
    var toks := Toks(v, off + HeadLen(ms[0]));
    if |ms| > 1 {
      RestMembers(ms);
      AroundRestMembers(pre, ms, off, b, lvl);
      LevelsInMembers(pre + toks, ms[1..], q, b, lvl);
    } else {
      assert ms[1..] == [];
      NoLevels(pre + toks + MemberToks([], q), |pre| + Count(v), lvl);
    }
  }

  lemma AroundRestMembers(pre: seq<Tok>, ms: seq<Member>, off: nat, b: nat, lvl: nat)
    requires |ms| > 1 && Around(pre, off, b, lvl) && off + |PrintMembers(ms)| <= b && |PrintMembers(ms[1..])| > 0
    ensures var v, p, q := ms[0].val, off + HeadLen(ms[0]), off + |PrintMember(ms[0])| + 1;
            && Around(pre + Toks(v, p), q, b, lvl) && q + |PrintMembers(ms[1..])| <= b
            && |pre + Toks(v, p)| == |pre| + Count(v)
  {
    var v, p, q := ms[0].val, off + HeadLen(ms[0]), off + |PrintMember(ms[0])| + 1;
    MemberLengths(ms);
    hide Around, Toks, Print, PrintMember, PrintMembers, HeadLen, Count;
    ValueEnds(v, p);
    TokCount(v, p);
    EndsLater(Toks(v, p), p + |Print(v)|, q);
    AroundMore(pre, off, b, lvl, Toks(v, p), q);
  }

  lemma RestMembers(ms: seq<Member>)
    requires |ms| > 1 && forall m | m in ms :: WfMember(m)
    ensures forall m | m in ms[1..] :: WfMember(m)
    ensures |PrintMembers(ms[1..])| > 0
  {
    MemberLengths(ms[1..]);
    hide Print, PrintMembers, WfMember;
  }

  // At every token of a document the walk's level is the number of containers around it.
  lemma LevelIsNesting(root: Value, off: nat, json: string)
    requires Wf(root)
    ensures LevelsAre(Toks(root, off), Run(State([], false, []), 0, Toks(root, off), Everything, json).trace)
  {
    ValueIsText(root);
    assert Around([], off, off + |Print(root)|, 0);
    hide LevelsAre, Around, Toks, Events, Run, Wf, Print;
    WalkFindsTree(root, off, json);
    LevelsInValue([], root, off, 0);
    assert [] + Toks(root, off) == Toks(root, off);
  }
}
