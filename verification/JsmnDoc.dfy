/** The state of jsmn_parse inside a document's text, up to a member of the object that is edited. */
module JsmnDoc {
  import opened Wrappers
  import opened JsonText
  import opened CfgText
  import opened CfgSet
  import opened CfgDoc
  import opened CfgWalk
  import opened Jsmn
  import opened JsmnTree
  import opened JsmnRead

  // ----- Where tokens end -------------------------------------------------------------------------

  predicate EndBy(xs: seq<Raw>, n: nat) {
    forall i | 0 <= i < |xs| :: !xs[i].IsBox() ==> 0 <= xs[i].start <= xs[i].end <= n
  }

  predicate ToksEndBy(ts: seq<Tok>, n: nat) {
    forall i | 0 <= i < |ts| :: !ts[i].IsContainer() ==> ts[i].start <= ts[i].end <= n
  }

  lemma WithinAppend(a: seq<Tok>, b: seq<Tok>, m: nat, n: nat)
    requires ToksEndBy(a, m) && ToksEndBy(b, n) && m <= n
    ensures ToksEndBy(a + b, n)
  {
  }

  lemma {:induction false} ValueWithin(v: Value, off: nat)
    ensures ToksEndBy(Toks(v, off), off + |Print(v)|)
    decreases v, 1
  {
    ToksOf(v, off);
    match v
    case Arr(items, ws) =>
      ItemsWithin(items, off + 1);
      ArrayText(items, ws, "");
      hide ItemToks, PrintItems, Toks;
      WithinAppend([Toks(v, off)[0]], ItemToks(items, off + 1), off, off + |Print(v)|);
    case Obj(members, ws) =>
      MembersWithin(members, off + 1);
      ObjectText(members, ws, "");
      hide MemberToks, PrintMembers, Toks;
      WithinAppend([Toks(v, off)[0]], MemberToks(members, off + 1), off, off + |Print(v)|);
    case _ =>
  }

  lemma {:induction false} ItemsWithin(es: seq<Item>, off: nat)
    ensures ToksEndBy(ItemToks(es, off), off + |PrintItems(es)|)
    decreases es, 0
  {
    hide *;
    NoItemsWithin();
    if es != [] {
      var v, p, q := es[0].val, off + |es[0].pre|, off + |PrintItem(es[0])| + 1;
      ValueWithin(v, p);
      ItemsWithin(es[1..], q);
      ItemText(es[0], "");
      ItemsSplit(es, off);
      WithinAppend(Toks(v, p), ItemToks(es[1..], q), p + |Print(v)|, off + |PrintItems(es)|);
    }
  }

  lemma NoItemsWithin()
    ensures forall n :: ToksEndBy([], n)
    ensures forall off :: ItemToks([], off) == []
    ensures PrintItems([]) == ""
  {
  }

  lemma ItemsSplit(es: seq<Item>, off: nat)
    requires es != []
    ensures ItemToks(es, off) == Toks(es[0].val, off + |es[0].pre|) + ItemToks(es[1..], off + |PrintItem(es[0])| + 1)
    ensures |es| == 1 ==> PrintItems(es) == PrintItem(es[0]) && ItemToks(es[1..], off + |PrintItem(es[0])| + 1) == []
    ensures |es| > 1 ==> |PrintItems(es)| == |PrintItem(es[0])| + 1 + |PrintItems(es[1..])|
  {
    assert |es| == 1 ==> es[1..] == [];
    hide Toks, PrintItem;
  }

  lemma OneWithin(m: Member, off: nat)
    requires ToksEndBy(Toks(m.val, off + HeadLen(m)), off + HeadLen(m) + |Print(m.val)|)
    ensures ToksEndBy([KeyTok(m, off)] + Toks(m.val, off + HeadLen(m)), off + |PrintMember(m)|)
  {
    MemberSplit(m, "");
    hide Toks, Print, PrintMember;
    WithinAppend([KeyTok(m, off)], Toks(m.val, off + HeadLen(m)), off + HeadLen(m), off + |PrintMember(m)|);
  }

  lemma {:induction false} MembersWithin(ms: seq<Member>, off: nat)
    ensures ToksEndBy(MemberToks(ms, off), off + |PrintMembers(ms)|)
    decreases ms, 0
  {
    hide *;
    NothingWithin();
    if ms != [] {
      var m, q := ms[0], off + |PrintMember(ms[0])| + 1;
      ValueWithin(m.val, off + HeadLen(m));
      MembersWithin(ms[1..], q);
      OneWithin(m, off);
      MembersSplit(ms, off);
      WithinAppend([KeyTok(m, off)] + Toks(m.val, off + HeadLen(m)), MemberToks(ms[1..], q), off + |PrintMember(m)|,
        off + |PrintMembers(ms)|);
    }
  }

  lemma NothingWithin()
    ensures forall n :: ToksEndBy([], n)
    ensures forall off :: MemberToks([], off) == []
    ensures PrintMembers([]) == ""
  {
  }

  lemma MembersSplit(ms: seq<Member>, off: nat)
    requires ms != []
    ensures MemberToks(ms, off)
            == [KeyTok(ms[0], off)] + Toks(ms[0].val, off + HeadLen(ms[0])) +
            MemberToks(ms[1..], off + |PrintMember(ms[0])| + 1)
    ensures |ms| == 1 ==>
              PrintMembers(ms) == PrintMember(ms[0])
              && MemberToks(ms[1..], off + |PrintMember(ms[0])| + 1) == []
    ensures |ms| > 1 ==> |PrintMembers(ms)| == |PrintMember(ms[0])| + 1 + |PrintMembers(ms[1..])|
  {
    assert |ms| == 1 ==> ms[1..] == [];
    hide Toks, PrintMember;
  }

  // Tokens that end in a part that two texts share are the same in both.
  lemma SharedAlike(p: string, r: string, q: string, xs: seq<Raw>)
    requires EndBy(xs, |p|)
    ensures Alike(p + r, xs, p + q, xs)
  {
    forall i | 0 <= i < |xs| ensures SameTok(p + r, xs[i], p + q, xs[i]) {
      if !xs[i].IsBox() {
        assert (p + r)[xs[i].start..xs[i].end] == p[xs[i].start..xs[i].end] == (p + q)[xs[i].start..xs[i].end];
      }
    }
  }

  // ----- Members in front -------------------------------------------------------------------------

  lemma {:induction false} AfterLead(b: seq<Raw>, at: nat, n: nat, x: seq<Raw>, ms: seq<Member>, r: string, off: nat)
    requires AllClosed(x) && forall m | m in ms :: WfMember(m)
    ensures Goes(Filled(b, TObj, at, n, x), Lead(ms) + r, off,
                 Filled(b, TObj, at, n + |ms|, x + Raws(MemberToks(ms, off))), r, off + |Lead(ms)|)
    decreases ms
  {
    hide *;
    if ms == [] {
      LeadOfNone(b, at, n, x, r, off);
    } else {
      assert ms[0] in ms;
      assert forall m | m in ms[1..] :: m in ms;
      var rest := Lead(ms[1..]) + r;
      ClosedOne(x, ms[0], off);
      AfterFirstMember(b, at, n, x, ms[0], rest, off);
      AfterLead(b, at, n + 1, x + OneToks(ms[0], off), ms[1..], r, off + |PrintMember(ms[0])| + 1);
      LeadThen(b, at, n, x, ms, r, off);
    }
  }

  lemma LeadOfNone(b: seq<Raw>, at: nat, n: nat, x: seq<Raw>, r: string, off: nat)
    ensures Goes(Filled(b, TObj, at, n, x), Lead([]) + r, off, Filled(b, TObj, at, n, x + Raws(MemberToks([], off))),
            r, off + |Lead([])|)
  {
    assert Lead([]) == "" && MemberToks([], off) == [] && Raws([]) == [];
    assert "" + r == r && x + [] == x;
    hide ReadOn;
  }

  lemma LeadCons(ms: seq<Member>, r: string)
    requires ms != []
    ensures Lead(ms) + r == PrintMember(ms[0]) + ("," + (Lead(ms[1..]) + r))
            && |Lead(ms)| == |PrintMember(ms[0])| + 1 + |Lead(ms[1..])|
  {
    JoinComma3(PrintMember(ms[0]), Lead(ms[1..]), r);
    LeadOfCons(ms);
    hide *;
  }

  lemma LeadOfCons(ms: seq<Member>)
    requires ms != []
    ensures Lead(ms) == PrintMember(ms[0]) + "," + Lead(ms[1..])
  {
    hide PrintMember;
  }

  lemma LeadThen(b: seq<Raw>, at: nat, n: nat, x: seq<Raw>, ms: seq<Member>, r: string, off: nat)
    requires ms != [] && AllClosed(x)
    requires var y, q, rest := OneToks(ms[0], off), off + |PrintMember(ms[0])| + 1, Lead(ms[1..]) + r;
             && Goes(Filled(b, TObj, at, n, x), PrintMember(ms[0]) + ("," + rest), off,
                     Joined(Filled(b, TObj, at, n, x), ms[0], off), "," + rest, q - 1)
             && Goes(Filled(b, TObj, at, n + 1, x + y), rest, q,
                     Filled(b, TObj, at, n + 1 + |ms[1..]|, x + y + Raws(MemberToks(ms[1..], q))), r,
                       q + |Lead(ms[1..])|)
    ensures Goes(Filled(b, TObj, at, n, x), Lead(ms) + r, off,
                 Filled(b, TObj, at, n + |ms|, x + Raws(MemberToks(ms, off))), r, off + |Lead(ms)|)
  {
    hide *;
    var y, q, rest := OneToks(ms[0], off), off + |PrintMember(ms[0])| + 1, Lead(ms[1..]) + r;
    var st, u, t := Filled(b, TObj, at, n, x), Joined(Filled(b, TObj, at, n, x), ms[0], off),
        Filled(b, TObj, at, n + 1, x + y);
    var all := PrintMember(ms[0]) + ("," + rest);
    JoinedToHeld(b, TObj, at, n, x, ms[0], off);
    MemberToksCons(ms, off);
    LeadCons(ms, r);
    AssocRaws(x, y, Raws(MemberToks(ms[1..], q)));
    AfterCommaLoose(u, b, TObj, at, n + 1, x + y, rest, q - 1);
    Then(st, all, off, u, "," + rest, q - 1, t, rest, q);
    Then(st, all, off, t, rest, q,
         Filled(b, TObj, at, n + 1 + |ms[1..]|, x + y + Raws(MemberToks(ms[1..], q))), r, q + |Lead(ms[1..])|);
  }

  // ----- Up to a value, and up to a member --------------------------------------------------------

  const Start := St([], -1)

  // In front of the value of member j.
  function ValueState(d: Doc, j: nat): St
    requires d.root.Obj? && j < |d.root.members|
  {
    var os, p := d.root.members, |d.pre| + 1;
    var held := Held([], TObj, |d.pre|, j + 1, Raws(MemberToks(os[..j], p)));
    var k := p + |Lead(os[..j])| + |os[j].pre| + 1;
    St(held + [Raw(TStr, k, k + |os[j].key|, 0)], |held|)
  }

  lemma AfterRoot(d: Doc, r: string)
    requires WfDoc(d) && d.root.Obj?
    ensures Goes(Start, d.pre + ("{" + r), 0, Filled([], TObj, |d.pre|, 0, []), r, |d.pre| + 1)
  {
    hide ReadOn, Wf, Goes;
    AfterWs(Start, d.pre, "{" + r, 0);
    AfterOpen(Start, '{', r, |d.pre|);
    OpensEmpty(Start, TObj, |d.pre|);
    Then(Start, d.pre + ("{" + r), 0, Start, "{" + r, |d.pre|, Filled([], TObj, |d.pre|, 0, []), r, |d.pre| + 1);
  }

  lemma BeforeText(d: Doc, j: nat, y: string)
    requires d.root.Obj? && j < |d.root.members|
    ensures var os, m := d.root.members, d.root.members[j];
            && BeforeValue(d, j) + y == d.pre +
               ("{" + (Lead(os[..j]) + (m.pre + ("\"" + m.key + "\"" + (m.colon + (":" + (m.mid + y)))))))
            && |BeforeValue(d, j)| == |d.pre| + 1 + |Lead(os[..j])| + HeadLen(m)
  {
    var m := d.root.members[j];
    hide Lead;
    var l := Lead(d.root.members[..j]);
    var h := m.pre + ("\"" + m.key + "\"" + m.colon + ":" + m.mid);
    assert HeadOf(m) == h;
    assert h + y == m.pre + ("\"" + m.key + "\"" + (m.colon + (":" + (m.mid + y))));
    assert d.pre + "{" + l + h + y == d.pre + ("{" + (l + (h + y)));
  }

  // The key's own token, and the colon.
  lemma KeyState(x: seq<Raw>, pre: nat, j: nat, m: Member, off: nat)
    requires AllClosed(x)
    ensures var st := Filled([], TObj, pre, j, x);
            var key := Leaf(st, TStr, off + |m.pre| + 1, off + |m.pre| + 1 + |m.key|);
            var held := Held([], TObj, pre, j + 1, x);
            key.(super := |key.toks| - 1)
              == St(held + [Raw(TStr, off + |m.pre| + 1, off + |m.pre| + 1 + |m.key|, 0)], |held|)
  {
    assert Bump(Held([], TObj, pre, j, x), 0) == Held([], TObj, pre, j + 1, x);
  }

  lemma FrontOf(d: Doc, j: nat)
    requires WfDoc(d) && d.root.Obj? && j < |d.root.members|
    ensures WfMember(d.root.members[j]) && forall k | k in d.root.members[..j] :: WfMember(k)
  {
    WfMembersOf(d.root);
    assert d.root.members[j] in d.root.members && forall k | k in d.root.members[..j] :: k in d.root.members;
    hide WfMember, Wf;
  }

  lemma ValueStateIs(d: Doc, j: nat)
    requires d.root.Obj? && j < |d.root.members|
    ensures var os, m, p := d.root.members, d.root.members[j], |d.pre| + 1;
            var x, q := Raws(MemberToks(os[..j], p)), p + |Lead(os[..j])|;
            && ValueState(d, j) == St(Held([], TObj, |d.pre|, j + 1, x) +
               [Raw(TStr, q + |m.pre| + 1, q + |m.pre| + 1 + |m.key|, 0)],
                                      |Held([], TObj, |d.pre|, j + 1, x)|)
            && AllClosed(x) && AllClosed([]) && [] + x == x && |os[..j]| == j
  {
    hide Lead, MemberToks;
  }

  lemma AfterBefore(d: Doc, j: nat, y: string)
    requires WfDoc(d) && d.root.Obj? && j < |d.root.members|
    ensures Goes(Start, BeforeValue(d, j) + y, 0, ValueState(d, j), y, |BeforeValue(d, j)|)
  {
    hide *;
    var m, ms, p := d.root.members[j], d.root.members[..j], |d.pre| + 1;
    var x, q := Raws(MemberToks(ms, p)), p + |Lead(ms)|;
    FrontOf(d, j);
    ValueStateIs(d, j);
    var s2 := m.pre + ("\"" + m.key + "\"" + (m.colon + (":" + (m.mid + y))));
    var s1 := Lead(ms) + s2;
    BeforeText(d, j, y);
    AfterRoot(d, s1);
    AfterLead([], |d.pre|, 0, [], ms, s2, p);
    AfterKey(Filled([], TObj, |d.pre|, j, x), m, y, q);
    KeyState(x, |d.pre|, j, m, q);
    Then(Start, d.pre + ("{" + s1), 0, Filled([], TObj, |d.pre|, 0, []), s1, p, Filled([], TObj, |d.pre|, j, x), s2, q);
    Then(Start, d.pre + ("{" + s1), 0, Filled([], TObj, |d.pre|, j, x), s2, q, ValueState(d, j), y, q + HeadLen(m));
  }

  // The tokens in front of the object's own.
  function Outer(d: Doc, at: Place): seq<Raw>
    requires Holds(d, at)
  {
    if at.Root? then [] else Bump(ValueState(d, at.j).toks, ValueState(d, at.j).super)
  }

  // In front of member i.
  function ObjState(d: Doc, at: Place, i: nat): St
    requires Holds(d, at) && i <= |ObjAt(d, at).members|
  {
    Filled(Outer(d, at), TObj, |LeftOf(d, at)|, i, Raws(MemberToks(ObjAt(d, at).members[..i], |LeftOf(d, at)| + 1)))
  }

  lemma AfterBrace(d: Doc, at: Place, r: string)
    requires WfDoc(d) && Holds(d, at)
    ensures Goes(Start, LeftOf(d, at) + ("{" + r), 0, Filled(Outer(d, at), TObj, |LeftOf(d, at)|, 0, []), r,
            |LeftOf(d, at)| + 1)
  {
    if at.Root? {
      AfterRoot(d, r);
    } else {
      hide ReadOn, Goes, WfDoc, ValueState, BeforeValue;
      var st, n := ValueState(d, at.j), |BeforeValue(d, at.j)|;
      AfterBefore(d, at.j, "{" + r);
      AfterOpen(st, '{', r, n);
      OpensEmpty(st, TObj, n);
      Then(Start, BeforeValue(d, at.j) + ("{" + r), 0, st, "{" + r, n,
        Filled(Bump(st.toks, st.super), TObj, n, 0, []), r, n + 1);
    }
  }

  lemma MembersInFront(d: Doc, at: Place, i: nat)
    requires WfDoc(d) && Holds(d, at) && i <= |ObjAt(d, at).members|
    ensures forall m | m in ObjAt(d, at).members[..i] :: WfMember(m)
  {
    ObjectIsWf(d, at);
    hide WfMember, Wf, ObjAt, WfDoc, Holds;
  }

  lemma NoRaws(x: seq<Raw>)
    ensures [] + x == x && AllClosed([])
  {
  }

  lemma JoinLead(left: string, l: string, r: string)
    ensures left + "{" + l + r == left + ("{" + (l + r)) && |left + "{" + l| == |left| + 1 + |l|
  {
  }

  // From the brace on, members in front of what follows.
  lemma LeadIn(left: string, b: seq<Raw>, ms: seq<Member>, r: string)
    requires Goes(Start, left + ("{" + (Lead(ms) + r)), 0, Filled(b, TObj, |left|, 0, []), Lead(ms) + r, |left| + 1)
    requires forall m | m in ms :: WfMember(m)
    ensures Goes(Start, left + "{" + Lead(ms) + r, 0,
                 Filled(b, TObj, |left|, |ms|, Raws(MemberToks(ms, |left| + 1))), r, |left + "{" + Lead(ms)|)
  {
    hide *;
    var x, l := Raws(MemberToks(ms, |left| + 1)), Lead(ms);
    NoRaws(x);
    JoinLead(left, l, r);
    AfterLead(b, |left|, 0, [], ms, r, |left| + 1);
    Then(Start, left + ("{" + (l + r)), 0, Filled(b, TObj, |left|, 0, []), l + r, |left| + 1,
         Filled(b, TObj, |left|, |ms|, x), r, |left| + 1 + |l|);
  }

  lemma ObjStateFilled(d: Doc, at: Place, i: nat)
    requires Holds(d, at) && i < |ObjAt(d, at).members|
    ensures var ms, left := ObjAt(d, at).members[..i], LeftOf(d, at);
            && |ms| == i && Opening(left, ObjAt(d, at).members, i) == left + "{" + Lead(ms)
            && ObjState(d, at, i) == Filled(Outer(d, at), TObj, |left|, |ms|, Raws(MemberToks(ms, |left| + 1)))
  {
    hide LeftOf, Outer, Lead, MemberToks, Filled, Holds;
  }

  lemma AfterOpening(d: Doc, at: Place, i: nat, r: string)
    requires WfDoc(d) && Holds(d, at) && i < |ObjAt(d, at).members|
    ensures Goes(Start, Opening(LeftOf(d, at), ObjAt(d, at).members, i) + r, 0, ObjState(d, at, i), r,
                 |Opening(LeftOf(d, at), ObjAt(d, at).members, i)|)
  {
    hide *;
    var ms, left := ObjAt(d, at).members[..i], LeftOf(d, at);
    MembersInFront(d, at, i);
    AfterBrace(d, at, Lead(ms) + r);
    ObjStateFilled(d, at, i);
    LeadIn(left, Outer(d, at), ms, r);
  }
}
