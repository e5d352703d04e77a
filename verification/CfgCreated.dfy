/** What jsmn_parse makes of the texts in which _cfg_ins of cfg/cfg.cpp has put a new parameter, wherever
    that is, and whether a lookup ends at the new member. */
module CfgCreated {
  import opened Wrappers
  import opened JsonText
  import opened CfgText
  import opened CfgSet
  import opened CfgDoc
  import opened CfgSpots
  import opened CfgExact
  import opened CfgCreate
  import opened CfgWalk
  import opened CfgLookup
  import opened CfgFind
  import opened CfgPlaces
  import opened CfgStray
  import opened Jsmn
  import opened JsmnTree
  import opened JsmnRead
  import opened JsmnDoc
  import opened CfgReads
  import opened CfgReadsIff

  // ----- Behind the document ----------------------------------------------------------------------

  lemma RootAlone(d: Doc)
    requires d.root.Obj?
    ensures var st := Added(Start, d.root, |d.pre|);
            st.toks == Raws(Toks(d.root, |d.pre|)) && st.super == -1 && AllClosed(st.toks)
  {
    RawsAreClosed(Toks(d.root, |d.pre|));
    assert [] + Raws(Toks(d.root, |d.pre|)) == Raws(Toks(d.root, |d.pre|));
    hide Toks;
  }

  lemma AfterRootAnd(d: Doc, w: string, r: string)
    requires WfDoc(d) && d.root.Obj? && AllWs(w)
    ensures Goes(Start, d.pre + Print(d.root) + w + r, 0, Added(Start, d.root, |d.pre|), r, |d.pre + Print(d.root) + w|)
  {
    assert AllWs(d.pre) && Wf(d.root);
    BoxOfObj(d);
    hide *;
    var st, n := Added(Start, d.root, |d.pre|), |d.pre| + |Print(d.root)|;
    Assoc4(d.pre, Print(d.root), w, r);
    AfterWs(Start, d.pre, Print(d.root) + (w + r), 0);
    AfterBox(Start, d.root, w + r, |d.pre|);
    AfterWs(st, w, r, n);
    Then(Start, d.pre + (Print(d.root) + (w + r)), 0, Start, Print(d.root) + (w + r), |d.pre|, st, w + r, n);
    Then(Start, d.pre + (Print(d.root) + (w + r)), 0, st, w + r, n, st, r, n + |w|);
  }

  lemma JoinedClosed(st: St, m: Member, off: nat)
    requires AllClosed(st.toks) && st.super == -1
    ensures var t := Joined(st, m, off);
            t.toks == st.toks + OneToks(m, off) && AllClosed(t.toks) && LastOpen(t.toks) < 0 && Comma(t) == t
  {
    RawsAreClosed(Toks(m.val, off + HeadLen(m)));
    var x := OneToks(m, off);
    assert st.toks + [ToRaw(KeyTok(m, off))] + Raws(Toks(m.val, off + HeadLen(m))) == st.toks + x;
    LastOpenIs(st.toks + x, -1);
    hide Toks, HeadLen;
  }

  // The new member's tokens follow those of the document.
  lemma StrayTokens(d: Doc, m: Member)
    requires WfDoc(d) && d.root.Obj? && d.post != "" && WfMember(m)
    ensures 1 <= |PrintDoc(d)| - 1 < |PrintDoc(d)|
    ensures Tokenized(InsText(PrintDoc(d), |PrintDoc(d)| - 1, PrintMember(m)))
         == Some(Raws(Toks(d.root, |d.pre|)) + OneToks(m, |PrintDoc(d)| - 1))
  {
    var n, x := |d.post| - 1, d.pre + Print(d.root);
    FirstOfValue(d.root, "");
    assert IsWs(d.post[n]) && AllWs(d.post[..n]) && AllWs([d.post[n]]) && x != [];
    assert PrintDoc(d) == x + d.post && |x + d.post[..n]| == |PrintDoc(d)| - 1;
    hide *;
    TextAfterEnd(x, d.post, PrintMember(m));
    StrayRead(d, m, d.post[..n], [d.post[n]]);
  }

  lemma StrayRead(d: Doc, m: Member, w: string, last: string)
    requires WfDoc(d) && d.root.Obj? && WfMember(m) && AllWs(w) && AllWs(last)
    ensures var p := d.pre + Print(d.root) + w;
            Tokenized(p + (PrintMember(m) + ("," + last))) == Some(Raws(Toks(d.root, |d.pre|)) + OneToks(m, |p|))
  {
    hide *;
    var st, p := Added(Start, d.root, |d.pre|), d.pre + Print(d.root) + w;
    var t, n, s := Joined(Added(Start, d.root, |d.pre|), m, |p|), |p| + |PrintMember(m)|,
        p + (PrintMember(m) + ("," + last));
    RootAlone(d);
    JoinedClosed(st, m, |p|);
    AfterRootAnd(d, w, PrintMember(m) + ("," + last));
    CommaStops(last);
    AfterMember(st, m, "," + last, |p|);
    AfterComma(t, last, n);
    AfterWs(t, last, "", n + 1);
    NoEnd(last);
    Then(Start, s, 0, st, PrintMember(m) + ("," + last), |p|, t, "," + last, n);
    Then(Start, s, 0, t, "," + last, n, t, last, n + 1);
    Then(Start, s, 0, t, last, n + 1, t, "", n + 1 + |last|);
    EndsAt(Start, s, 0, t, n + 1 + |last|);
    StartIs(s);
  }

  lemma NoEnd(last: string)
    ensures last + "" == last
  {
  }

  lemma StartIs(s: string)
    ensures Tokenized(s) == ReadOn(Start, s, 0)
  {
    hide ReadOn;
  }

  // A new last member reads as one of the document if and only if the text ends with the brace.
  lemma CreatingReadsIff(d: Doc, key: string, v: Value)
    requires WfDoc(d) && d.root.Obj? && StrOk(key) && Wf(v)
    ensures 1 <= |PrintDoc(d)| - 1 < |PrintDoc(d)|
    ensures ReadsAs(InsText(PrintDoc(d), |PrintDoc(d)| - 1, PrintMember(Plain(key, v))),
            Inserted(d, Root, |d.root.members|, Plain(key, v)))
            <==> d.post == ""
  {
    PlainIsWf(key, v);
    hide WfDoc, PrintDoc, PrintMember, WfMember, Tokenized, InsText, ReadsAs, Inserted, StrOk, Wf;
    if d.post == "" {
      CreatingReadsLast(d, Plain(key, v));
    } else {
      StrayTokens(d, Plain(key, v));
      StrayIsNot(d, Plain(key, v), InsText(PrintDoc(d), |PrintDoc(d)| - 1, PrintMember(Plain(key, v))));
    }
  }

  lemma SizeOfRoot(v: Value, off: nat)
    requires v.Obj?
    ensures Raws(Toks(v, off))[0].size == |v.members|
  {
    hide MemberToks, Print;
  }

  lemma StrayIsNot(d: Doc, m: Member, u: string)
    requires d.root.Obj? && Tokenized(u) == Some(Raws(Toks(d.root, |d.pre|)) + OneToks(m, |PrintDoc(d)| - 1))
             && |PrintDoc(d)| >= 1
    ensures !ReadsAs(u, Inserted(d, Root, |d.root.members|, m))
  {
    var ms, e := d.root.members, Inserted(d, Root, |d.root.members|, m);
    SizeOfRoot(d.root, |d.pre|);
    SizeOfRoot(e.root, |e.pre|);
    assert |With(ms, |ms|, m)| == |ms| + 1;
    var xs := Raws(Toks(d.root, |d.pre|)) + OneToks(m, |PrintDoc(d)| - 1);
    assert xs[0] == Raws(Toks(d.root, |d.pre|))[0];
    AlikeSizes(u, xs, PrintDoc(e), Raws(Toks(e.root, |e.pre|)));
    hide Toks, OneToks, PrintDoc, Alike, Tokenized;
  }

  lemma AlikeSizes(u: string, xs: seq<Raw>, t: string, ys: seq<Raw>)
    requires xs != [] && ys != [] && xs[0].size != ys[0].size
    ensures !Alike(u, xs, t, ys)
  {
    hide RawText;
    assert !SameTok(u, xs[0], t, ys[0]);
  }

  // ----- In front of the elements of an array -----------------------------------------------------

  // What follows the value of member j.
  function RestOf(d: Doc, j: nat): string
    requires d.root.Obj? && j < |d.root.members|
  {
    d.root.members[j].post + MoreOf(d.root.members, j) + "}" + d.post
  }

  // Reading it, with the tokens x in the object so far.
  lemma AfterMore(d: Doc, j: nat, x: seq<Raw>, off: nat) returns (t: St)
    requires WfDoc(d) && d.root.Obj? && j < |d.root.members| && AllClosed(x)
    ensures Goes(Filled([], TObj, |d.pre|, j + 1, x), RestOf(d, j), off, t, "", off + |RestOf(d, j)|)
            && RootShut(d, x, t)
  {
    hide *;
    var post, st := d.root.members[j].post, Filled([], TObj, |d.pre|, j + 1, x);
    var q := off + |post|;
    BlankParts(d, j);
    RestText(d, j);
    AfterWs(st, post, MoreText(d, j), off);
    var s, n := AfterMoreOf(d, j, x, q);
    Then(st, post + MoreText(d, j), off, st, MoreText(d, j), q, s, d.post, n);
    AfterWs(s, d.post, "", n);
    NoEnd(d.post);
    Then(st, post + MoreText(d, j), off, s, d.post, n, s, "", n + |d.post|);
    t := s;
  }

  lemma BlankParts(d: Doc, j: nat)
    requires WfDoc(d) && d.root.Obj? && j < |d.root.members|
    ensures AllWs(d.root.members[j].post) && AllWs(d.post)
  {
    FrontOf(d, j);
    MemberParts(d.root.members[j]);
    hide WfMember, Wf;
  }

  lemma RestText(d: Doc, j: nat)
    requires d.root.Obj? && j < |d.root.members|
    ensures RestOf(d, j) == d.root.members[j].post + MoreText(d, j)
    ensures |RestOf(d, j)| == |d.root.members[j].post| + |MoreText(d, j)|
  {
    hide PrintMembers;
  }

  // What follows the last member, and what follows another one.
  lemma AfterMoreOf(d: Doc, j: nat, x: seq<Raw>, off: nat) returns (t: St, n: nat)
    requires WfDoc(d) && d.root.Obj? && j < |d.root.members| && AllClosed(x)
    ensures n == off + |MoreText(d, j)| - |d.post|
            && Goes(Filled([], TObj, |d.pre|, j + 1, x), MoreText(d, j), off, t, d.post, n)
    ensures RootShut(d, x, t)
  {
    if j + 1 == |d.root.members| {
      t, n := AfterNoMore(d, j, x, off);
    } else {
      t, n := AfterOthers(d, j, x, off);
    }
    hide *;
  }

  function MoreText(d: Doc, j: nat): string
    requires d.root.Obj? && j < |d.root.members|
  {
    var os := d.root.members;
    (if j + 1 == |os| then "" else "," + PrintMembers(os[j + 1..])) + ("}" + d.post)
  }

  // The object is closed, with all its values counted and the tokens x in front.
  predicate RootShut(d: Doc, x: seq<Raw>, t: St)
    requires d.root.Obj?
  {
    && LastOpen(t.toks) < 0 && |t.toks| >= 1 + |x| && t.toks[0].kind == TObj
    && t.toks[0].size == |d.root.members| && t.toks[1..1 + |x|] == x
  }

  lemma AfterNoMore(d: Doc, j: nat, x: seq<Raw>, off: nat) returns (t: St, n: nat)
    requires d.root.Obj? && j + 1 == |d.root.members| && AllClosed(x)
    ensures n == off + |MoreText(d, j)| - |d.post|
            && Goes(Filled([], TObj, |d.pre|, j + 1, x), MoreText(d, j), off, t, d.post, n)
    ensures RootShut(d, x, t)
  {
    n := off + 1;
    t := Shut([], TObj, |d.pre|, j + 1, x, n);
    ShutFacts(|d.pre|, j + 1, x, [], n);
    EmptyFront("}" + d.post);
    assert x + [] == x;
    assert MoreText(d, j) == "}" + d.post;
    assert RootShut(d, x, t);
    hide *;
    AfterShutHeld([], TObj, |d.pre|, j + 1, x, d.post, off);
  }

  lemma AfterOthers(d: Doc, j: nat, x: seq<Raw>, off: nat) returns (t: St, n: nat)
    requires WfDoc(d) && d.root.Obj? && j + 1 < |d.root.members| && AllClosed(x)
    ensures n == off + |MoreText(d, j)| - |d.post|
            && Goes(Filled([], TObj, |d.pre|, j + 1, x), MoreText(d, j), off, t, d.post, n)
    ensures RootShut(d, x, t)
  {
    hide *;
    var ms := d.root.members[j + 1..];
    n := off + 1 + |PrintMembers(ms)| + 1;
    t := Shut([], TObj, |d.pre|, j + 1 + |ms|, x + Raws(MemberToks(ms, off + 1)), n);
    MoreAreWf(d, j);
    OthersText(d, j);
    OthersShut(d, j, x, off + 1, n);
    AfterCommaHeld([], TObj, |d.pre|, j + 1, x, PrintMembers(ms) + ("}" + d.post), off);
    AfterMoreMembers([], |d.pre|, j + 1, x, ms, d.post, off + 1);
    Then(Filled([], TObj, |d.pre|, j + 1, x), "," + (PrintMembers(ms) + ("}" + d.post)), off,
         Filled([], TObj, |d.pre|, j + 1, x), PrintMembers(ms) + ("}" + d.post), off + 1, t, d.post, n);
  }

  lemma OthersText(d: Doc, j: nat)
    requires d.root.Obj? && j + 1 < |d.root.members|
    ensures var ms := d.root.members[j + 1..];
            MoreText(d, j) == "," + (PrintMembers(ms) + ("}" + d.post))
              && |MoreText(d, j)| == 2 + |PrintMembers(ms)| + |d.post|
  {
    Assoc(",", PrintMembers(d.root.members[j + 1..]), "}" + d.post);
    hide PrintMembers;
  }

  lemma OthersShut(d: Doc, j: nat, x: seq<Raw>, off: nat, n: nat)
    requires d.root.Obj? && j + 1 < |d.root.members| && AllClosed(x)
    ensures var ms := d.root.members[j + 1..];
            RootShut(d, x, Shut([], TObj, |d.pre|, j + 1 + |ms|, x + Raws(MemberToks(ms, off)), n))
  {
    var ms := d.root.members[j + 1..];
    RawsAreClosed(MemberToks(ms, off));
    ShutFacts(|d.pre|, j + 1 + |ms|, x, Raws(MemberToks(ms, off)), n);
    hide MemberToks, Shut, LastOpen, Raws;
  }

  lemma MoreAreWf(d: Doc, j: nat)
    requires WfDoc(d) && d.root.Obj? && j < |d.root.members|
    ensures forall m | m in d.root.members[j + 1..] :: WfMember(m)
  {
    WfMembersOf(d.root);
    hide WfMember, Wf;
  }

  lemma ShutFacts(at: nat, n: nat, x: seq<Raw>, y: seq<Raw>, e: nat)
    requires AllClosed(x) && AllClosed(y)
    ensures var t := Shut([], TObj, at, n, x + y, e);
            LastOpen(t.toks) < 0 && |t.toks| >= 1 + |x| && t.toks[0] == Raw(TObj, at, e, n) && t.toks[1..1 + |x|] == x
  {
    var t := Shut([], TObj, at, n, x + y, e);
    assert t.toks == [Raw(TObj, at, e, n)] + (x + y);
    LastOpenIs(t.toks, -1);
    hide LastOpen;
  }

  // The array's elements behind the new member.
  lemma InnerIs(v: Value, off: nat)
    requires v.Arr?
    ensures InnerItems(v) == if v.items == [] then v.ws else PrintItems(v.items)
    ensures v.items == [] ==> ItemToks(v.items, off) == [] && Raws(ItemToks(v.items, off)) == []
    ensures forall x: seq<Raw> :: x + [] == x
  {
    hide PrintItems;
  }

  lemma AfterElements(b: seq<Raw>, at: nat, x: seq<Raw>, v: Value, r: string, off: nat)
    requires v.Arr? && Wf(v) && AllClosed(x)
    ensures var inner := InnerItems(v);
            Goes(Filled(b, TArr, at, 1, x), inner + ("]" + r), off,
                 Shut(b, TArr, at, 1 + |v.items|, x + Raws(ItemToks(v.items, off)), off + |inner| + 1), r,
                 off + |inner| + 1)
  {
    hide *;
    WfItems(v);
    InnerIs(v, off);
    if v.items == [] {
      AfterWs(Filled(b, TArr, at, 1, x), v.ws, "]" + r, off);
      AfterShutHeld(b, TArr, at, 1, x, r, off + |v.ws|);
      Then(Filled(b, TArr, at, 1, x), v.ws + ("]" + r), off, Filled(b, TArr, at, 1, x), "]" + r, off + |v.ws|,
           Shut(b, TArr, at, 1, x, off + |v.ws| + 1), r, off + |v.ws| + 1);
    } else {
      AfterMoreItems(b, at, 1, x, v.items, r, off);
    }
  }
}
