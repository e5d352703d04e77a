/** The tokens of jsmn_parse come in the order of the text: which of them are in front of a place. */
module JsmnOrder {
  import opened Wrappers
  import opened JsonText
  import opened CfgWalk
  import opened Jsmn
  import opened JsmnTree
  import opened JsmnRead
  import opened JsmnDoc

  // ----- Tokens of a document ---------------------------------------------------------------------

  // They all start in front of n.
  predicate StartBy(xs: seq<Raw>, n: nat) {
    forall i | 0 <= i < |xs| :: xs[i].start < n
  }

  lemma StartAppend(a: seq<Raw>, b: seq<Raw>, m: nat, n: nat)
    requires StartBy(a, m) && StartBy(b, n) && m <= n
    ensures StartBy(a + b, n)
  {
  }

  lemma StartLater(a: seq<Raw>, m: nat, n: nat)
    requires StartBy(a, m) && m <= n
    ensures StartBy(a, n)
  {
  }

  lemma {:induction false} ValueStartsBy(v: Value, off: nat)
    requires Wf(v)
    ensures StartBy(Raws(Toks(v, off)), off + |Print(v)|)
    decreases v, 1
  {
    match v
    case Prim(_) =>
    case Str(_) =>
    case Arr(items, _) =>
      WfItems(v);
      ItemsStartBy(items, off + 1);
      BoxStarts(TArr, off, off + |Print(v)|, |items|, ItemToks(items, off + 1), off + 1 + |PrintItems(items)|);
    case Obj(members, _) =>
      WfMembersOf(v);
      MembersStartBy(members, off + 1);
      BoxStarts(TObj, off, off + |Print(v)|, |members|, MemberToks(members, off + 1),
        off + 1 + |PrintMembers(members)|);
  }

  lemma BoxStarts(kind: Kind, off: nat, end: nat, n: nat, ts: seq<Tok>, m: nat)
    requires StartBy(Raws(ts), m) && m <= end && off < end
    ensures StartBy(Raws([Tok(kind, off, end, n)] + ts), end)
  {
    RawsAppend([Tok(kind, off, end, n)], ts);
    assert Raws([Tok(kind, off, end, n)]) == [Raw(kind, off, end, n)];
    StartLater(Raws(ts), m, end);
    hide Raws;
  }

  lemma RestIsItems(es: seq<Item>)
    requires es != [] && forall e | e in es :: WfItem(e)
    ensures Wf(es[0].val) && forall e | e in es[1..] :: WfItem(e)
  {
    ItemText(es[0], "");
    hide Wf;
  }

  lemma NoItemStarts(off: nat, n: nat)
    ensures StartBy(Raws(ItemToks([], off)), n)
  {
  }

  lemma {:induction false} ItemsStartBy(es: seq<Item>, off: nat)
    requires forall e | e in es :: WfItem(e)
    ensures StartBy(Raws(ItemToks(es, off)), off + |PrintItems(es)|)
    decreases es, 0
  {
    hide *;
    if es == [] {
      NoItemStarts(off, off + |PrintItems(es)|);
    } else {
      var v, p, q := es[0].val, off + |es[0].pre|, off + |PrintItem(es[0])| + 1;
      RestIsItems(es);
      ItemsSplit(es, off);
      ItemText(es[0], "");
      ValueStartsBy(v, p);
      RawsAppend(Toks(v, p), ItemToks(es[1..], q));
      StartLater(Raws(Toks(v, p)), p + |Print(v)|, q - 1);
      if |es| > 1 {
        ItemsStartBy(es[1..], q);
        StartAppend(Raws(Toks(v, p)), Raws(ItemToks(es[1..], q)), q - 1, off + |PrintItems(es)|);
      } else {
        NoRawsLeft();
      }
    }
  }

  lemma NoRawsLeft()
    ensures Raws([]) == [] && forall xs: seq<Raw> :: xs + [] == xs
  {
  }

  lemma OneStarts(m: Member, off: nat)
    requires WfMember(m) && StartBy(Raws(Toks(m.val, off + HeadLen(m))), off + HeadLen(m) + |Print(m.val)|)
    ensures StartBy(OneToks(m, off), off + |PrintMember(m)|)
  {
    MemberSplit(m, "");
    hide Toks, Raws, Print, PrintMember, Wf;
  }

  lemma RestIsMembers(ms: seq<Member>)
    requires ms != [] && forall m | m in ms :: WfMember(m)
    ensures WfMember(ms[0]) && Wf(ms[0].val) && forall m | m in ms[1..] :: WfMember(m)
  {
    MemberParts(ms[0]);
    hide Wf;
  }

  lemma NothingStarts(off: nat, n: nat)
    ensures StartBy(Raws(MemberToks([], off)), n)
  {
  }

  lemma {:induction false} MembersStartBy(ms: seq<Member>, off: nat)
    requires forall m | m in ms :: WfMember(m)
    ensures StartBy(Raws(MemberToks(ms, off)), off + |PrintMembers(ms)|)
    decreases ms, 0
  {
    hide *;
    if ms == [] {
      NothingStarts(off, off + |PrintMembers(ms)|);
    } else {
      var q := off + |PrintMember(ms[0])| + 1;
      RestIsMembers(ms);
      MembersSplit(ms, off);
      MemberToksCons(ms, off);
      ValueStartsBy(ms[0].val, off + HeadLen(ms[0]));
      OneStarts(ms[0], off);
      if |ms| > 1 {
        MembersStartBy(ms[1..], q);
        StartAppend(OneToks(ms[0], off), Raws(MemberToks(ms[1..], q)), off + |PrintMember(ms[0])|,
          off + |PrintMembers(ms)|);
      } else {
        NoRawsLeft();
      }
    }
  }

  // ----- Tokens read later ------------------------------------------------------------------------

  lemma TookLater(st: St, s: string, off: nat)
    requires s != []
    ensures Took(st, s, off).Some? ==>
            var ts := Took(st, s, off).value.0.toks; forall i | |st.toks| <= i < |ts| :: ts[i].start >= off
  {
    hide BareLen, TextLen, IsDigit;
  }

  lemma {:induction false} AfterLater(st: St, s: string, off: nat)
    ensures ReadOn(st, s, off).Some? ==>
            var ts := ReadOn(st, s, off).value;
            |ts| >= |st.toks|
            && forall i | |st.toks| <= i < |ts| :: ts[i].start >= off
    decreases |s|
  {
    hide Took;
    if s != [] && Took(st, s, off).Some? {
      var (t, n) := Took(st, s, off).value;
      TookKeeps(st, s, off);
      TookLater(st, s, off);
      AfterLater(t, s[n..], off + n);
      AfterGrows(t, s[n..], off + n);
    }
  }

  // The first n tokens start in front of the place, the others do not.
  predicate Splits(xs: seq<Raw>, pos: nat, n: nat) {
    && n <= |xs| && StartBy(xs[..n], pos) && forall i | n <= i < |xs| :: xs[i].start >= pos
  }

  // From the state in which the place is reached, or passed.
  lemma SplitsAt(u: string, st: St, s: string, off: nat, pos: nat)
    requires Tokenized(u) == ReadOn(st, s, off) && Tokenized(u).Some? && StartBy(st.toks, pos) && pos <= off
    ensures Splits(Tokenized(u).value, pos, |st.toks|)
  {
    AfterGrows(st, s, off);
    AfterLater(st, s, off);
    hide ReadOn;
    var xs, n := Tokenized(u).value, |st.toks|;
    assert forall i | 0 <= i < n :: xs[..n][i] == xs[i];
  }
}
