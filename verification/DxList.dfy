/** The stored labels in their array: CMD_DX_UPD of rx/rx_cmd.cpp and dx_prep_list of dx/dx.cpp. */
module DxList {
  // What an edit sets beside the frequency; begin and end are the times.
  datatype Body = Body(ident: string, notes: string, params: string, flags: nat, low: int, high: int,
                       offset: int, width: int, begin: int, end: int)
  datatype Entry = Entry(freq: real, body: Body)
  datatype Slot = Slot(entry: Entry, idx: int)

  const FORCED := 999999.0       // the frequency of an entry to be deleted
  const CHUNK := 256             // DX_LIST_ALLOC_CHUNK
  const HIDDEN := 1              // DX_HIDDEN_SLOT

  predicate Ordered(es: seq<Entry>) {
    forall i, j | 0 <= i < j < |es| :: es[i].freq <= es[j].freq
  }

  // ----- Sorting ----------------------------------------------------------------------------------

  // Stands for qsort with qsort_doublecomp: of its result only what Sorts says is used.
  ghost predicate Sorts(es: seq<Entry>, r: seq<Entry>) {
    |r| == |es| && Ordered(r) && multiset(r) == multiset(es)
  }

  function Put(e: Entry, es: seq<Entry>): (r: seq<Entry>)
    ensures |r| == |es| + 1
  {
    if es == [] || e.freq <= es[0].freq then [e] + es else [es[0]] + Put(e, es[1..])
  }

  function Sort(es: seq<Entry>): (r: seq<Entry>)
    ensures |r| == |es|
  {
    if es == [] then [] else Put(es[0], Sort(es[1..]))
  }

  lemma {:induction false} PutMultiset(e: Entry, es: seq<Entry>)
    ensures multiset(Put(e, es)) == multiset(es) + multiset{e}
  {
    if es != [] {
      PutMultiset(e, es[1..]);
      assert es == [es[0]] + es[1..];
    }
  }

  predicate AtLeast(es: seq<Entry>, f: real) {
    forall i | 0 <= i < |es| :: f <= es[i].freq
  }

  lemma {:induction false} PutAtLeast(e: Entry, es: seq<Entry>, f: real)
    requires f <= e.freq && AtLeast(es, f)
    ensures AtLeast(Put(e, es), f)
  {
    if es != [] {
      PutAtLeast(e, es[1..], f);
    }
  }

  lemma OrderedCons(e: Entry, es: seq<Entry>)
    requires Ordered(es) && AtLeast(es, e.freq)
    ensures Ordered([e] + es)
  {
  }

  lemma OrderedRest(es: seq<Entry>)
    requires es != [] && Ordered(es)
    ensures Ordered(es[1..]) && AtLeast(es, es[0].freq)
  {
  }

  lemma {:induction false} PutOrdered(e: Entry, es: seq<Entry>)
    requires Ordered(es)
    ensures Ordered(Put(e, es))
  {
    if es != [] {
      OrderedRest(es);
      PutOrdered(e, es[1..]);
      if e.freq > es[0].freq {
        PutAtLeast(e, es[1..], es[0].freq);
        OrderedCons(es[0], Put(e, es[1..]));
      } else {
        OrderedCons(e, es);
      }
      hide Ordered, AtLeast;
    }
  }

  lemma {:induction false} SortSorts(es: seq<Entry>)
    ensures Sorts(es, Sort(es))
  {
    if es != [] {
      SortSorts(es[1..]);
      PutOrdered(es[0], Sort(es[1..]));
      PutMultiset(es[0], Sort(es[1..]));
      assert es == [es[0]] + es[1..];
      hide Ordered;
    }
  }

  // ----- Edits as the original means them ---------------------------------------------------------

  // gid -1 adds, otherwise it names an entry; deleting is asked for with frequency -1.
  datatype Edit = Delete(gid: int, freq: real) | Set(gid: int, entry: Entry)

  predicate Accepted(es: seq<Entry>, e: Edit) {
    && -1 <= e.gid < |es|
    && (e.Delete? ==> e.gid != -1 && e.freq == -1.0)
  }

  // A modified entry without times is made one for the whole day.
  function Times(b: Body): Body {
    if b.begin == 0 && b.end == 0 then b.(end := 2400) else b
  }

  ghost function Edited(es: seq<Entry>, e: Edit): multiset<Entry>
    requires Accepted(es, e)
  {
    match e
    case Delete(gid, _) => multiset(es) - multiset{es[gid]}
    case Set(gid, x) =>
      if gid == -1 then multiset(es) + multiset{x}
      else multiset(es) - multiset{es[gid]} + multiset{x.(body := Times(x.body))}
  }

  // What the list is after an edit, part by part: an edit of a label there is, or a new label, is made,
  // and the one label changed has what was sent, with 2400 for the end if both times are 0.
  ghost predicate Made(es: seq<Entry>, e: Edit, next: multiset<Entry>) {
    match e
    case Delete(gid, freq) =>
      if 0 <= gid < |es| && freq == -1.0 then next == multiset(es) - multiset{es[gid]} else next == multiset(es)
    case Set(gid, x) =>
      if gid == -1 then next == multiset(es) + multiset{x}
      else if 0 <= gid < |es| then
        exists y :: next == multiset(es) - multiset{es[gid]} + multiset{y}
          && y.freq == x.freq && y.body.(end := 0) == x.body.(end := 0)
          && y.body.end == if x.body.begin == 0 && x.body.end == 0 then 2400 else x.body.end
      else next == multiset(es)
  }

  lemma EditIsMade(es: seq<Entry>, e: Edit)
    ensures Accepted(es, e) <==> (e.gid == -1 && e.Set?) || (0 <= e.gid < |es| && (e.Delete? ==> e.freq == -1.0))
    ensures Made(es, e, if Accepted(es, e) then Edited(es, e) else multiset(es))
  {
    if e.Set? && 0 <= e.gid < |es| {
      var y := e.entry.(body := Times(e.entry.body));
      assert y.freq == e.entry.freq;
    }
  }

  predicate Real(es: seq<Entry>) {
    forall i | 0 <= i < |es| :: es[i].freq < FORCED
  }

  // ----- Deleting by a forced frequency -----------------------------------------------------------

  function Forced(es: seq<Entry>, gid: nat): seq<Entry>
    requires gid < |es|
  {
    es[gid := es[gid].(freq := FORCED)]
  }

  lemma UpdateMultiset(es: seq<Entry>, i: nat, x: Entry)
    requires i < |es|
    ensures multiset(es[i := x]) == multiset(es) - multiset{es[i]} + multiset{x}
  {
  }

  lemma DropLast(es: seq<Entry>)
    requires es != []
    ensures multiset(es[..|es| - 1]) == multiset(es) - multiset{es[|es| - 1]}
  {
    assert es == es[..|es| - 1] + [es[|es| - 1]];
  }

  // No other entry has a frequency as high as the forced one, but for the same entry again.
  predicate AloneOnTop(m: seq<Entry>, gid: nat)
    requires gid < |m|
  {
    forall j | 0 <= j < |m| && j != gid :: m[j].freq < FORCED || m[j] == m[gid]
  }

  lemma InSorted(es: seq<Entry>, r: seq<Entry>, x: Entry)
    requires Sorts(es, r)
    ensures x in r <==> x in es
  {
    assert x in r <==> x in multiset(r);
    assert x in es <==> x in multiset(es);
  }

  lemma LastIsForced(m: seq<Entry>, gid: nat, r: seq<Entry>)
    requires gid < |m| && Sorts(m, r) && m[gid].freq == FORCED && AloneOnTop(m, gid)
    ensures r[|r| - 1] == m[gid]
  {
    var last := r[|r| - 1];
    InSorted(m, r, m[gid]);
    InSorted(m, r, last);
    assert last.freq >= FORCED;
    assert last in m;
  }

  lemma LastIsNot(m: seq<Entry>, gid: nat, j: nat, r: seq<Entry>)
    requires gid < |m| && j < |m| && m[gid].freq == FORCED && m[j].freq > FORCED && Sorts(m, r)
    ensures r[|r| - 1] != m[gid]
  {
    InSorted(m, r, m[j]);
  }

  // With another entry at the forced frequency, and none above it, that one can come last as well.
  lemma OtherLast(m: seq<Entry>, j: nat)
    requires j < |m| && forall k | 0 <= k < |m| :: m[k].freq <= m[j].freq
    ensures Sorts(m, Sort(m[..j] + m[j + 1..]) + [m[j]])
  {
    var rest := m[..j] + m[j + 1..];
    var r := Sort(rest);
    SortSorts(rest);
    assert m == m[..j] + [m[j]] + m[j + 1..];
    assert multiset(r + [m[j]]) == multiset(m);
    forall i | 0 <= i < |r| ensures r[i].freq <= m[j].freq {
      InSorted(rest, r, r[i]);
      assert r[i] in m;
    }
    OrderedSnoc(r, m[j]);
    hide Sort, Ordered;
  }

  lemma OrderedSnoc(es: seq<Entry>, e: Entry)
    requires Ordered(es) && forall i | 0 <= i < |es| :: es[i].freq <= e.freq
    ensures Ordered(es + [e])
  {
  }

  // The entry dropped is the forced one.
  predicate DropsForced(m: seq<Entry>, gid: nat, r: seq<Entry>)
    requires gid < |m|
  {
    r != [] && r[|r| - 1] == m[gid]
  }

  lemma ForcedLastIff(m: seq<Entry>, gid: nat)
    requires gid < |m| && m[gid].freq == FORCED
    ensures (forall r | Sorts(m, r) :: DropsForced(m, gid, r)) <==> AloneOnTop(m, gid)
  {
    if AloneOnTop(m, gid) {
      forall r | Sorts(m, r) ensures DropsForced(m, gid, r) {
        LastIsForced(m, gid, r);
      }
    } else if j :| 0 <= j < |m| && m[j].freq > FORCED {
      SortSorts(m);
      LastIsNot(m, gid, j, Sort(m));
    } else {
      var j :| 0 <= j < |m| && j != gid && m[j].freq >= FORCED && m[j] != m[gid];
      OtherLast(m, j);
      assert !DropsForced(m, gid, Sort(m[..j] + m[j + 1..]) + [m[j]]);
    }
    hide Sort;
  }

  lemma DropIsDelete(es: seq<Entry>, gid: nat, r: seq<Entry>)
    requires gid < |es| && Sorts(Forced(es, gid), r)
    ensures r != []
    ensures DropsForced(Forced(es, gid), gid, r) <==> multiset(r[..|r| - 1]) == multiset(es) - multiset{es[gid]}
  {
    var m, last := Forced(es, gid), r[|r| - 1];
    UpdateMultiset(es, gid, m[gid]);
    DropLast(r);
    assert last in multiset(r);
    assert es[gid] in multiset(es);
    var a := multiset(es) - multiset{es[gid]};
    assert multiset(r) == a + multiset{m[gid]};
    assert multiset(r[..|r| - 1]) == a + multiset{m[gid]} - multiset{last};
    if multiset(r[..|r| - 1]) == a {
      assert (a + multiset{m[gid]} - multiset{last})[last] == a[last];
      assert (a + multiset{m[gid]})[last] == a[last] + 1;
    }
  }

  // Every way to sort drops the right entry if and only if no other entry has a frequency as high as the
  // forced one, unless it is the same entry again.
  lemma DeleteIff(es: seq<Entry>, gid: nat)
    requires gid < |es|
    ensures (forall r | Sorts(Forced(es, gid), r) :: r != []
              && multiset(r[..|r| - 1]) == multiset(es) - multiset{es[gid]})
            <==> AloneOnTop(Forced(es, gid), gid)
  {
    var m := Forced(es, gid);
    ForcedLastIff(m, gid);
    forall r | Sorts(m, r)
      ensures r != [] && (DropsForced(m, gid, r) <==> multiset(r[..|r| - 1]) == multiset(es) - multiset{es[gid]})
    {
      DropIsDelete(es, gid, r);
    }
    hide Sorts, DropsForced, AloneOnTop, Forced;
  }

  // A label at the forced frequency, with another one to be deleted: sorting may leave that last.
  lemma DeleteDropsOther(a: Body, b: Body)
    requires a != b
    ensures var es := [Entry(999999.0, a), Entry(1.0, b)];
            var r := [Entry(999999.0, b), Entry(999999.0, a)];
            Sorts(Forced(es, 1), r) && multiset(r[..1]) != multiset(es) - multiset{es[1]}
  {
    var es, r := [Entry(FORCED, a), Entry(1.0, b)], [Entry(FORCED, b), Entry(FORCED, a)];
    ForcedPair(a, b);
    hide Sorts, Forced;
    DropIsDelete(es, 1, r);
  }

  lemma ForcedPair(a: Body, b: Body)
    ensures var m, r := Forced([Entry(FORCED, a), Entry(1.0, b)], 1), [Entry(FORCED, b), Entry(FORCED, a)];
            Sorts(m, r) && |m| == 2 && r[1] == Entry(FORCED, a) && m[1] == Entry(FORCED, b)
  {
    var m, r := Forced([Entry(FORCED, a), Entry(1.0, b)], 1), [Entry(FORCED, b), Entry(FORCED, a)];
    assert m == [Entry(FORCED, a), Entry(FORCED, b)];
    hide Sorts, Forced;
    SwapSorts(Entry(FORCED, a), Entry(FORCED, b));
  }

  lemma SwapSorts(x: Entry, y: Entry)
    requires x.freq == y.freq
    ensures Sorts([x, y], [y, x])
  {
    assert [x, y] == [x] + [y] && [y, x] == [y] + [x];
  }

  // ----- The list in its array --------------------------------------------------------------------

  class LabelList {
    var list: array<Slot>              // alloc_size is its length
    var actualLen: nat
    var hiddenUsed: bool

    ghost function Entries(n: nat): (es: seq<Entry>)
      requires n <= list.Length
      reads this, list
      ensures |es| == n && forall i | 0 <= i < n :: es[i] == list[i].entry
    {
      seq(n, i requires 0 <= i < n && n <= list.Length reads this, list => list[i].entry)
    }

    ghost predicate Numbered(n: nat)
      requires n <= list.Length
      reads this, list
    {
      forall i | 0 <= i < n :: list[i].idx == i
    }

    // Between edits: sorted, idx the position, the hidden slot there and not used.
    ghost predicate Valid()
      reads this, list
    {
      && actualLen + HIDDEN <= list.Length && !hiddenUsed
      && Ordered(Entries(actualLen)) && Numbered(actualLen)
    }

    // dx_reload_finalize with the labels read.
    constructor (es: seq<Entry>)
      ensures Valid() && fresh(list) && multiset(Entries(actualLen)) == multiset(es) && actualLen == |es|
    {
      var a := new Slot[0];
      var i := 0;
      new;
      list, actualLen, hiddenUsed := a, 0, false;
      var done := false;
      while !done
        invariant i <= |es| && actualLen == 0 && !hiddenUsed && fresh(list)
        invariant i <= list.Length && (done ==> i == |es| && i < list.Length)
        invariant forall k | 0 <= k < i :: list[k].entry == es[k]
        decreases |es| - i, if done then 0 else 1
      {
        if i >= list.Length {
          Grow();
        }
        if i < |es| {
          list[i] := Slot(es[i], 0);
          i := i + 1;
        } else {
          done := true;        // the trip that sees the end of the file has made room for the hidden slot
        }
      }
      assert Entries(i) == es;
      PrepList(true, i, i);
      ghost var r := Entries(i);
      assert Sorts(es, r);
      actualLen := i;
      assert Entries(actualLen) == r;
    }

    // kiwi_table_realloc: the entries there are kept.
    method Grow()
      modifies this`list
      ensures fresh(list) && list.Length == old(list.Length) + 256
      ensures forall k | 0 <= k < old(list.Length) :: list[k] == old(list[k])
    {
      var n := list.Length;
      var a := new Slot[n + CHUNK](i => Slot(Entry(0.0, Body("", "", "", 0, 0, 0, 0, 0, 0, 0)), 0));
      var i := 0;
      while i < n
        invariant i <= n && list == old(list) && unchanged(list)
        invariant forall k | 0 <= k < i :: a[k] == list[k]
      {
        a[i] := list[i];
        i := i + 1;
      }
      list := a;
    }

    method Qsort(n: nat)
      requires n <= list.Length
      modifies list
      ensures Sorts(old(Entries(n)), Entries(n))
      ensures forall k | n <= k < list.Length :: list[k] == old(list[k])
    {
      var es, i := [], 0;
      while i < n
        invariant i <= n && es == Entries(n)[..i] && unchanged(list)
      {
        es := es + [list[i].entry];
        i := i + 1;
      }
      assert es == old(Entries(n));
      var r := Sort(es);
      SortSorts(es);
      hide Sorts, Sort;
      i := 0;
      while i < n
        invariant i <= n
        invariant forall k | 0 <= k < i :: list[k].entry == r[k]
        invariant forall k | n <= k < list.Length :: list[k] == old(list[k])
      {
        list[i] := Slot(r[i], 0);
        i := i + 1;
      }
      assert Entries(n) == r;
    }

    // dx_prep_list: sorting the entries there were, numbering those there will be.
    method PrepList(needSort: bool, prev: nat, next: nat)
      requires next <= prev <= list.Length
      modifies list
      ensures Numbered(next)
      ensures if needSort then Sorts(old(Entries(prev)), Entries(prev)) else Entries(prev) == old(Entries(prev))
    {
      if needSort {
        Qsort(prev);
      }
      ghost var es := Entries(prev);
      var i := 0;
      while i < next
        invariant i <= next
        invariant Entries(prev) == es
        invariant forall k | 0 <= k < i :: list[k].idx == k
      {
        list[i] := list[i].(idx := i);
        i := i + 1;
      }
    }

    // CMD_DX_UPD: an edit that is not accepted changes nothing.
    method Update(e: Edit) returns (ok: bool)
      requires Valid()
      modifies this, list
      ensures Valid() && ok == old(Accepted(Entries(actualLen), e)) && (list == old(list) || fresh(list))
      ensures !ok ==> Entries(actualLen) == old(Entries(actualLen))
      ensures ok && (e.Set? || old(AloneOnTop(Forced(Entries(actualLen), e.gid), e.gid))) ==>
                multiset(Entries(actualLen)) == old(Edited(Entries(actualLen), e))
      ensures ok <==> (e.gid == -1 && e.Set?) || (0 <= e.gid < old(actualLen) && (e.Delete? ==> e.freq == -1.0))
      ensures !ok || e.Set? || old(AloneOnTop(Forced(Entries(actualLen), e.gid), e.gid)) ==>
                Made(old(Entries(actualLen)), e, multiset(Entries(actualLen)))
      ensures actualLen < list.Length && !hiddenUsed && forall i | 0 <= i < actualLen :: list[i].idx == i
      ensures forall i, j | 0 <= i < j < actualLen :: list[i].entry.freq <= list[j].entry.freq
    {
      EditIsMade(Entries(actualLen), e);
      hide AloneOnTop, Forced, Made;
      ok := -1 <= e.gid < actualLen && (e.Delete? ==> e.gid != -1 && e.freq == -1.0);
      if !ok {
        return;
      }
      if e.Delete? {
        Delete(e.gid);
      } else if e.gid == -1 {
        Add(e.entry);
        RestoreHidden();
      } else {
        Modify(e.gid, e.entry);
      }
    }

    // Room for the hidden slot again, if an entry has taken it.
    method RestoreHidden()
      requires hiddenUsed && actualLen <= list.Length && Ordered(Entries(actualLen)) && Numbered(actualLen)
      modifies this`list, this`hiddenUsed
      ensures Valid() && actualLen == old(actualLen) && Entries(actualLen) == old(Entries(actualLen))
      ensures list == old(list) || fresh(list)
    {
      ghost var es := Entries(actualLen);
      if actualLen + HIDDEN > list.Length {
        Grow();
      }
      hiddenUsed := false;
      assert Entries(actualLen) == es;
    }

    // The entry gets the forced frequency.
    method Force(gid: nat)
      requires actualLen <= list.Length && gid < actualLen
      modifies list
      ensures Entries(actualLen) == Forced(old(Entries(actualLen)), gid)
    {
      ghost var es := Entries(actualLen);
      list[gid] := Slot(Entry(FORCED, list[gid].entry.body), list[gid].idx);
      assert Entries(actualLen) == Forced(es, gid);
    }

    // All but the last entry of those sorted.
    method DropSorted(ghost m: seq<Entry>) returns (ghost r: seq<Entry>)
      requires 0 < actualLen < list.Length && !hiddenUsed && Entries(actualLen) == m
      modifies this`actualLen, list
      ensures Valid() && Sorts(m, r) && r != [] && Entries(actualLen) == r[..|r| - 1]
    {
      PrepList(true, actualLen, actualLen - 1);
      r := Entries(actualLen);
      actualLen := actualLen - 1;
      assert Entries(actualLen) == r[..actualLen];
      OrderedPrefix(r);
    }

    method Delete(gid: nat)
      requires Valid() && gid < actualLen
      modifies this`actualLen, list
      ensures Valid()
      ensures var es := old(Entries(actualLen));
              AloneOnTop(Forced(es, gid), gid) ==> multiset(Entries(actualLen)) == Edited(es, Edit.Delete(gid, -1.0))
    {
      hide Sorts, AloneOnTop, DropsForced, Forced, Ordered;
      ghost var es := Entries(actualLen);
      Force(gid);
      ghost var r := DropSorted(Forced(es, gid));
      DropIsDelete(es, gid, r);
      LastOfForced(es, gid, r);
    }

    // In the hidden slot, from where the sort takes it to its place.
    method Add(x: Entry)
      requires Valid()
      modifies this`actualLen, this`hiddenUsed, list
      ensures hiddenUsed && actualLen == old(actualLen) + 1 <= list.Length
      ensures Ordered(Entries(actualLen)) && Numbered(actualLen)
      ensures multiset(Entries(actualLen)) == multiset(old(Entries(actualLen))) + multiset{x}
    {
      ghost var es := Entries(actualLen);
      list[actualLen] := Slot(x, 0);
      hiddenUsed := true;
      actualLen := actualLen + 1;
      assert Entries(actualLen) == es + [x];
      PrepList(true, actualLen, actualLen);
    }

    method Modify(gid: nat, x: Entry)
      requires Valid() && gid < actualLen
      modifies list
      ensures Valid()
      ensures multiset(Entries(actualLen)) == Edited(old(Entries(actualLen)), Edit.Set(gid, x))
    {
      ghost var es := Entries(actualLen);
      var y := x.(body := Times(x.body));
      var needSort := list[gid].entry.freq != x.freq;
      list[gid] := Slot(y, list[gid].idx);
      assert Entries(actualLen) == es[gid := y];
      UpdateMultiset(es, gid, y);
      PrepList(needSort, actualLen, actualLen);
    }

    // Any number of edits, and the lists in between: each edit changes what it says and nothing else.
    method UpdateAll(edits: seq<Edit>) returns (ghost states: seq<seq<Entry>>)
      requires Valid() && Real(Entries(actualLen))
      requires forall i | 0 <= i < |edits| :: edits[i].Set? ==> edits[i].entry.freq < FORCED
      modifies this, list
      ensures Valid() && Real(Entries(actualLen))
      ensures |states| == |edits| + 1 && states[0] == old(Entries(actualLen)) && states[|edits|] == Entries(actualLen)
      ensures forall i | 0 <= i < |edits| :: Follows(states[i], edits[i], states[i + 1])
      ensures forall i | 0 <= i < |edits| :: Made(states[i], edits[i], multiset(states[i + 1]))
    {
      hide Made, Ordered, Edited, Accepted;
      states := [Entries(actualLen)];
      var i := 0;
      while i < |edits|
        invariant Valid() && i <= |edits| && |states| == i + 1 && (list == old(list) || fresh(list))
        invariant states[0] == old(Entries(actualLen)) && states[i] == Entries(actualLen) && Real(states[i])
        invariant forall k | 0 <= k < i :: Follows(states[k], edits[k], states[k + 1])
      {
        ghost var es := Entries(actualLen);
        RealIsAlone(es, edits[i]);
        var ok := Update(edits[i]);
        FollowsIf(es, edits[i], Entries(actualLen));
        RealStays(es, edits[i], Entries(actualLen));
        states := states + [Entries(actualLen)];
        i := i + 1;
      }
      forall k | 0 <= k < |edits| {
        FollowsIsMade(states[k], edits[k], states[k + 1]);
      }
    }
  }

  // The list after an edit.
  ghost predicate Follows(es: seq<Entry>, e: Edit, next: seq<Entry>) {
    if Accepted(es, e) then multiset(next) == Edited(es, e) && Ordered(next) else next == es
  }

  lemma FollowsIf(es: seq<Entry>, e: Edit, next: seq<Entry>)
    requires if Accepted(es, e) then multiset(next) == Edited(es, e) && Ordered(next) else next == es
    ensures Follows(es, e, next)
  {
  }

  lemma FollowsIsMade(es: seq<Entry>, e: Edit, next: seq<Entry>)
    requires Follows(es, e, next)
    ensures Made(es, e, multiset(next))
  {
    hide Made, Edited, Accepted, Ordered;
    EditIsMade(es, e);
  }

  lemma OrderedPrefix(r: seq<Entry>)
    requires Ordered(r) && r != []
    ensures Ordered(r[..|r| - 1])
  {
  }

  lemma LastOfForced(es: seq<Entry>, gid: nat, r: seq<Entry>)
    requires gid < |es| && Sorts(Forced(es, gid), r)
    ensures AloneOnTop(Forced(es, gid), gid) ==> DropsForced(Forced(es, gid), gid, r)
  {
    if AloneOnTop(Forced(es, gid), gid) {
      LastIsForced(Forced(es, gid), gid, r);
    }
  }

  lemma RealIsAlone(es: seq<Entry>, e: Edit)
    requires Real(es)
    ensures Accepted(es, e) && e.Delete? ==> AloneOnTop(Forced(es, e.gid), e.gid)
  {
  }

  // Frequencies below the forced one stay so.
  lemma RealStays(es: seq<Entry>, e: Edit, next: seq<Entry>)
    requires Real(es) && (e.Set? ==> e.entry.freq < FORCED) && Follows(es, e, next)
    ensures Real(next)
  {
    if Accepted(es, e) {
      forall i | 0 <= i < |next| ensures next[i].freq < FORCED {
        assert next[i] in multiset(next);
        assert next[i] in es || (e.Set? && (next[i] == e.entry || next[i] == e.entry.(body := Times(e.entry.body))));
      }
    }
  }
}
