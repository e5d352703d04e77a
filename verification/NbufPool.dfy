/** The static pool that every descriptor draws from, and its conservation. */
module NbufPool {
  import opened NbufQueue
  import opened NbufList

  ghost predicate Distinct<T>(s: seq<T>) {
    forall i, j | 0 <= i < j < |s| :: s[i] != s[j]
  }

  class Net {
    const slots: seq<Nbuf>
    const descs: seq<Ndesc>

    // No slot is in two lists.
    ghost predicate Apart() reads descs {
      forall d, o, b | d in descs && o in descs && d != o && b in d.list :: b !in o.list
    }

    // Every slot but nb is either free or in some descriptor's list, and nb is in none.
    ghost predicate ValidBut(nb: Nbuf?)
      reads this, descs, slots
    {
      && |slots| == NNBUF && Distinct(slots) && Distinct(descs) && Apart()
      && (forall d | d in descs :: (forall i | 0 <= i < |d.list| :: d.list[i] in slots) && d.Valid())
      && (forall d | d in descs :: nb !in d.list)
      && (forall b | b in slots && !b.isFree && b != nb :: exists d | d in descs :: b in d.list)
    }

    ghost predicate Valid()
      reads this, descs, slots
    {
      ValidBut(null)
    }

    // nbuf_init, and ndesc_init for every connection: all slots free, all lists empty.
    constructor (ttls: seq<nat>)
      ensures Valid() && fresh(slots) && fresh(descs)
      ensures |descs| == |ttls| && forall i | 0 <= i < |ttls| :: descs[i].Abs() == Fresh(ttls[i]).q
      ensures (forall b | b in slots :: b.isFree) && forall d | d in descs :: d.list == []
    {
      var nbs: seq<Nbuf> := [];
      while |nbs| < NNBUF
        invariant |nbs| <= NNBUF && Distinct(nbs) && fresh(nbs)
        invariant forall b | b in nbs :: b.isFree
        decreases NNBUF - |nbs|
      {
        var nb := new Nbuf();
        nbs := nbs + [nb];
      }
      var nds: seq<Ndesc> := [];
      while |nds| < |ttls|
        invariant |nds| <= |ttls| && Distinct(nds) && fresh(nds) && fresh(nbs)
        invariant forall b | b in nbs :: b.isFree
        invariant forall i | 0 <= i < |nds| :: nds[i].Valid() && nds[i].list == [] && nds[i].Abs() == Fresh(ttls[i]).q
        decreases |ttls| - |nds|
      {
        var nd := new Ndesc(ttls[|nds|]);
        nds := nds + [nd];
      }
      slots, descs := nbs, nds;
    }

    twostate lemma StillValid(o: Ndesc)
      requires old(o.Valid()) && unchanged(o) && forall b | b in o.list :: unchanged(b)
      ensures o.Valid()
    {
      forall i: nat | i < |o.list|
        ensures Linked(o.list, o.entries, i)
      {
        assert old(Linked(o.list, o.entries, i)) && o.list[i] in o.list;
      }
    }

    // One descriptor worked on its own list: it kept some buffers, freed the others, and may have
    // linked in the slot that was outside.
    twostate lemma OnlyOneListChanged(d: Ndesc, new nb: Nbuf?)
      requires old(allocated(nb)) && old(ValidBut(nb))
      requires d in descs && (nb == null || nb in slots)
      requires d.Valid()
      requires forall o | o in descs && o != d :: unchanged(o)
      requires forall b | b in slots && b !in old(d.list) && b != nb :: unchanged(b)
      requires forall b | b in d.list :: b in old(d.list) || b == nb
      requires forall b | b in old(d.list) :: b in d.list || b.isFree
      ensures nb in d.list ==> Valid()
      ensures nb !in d.list ==> ValidBut(nb)
    {
      forall o | o in descs
        ensures o.Valid()
      {
        if o != d {
          assert forall b | b in o.list :: b !in old(d.list) && b != nb && unchanged(b);
          StillValid(o);
        }
      }
      forall i | 0 <= i < |d.list|
        ensures d.list[i] in slots
      {
        assert d.list[i] in d.list;
        if d.list[i] != nb {
          var j :| 0 <= j < |old(d.list)| && old(d.list)[j] == d.list[i];
        }
      }
      forall b | b in slots && !b.isFree && (b != nb || b in d.list)
        ensures exists o | o in descs :: b in o.list
      {
        if b !in d.list {
          var o :| o in descs && b in old(o.list);
          assert b in o.list;
        }
      }
    }

    // Handing a slot that is in no list to nbuf_enqueue.
    method Link(d: Ndesc, nb: Nbuf, ghost e: Entry) returns (refused: bool)
      requires ValidBut(nb) && d in descs && nb in slots && nb.Holds(e) && TtlAssertHolds(d.ttl, d.entries)
      requires e == Entry(e.msg, false, false, d.ttl)
      modifies slots, d
      ensures refused ==> ValidBut(nb)
      ensures !refused ==> Valid()
      ensures refused <==> Refuses(Reclaim(old(d.Abs())))
      ensures d.Abs() == (if refused then Reclaim(old(d.Abs())).(ovfl := true)
                          else Queue(Reclaim(old(d.Abs())).entries + [e], d.ttl, old(d.cnt) + 1, false))
      ensures forall o | o in descs && o != d :: unchanged(o)
    {
      assert d.Valid() && nb !in d.list && forall i | 0 <= i < |d.list| :: d.list[i] in slots;
      hide ValidBut, Collected, Age, Reclaim, Refuses;
      ghost var was, k := d.list, Collected(d.ttl, Age(d.ttl, d.entries));
      refused := d.Enqueue(nb, e);
      KeptOrFreed(was, k);
      assert nb in d.list <==> !refused;
      OnlyOneListChanged(d, nb);
    }

    lemma KeptOrFreed(was: seq<Nbuf>, k: nat)
      requires k <= |was| && forall i | 0 <= i < k :: was[i].isFree
      ensures forall b | b in was :: b in was[k..] || b.isFree
    {
      forall b | b in was
        ensures b in was[k..] || b.isFree
      {
        var i :| 0 <= i < |was| && was[i] == b;
        if i >= k {
          assert was[k..][i - k] == b;
        }
      }
    }

    lemma FreeIsUnlinked(nb: Nbuf)
      requires Valid() && nb.isFree
      ensures ValidBut(nb)
    {
      forall d, i: nat | d in descs && i < |d.list|
        ensures d.list[i] != nb
      {
        assert Linked(d.list, d.entries, i);
      }
    }

    // Writing only to a slot that is in no list leaves everything else as it was.
    twostate lemma OnlyOutsiderChanged(nb: Nbuf)
      requires old(allocated(nb)) && old(ValidBut(nb))
      requires forall d | d in descs :: unchanged(d)
      requires forall b | b in slots && b != nb :: unchanged(b)
      ensures ValidBut(nb)
      ensures nb.isFree ==> Valid()
    {
      forall o | o in descs
        ensures o.Valid()
      {
        assert forall b | b in o.list :: b != nb && unchanged(b);
      }
    }

    // The search loop of nbuf_malloc: the first free slot.
    method FindFree() returns (nb: Nbuf?)
      ensures nb == null <==> forall b | b in slots :: !b.isFree
      ensures nb != null ==> exists i :: 0 <= i < |slots| && slots[i] == nb && nb.isFree
                              && forall j | 0 <= j < i :: !slots[j].isFree
    {
      for i := 0 to |slots|
        invariant forall j | 0 <= j < i :: !slots[j].isFree
      {
        nb := slots[i];
        if nb.isFree {
          return;
        }
      }
      nb := null;
    }

    // The rest of nbuf_malloc, and the fields nbuf_allocq sets.
    method Fill(nb: Nbuf, d: Ndesc, s: string)
      requires Valid() && nb in slots && nb.isFree
      modifies nb
      ensures ValidBut(nb) && nb.Holds(Entry(Payload(s), false, false, d.ttl))
      ensures forall o | o in descs :: unchanged(o)
    {
      FreeIsUnlinked(nb);
      hide ValidBut;
      nb.buf, nb.len, nb.ttl := NoText, 0, 0;
      nb.done, nb.dequeued, nb.isFree := false, false, false;
      nb.next, nb.prev := null, null;
      nb.buf, nb.len, nb.ttl := Text(s), |s| % 65536, d.ttl;
      OnlyOutsiderChanged(nb);
    }

    // nbuf_free of a slot that is in no list.
    method Release(nb: Nbuf)
      requires ValidBut(nb) && nb in slots
      modifies nb
      ensures Valid()
      ensures forall o | o in descs :: unchanged(o)
    {
      nb.buf, nb.isFree := NoText, true;
      OnlyOutsiderChanged(nb);
    }

    // nbuf_allocq for a message of sl > 0 characters.  Running out of slots panics before anything
    // is changed.
    method AllocQ(d: Ndesc, s: string) returns (panicked: bool)
      requires Valid() && d in descs && |s| > 0 && TtlAssertHolds(d.ttl, d.entries)
      modifies slots, d
      ensures panicked <==> forall b | b in slots :: !old(b.isFree)
      ensures panicked ==> unchanged(d) && forall b | b in slots :: unchanged(b)
      ensures Valid()
      ensures !panicked ==> d.Abs() == Alloc(old(d.Abs()), s)
      ensures forall o | o in descs && o != d :: unchanged(o)
    {
      hide ValidBut, Collected, Age, Reclaim, Refuses;
      var nb := FindFree();
      panicked := nb == null;
      if nb != null {
        Fill(nb, d, s);
        var refused := Link(d, nb, Entry(Payload(s), false, false, d.ttl));
        if refused {
          Release(nb);
        }
      }
    }

    method Dequeue(d: Ndesc) returns (nb: Nbuf?)
      requires Valid() && d in descs
      modifies slots, d
      ensures Valid() && d.list == old(d.list) && d.Abs() == NbufQueue.Dequeue(old(d.Abs()))
      ensures nb == (if NextUp(old(d.entries)) < |d.list| then d.list[NextUp(old(d.entries))] else null)
      ensures nb != null ==>
                nb.buf.Text? && nb.len <= |nb.buf.s|
                && nb.buf.s[..nb.len] == old(d.entries)[NextUp(old(d.entries))].msg
      ensures forall o | o in descs && o != d :: unchanged(o)
    {
      nb := d.Next();
      OnlyOneListChanged(d, null);
    }

    method Done(d: Ndesc, nb: Nbuf, ghost n: nat)
      requires Valid() && d in descs && CanComplete(d.Abs(), n) && n < |d.list| && nb == d.list[n]
      modifies slots, d
      ensures Valid() && d.list == old(d.list) && d.Abs() == Complete(old(d.Abs()), n)
      ensures forall o | o in descs && o != d :: unchanged(o)
    {
      d.MarkDone(nb, n);
      OnlyOneListChanged(d, null);
    }

    method Cleanup(d: Ndesc)
      requires Valid() && d in descs
      modifies slots, d
      ensures Valid() && d.Abs() == NbufQueue.Cleanup(old(d.Abs()))
      ensures forall o | o in descs && o != d :: unchanged(o)
    {
      d.Cleanup();
      OnlyOneListChanged(d, null);
    }

    // ----- Conservation ---------------------------------------------------------------------------

    ghost function FreeSlots(): set<Nbuf> reads this, slots {
      set b | b in slots && b.isFree
    }

    // Buffers linked by the first n descriptors.
    ghost function LinkedBuffers(n: nat): nat
      requires n <= |descs|
      reads this, descs
    {
      if n == 0 then 0 else LinkedBuffers(n - 1) + |descs[n - 1].list|
    }

    ghost function LinkedSet(n: nat): set<Nbuf>
      requires n <= |descs|
      reads this, descs
    {
      if n == 0 then {} else LinkedSet(n - 1) + Elements(descs[n - 1].list)
    }

    lemma {:induction false} LinkedSetIs(n: nat, b: Nbuf)
      requires n <= |descs|
      ensures b in LinkedSet(n) <==> exists i :: 0 <= i < n && b in descs[i].list
    {
      if n > 0 {
        LinkedSetIs(n - 1, b);
      }
    }

    lemma NextListIsApart(n: nat)
      requires Distinct(descs) && Apart() && n < |descs|
      ensures LinkedSet(n) !! Elements(descs[n].list)
    {
      forall b | b in LinkedSet(n)
        ensures b !in Elements(descs[n].list)
      {
        LinkedSetIs(n, b);
        var i :| 0 <= i < n && b in descs[i].list;
        assert descs[i] != descs[n];
      }
    }

    lemma {:induction false} LinkedSetSize(n: nat)
      requires Distinct(descs) && Apart() && n <= |descs|
      requires forall d | d in descs :: Distinct(d.list)
      ensures |LinkedSet(n)| == LinkedBuffers(n)
    {
      if n > 0 {
        LinkedSetSize(n - 1);
        NextListIsApart(n - 1);
        SizeOfDistinct(descs[n - 1].list);
        hide Apart, Elements;
      }
    }

    lemma LinkedIffNotFree(b: Nbuf)
      requires Valid() && b in slots
      ensures b in LinkedSet(|descs|) <==> !b.isFree
    {
      LinkedSetIs(|descs|, b);
      forall d, k: nat | d in descs && k < |d.list|
        ensures !d.list[k].isFree
      {
        assert Linked(d.list, d.entries, k);
      }
    }

    lemma LinkedAreSlots(b: Nbuf)
      requires Valid() && b in LinkedSet(|descs|)
      ensures b in slots
    {
      LinkedSetIs(|descs|, b);
      var i :| 0 <= i < |descs| && b in descs[i].list;
      var k :| 0 <= k < |descs[i].list| && descs[i].list[k] == b;
    }

    // Free slots plus linked buffers is always the size of the pool.
    lemma PoolIsConserved()
      requires Valid()
      ensures |FreeSlots()| + LinkedBuffers(|descs|) == NNBUF
    {
      assert |Elements(slots)| == NNBUF by {
        SizeOfDistinct(slots);
      }
      assert |LinkedSet(|descs|)| == LinkedBuffers(|descs|) by {
        LinkedSetSize(|descs|);
      }
      forall b | b in slots
        ensures b in LinkedSet(|descs|) <==> !b.isFree
      {
        LinkedIffNotFree(b);
      }
      forall b | b in LinkedSet(|descs|)
        ensures b in slots
      {
        LinkedAreSlots(b);
      }
      hide ValidBut;
      assert Elements(slots) == FreeSlots() + LinkedSet(|descs|);
    }

    // So that the next allocation panics if and only if all 1024 are linked.
    lemma PanicsIffAllLinked()
      requires Valid()
      ensures (forall b | b in slots :: !b.isFree) <==> LinkedBuffers(|descs|) == NNBUF
    {
      PoolIsConserved();
      hide ValidBut, LinkedBuffers;
      if b :| b in slots && b.isFree {
        assert b in FreeSlots();
      } else {
        assert FreeSlots() == {};
      }
    }

    lemma {:induction false} LinkedAtMost(n: nat)
      requires n <= |descs| && forall d | d in descs :: |d.list| <= 1
      ensures LinkedBuffers(n) <= n
    {
      if n > 0 {
        LinkedAtMost(n - 1);
        assert descs[n - 1] in descs;
      }
    }

    // With one buffer at most in each of fewer than 1024 connections there is always a free slot.
    lemma OneEachIsEnough()
      requires Valid() && |descs| < NNBUF && forall d | d in descs :: |d.list| <= 1
      ensures exists b :: b in slots && b.isFree
    {
      LinkedAtMost(|descs|);
      PanicsIffAllLinked();
      hide ValidBut;
    }
  }

  ghost function Elements<T>(s: seq<T>): set<T> {
    set x | x in s
  }

  lemma {:induction false} SizeOfDistinct<T>(s: seq<T>)
    requires Distinct(s)
    ensures |Elements(s)| == |s|
  {
    if s != [] {
      var t := s[..|s| - 1];
      SizeOfDistinct(t);
      assert Elements(s) == Elements(t) + {s[|s| - 1]};
    }
  }
}
