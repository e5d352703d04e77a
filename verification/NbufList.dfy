/** The linked structure of net/nbuf.cpp: buffers from a shared static pool, chained both ways in
    each connection's descriptor.  Every method is proved against NbufQueue. */
module NbufList {
  import opened NbufQueue

  const NNBUF := 1024

  datatype Text = NoText | Text(s: string)

  class Nbuf {
    var buf: Text
    var len: nat
    var ttl: nat
    var done: bool
    var dequeued: bool
    var isFree: bool
    var next: Nbuf?        // towards the oldest
    var prev: Nbuf?        // towards the newest

    // A slot of the static pool after nbuf_init.
    constructor ()
      ensures isFree && next == null && prev == null
    {
      buf, len, ttl, done, dequeued, isFree, next, prev := NoText, 0, 0, false, false, true, null, null;
    }

    predicate Holds(e: Entry) reads this {
      && !isFree && buf.Text? && len <= |buf.s| && buf.s[..len] == e.msg
      && ttl == e.ttl && done == e.done && dequeued == e.dequeued
    }
  }

  // Buffer i of a list, oldest first: chained to its neighbours and holding its entry.
  ghost predicate Linked(list: seq<Nbuf>, entries: seq<Entry>, i: nat)
    reads list
    requires i < |list| && |entries| == |list|
  {
    && list[i].prev == (if i + 1 < |list| then list[i + 1] else null)
    && list[i].next == (if i > 0 then list[i - 1] else null)
    && list[i].Holds(entries[i])
  }

  class Ndesc {
    const ttl: nat
    var q: Nbuf?           // newest
    var qHead: Nbuf?       // oldest
    var cnt: int
    var ovfl: bool
    ghost var list: seq<Nbuf>          // oldest first
    ghost var entries: seq<Entry>

    ghost predicate Valid() reads this, list {
      && |entries| == |list|
      && (forall i, j | 0 <= i < j < |list| :: list[i] != list[j])
      && qHead == (if list == [] then null else list[0])
      && q == (if list == [] then null else list[|list| - 1])
      && forall i: nat | i < |list| :: Linked(list, entries, i)
    }

    ghost function Abs(): Queue reads this {
      Queue(entries, ttl, cnt, ovfl)
    }

    constructor (ttl: nat)
      ensures Valid() && list == [] && Abs() == Fresh(ttl).q
    {
      this.ttl := ttl;
      q, qHead, cnt, ovfl := null, null, 0, false;
      list, entries := [], [];
    }

    // One step of "decrement ttl counters".
    method AgeOne(dp: Nbuf, ghost n: nat)
      requires Valid() && n < |list| && dp == list[n] && ttl != 0 && (entries[n].done ==> entries[n].ttl > 0)
      modifies this`entries, dp`ttl
      ensures Valid() && entries == old(entries)[n := AgeEntry(old(entries)[n])]
    {
      assert Linked(list, entries, n);
      if dp.done {
        dp.ttl := dp.ttl - 1;
      }
      entries := entries[n := AgeEntry(entries[n])];
      forall i: nat | i < |list|
        ensures Linked(list, entries, i)
      {
        assert old(Linked(list, entries, i));
      }
    }

    method AgeBuffers()
      requires Valid() && TtlAssertHolds(ttl, entries)
      modifies this`entries, list
      ensures Valid() && entries == Age(ttl, old(entries))
    {
      if ttl != 0 {
        ghost var was := entries;
        ghost var n := 0;
        var dp := qHead;
        while dp != null
          invariant Valid() && n <= |list| && dp == (if n < |list| then list[n] else null)
          invariant forall i | 0 <= i < |list| :: entries[i] == if i < n then AgeEntry(was[i]) else was[i]
          decreases |list| - n
        {
          AgeOne(dp, n);
          assert Linked(list, entries, n);
          dp := dp.prev;
          n := n + 1;
        }
      }
    }

    // One turn of the collecting loop: the oldest buffer is unlinked and its slot freed.
    method DropOldest()
      requires Valid() && list != []
      modifies this`q, this`qHead, this`list, this`entries, list
      ensures Valid() && list == old(list)[1..] && entries == old(entries)[1..]
      ensures old(list)[0].isFree
    {
      var dp := qHead;
      assert Linked(list, entries, 0);
      assert |list| > 1 ==> Linked(list, entries, 1);
      qHead := dp.prev;
      if q == dp {
        assert |list| == 1;
        q := null;
      } else {
        qHead.next := null;
      }
      dp.buf, dp.isFree := NoText, true;
      list, entries := list[1..], entries[1..];
      forall i: nat | i < |list|
        ensures Linked(list, entries, i)
      {
        assert old(Linked(list, entries, i + 1));
      }
    }

    method Collect()
      requires Valid()
      modifies this`q, this`qHead, this`list, this`entries, list
      ensures Valid()
      ensures var k := Collected(ttl, old(entries));
              && list == old(list)[k..] && entries == old(entries)[k..]
              && forall i | 0 <= i < k :: old(list)[i].isFree
      ensures ttl == 0 && list != [] ==> !list[0].done
    {
      ghost var k := Collected(ttl, entries);
      ghost var n := 0;
      while qHead != null && ((ttl == 0 && qHead.done) || (ttl != 0 && qHead.done && qHead.ttl == 0))
        invariant Valid() && n <= k && list == old(list)[n..] && entries == old(entries)[n..]
        invariant forall i | 0 <= i < n :: old(list)[i].isFree
        decreases |list|
      {
        assert Linked(list, entries, 0);
        assert entries[0] == old(entries)[n];
        DropOldest();
        n := n + 1;
      }
      assert list != [] ==> Linked(list, entries, 0) && entries[0] == old(entries)[n];
      assert n < |old(entries)| ==> !Expired(ttl, old(entries)[n]);
    }

    // Linking a filled buffer in at the newest end.
    method Append(nb: Nbuf, ghost e: Entry)
      requires Valid() && nb !in list && nb.Holds(e)
      modifies this`q, this`qHead, this`cnt, this`list, this`entries, list, nb
      ensures Valid() && list == old(list) + [nb] && entries == old(entries) + [e] && cnt == old(cnt) + 1
    {
      assert list != [] ==> Linked(list, entries, |list| - 1);
      cnt := cnt + 1;
      if q != null {
        q.prev := nb;
      }
      nb.next := q;
      q := nb;
      nb.prev := null;
      if qHead == null {
        qHead := nb;
      }
      list, entries := list + [nb], entries + [e];
      forall i: nat | i < |list|
        ensures Linked(list, entries, i)
      {
        assert i < |old(list)| ==> old(Linked(list, entries, i));
      }
    }

    // The first half of nbuf_enqueue.
    method AgeAndCollect()
      requires Valid() && TtlAssertHolds(ttl, entries)
      modifies this`q, this`qHead, this`list, this`entries, list
      ensures Valid() && Abs() == Reclaim(old(Abs()))
      ensures var k := Collected(ttl, Age(ttl, old(entries)));
              list == old(list)[k..] && forall i | 0 <= i < k :: old(list)[i].isFree
    {
      hide Age, Collected, Linked, TtlAssertHolds;
      AgeBuffers();
      Collect();
    }

    // nbuf_enqueue.  nb is a filled buffer, not linked anywhere; e is the entry it stands for.
    method Enqueue(nb: Nbuf, ghost e: Entry) returns (refused: bool)
      requires Valid() && nb !in list && nb.Holds(e) && TtlAssertHolds(ttl, entries)
      modifies this`q, this`qHead, this`cnt, this`ovfl, this`list, this`entries, list, nb
      ensures Valid()
      ensures refused <==> Refuses(Reclaim(old(Abs())))
      ensures Abs() == (if refused then Reclaim(old(Abs())).(ovfl := true)
                        else Queue(Reclaim(old(Abs())).entries + [e], ttl, old(cnt) + 1, false))
      ensures var k := Collected(ttl, Age(ttl, old(entries)));
              && list == old(list)[k..] + (if refused then [] else [nb])
              && forall i | 0 <= i < k :: old(list)[i].isFree
      ensures refused ==> nb.Holds(e)
    {
      KeepsTheRest(Abs());
      hide Age, Collected, Linked, TtlAssertHolds, Reclaim;
      AgeAndCollect();
      assert nb.Holds(e);
      if ovfl && cnt < ND_LOWAT {
        ovfl := false;
      }
      if ovfl || cnt > ND_HIWAT {
        ovfl := true;
        refused := true;
      } else {
        Append(nb, e);
        refused := false;
      }
    }

    static lemma KeepsTheRest(q: Queue)
      ensures var r := Reclaim(q); r.ttl == q.ttl && r.cnt == q.cnt && r.ovfl == q.ovfl
    {
    }

    // nbuf_dequeue.
    method Next() returns (nb: Nbuf?)
      requires Valid()
      modifies this`cnt, this`entries, list
      ensures Valid() && Abs() == Dequeue(old(Abs()))
      ensures nb == (if NextUp(old(entries)) < |list| then list[NextUp(old(entries))] else null)
      ensures nb != null ==>
                nb.buf.Text? && nb.len <= |nb.buf.s|
                && nb.buf.s[..nb.len] == old(entries)[NextUp(old(entries))].msg
    {
      ghost var n := 0;
      nb := qHead;
      while nb != null && nb.dequeued
        invariant n <= |list| && nb == (if n < |list| then list[n] else null)
        invariant forall i | 0 <= i < n :: entries[i].dequeued
        decreases |list| - n
      {
        assert Linked(list, entries, n);
        nb := nb.prev;
        n := n + 1;
      }
      assert n < |list| ==> Linked(list, entries, n);
      NextUpIs(entries, n);
      if nb != null {
        MarkDequeued(nb, n);
      }
    }

    method MarkDequeued(nb: Nbuf, ghost n: nat)
      requires Valid() && n < |list| && nb == list[n]
      modifies this`cnt, this`entries, nb`dequeued
      ensures Valid() && entries == old(entries)[n := old(entries)[n].(dequeued := true)] && cnt == old(cnt) - 1
    {
      assert Linked(list, entries, n);
      nb.dequeued := true;
      cnt := cnt - 1;
      entries := entries[n := entries[n].(dequeued := true)];
      forall i: nat | i < |list|
        ensures Linked(list, entries, i)
      {
        assert old(Linked(list, entries, i));
      }
    }

    // A receiver sets done on a buffer it has dequeued.
    method MarkDone(nb: Nbuf, ghost n: nat)
      requires Valid() && n < |list| && nb == list[n] && CanComplete(Abs(), n)
      modifies this`entries, nb`done
      ensures Valid() && Abs() == Complete(old(Abs()), n)
    {
      assert Linked(list, entries, n);
      nb.done := true;
      entries := entries[n := entries[n].(done := true)];
      forall i: nat | i < |list|
        ensures Linked(list, entries, i)
      {
        assert old(Linked(list, entries, i));
      }
    }

    // nbuf_queued.
    method Queued() returns (queued: nat)
      requires Valid()
      ensures queued == Waiting(entries)
    {
      queued := 0;
      ghost var n := |list|;
      var bp := q;
      while bp != null
        invariant 0 <= n <= |list| && bp == (if n > 0 then list[n - 1] else null)
        invariant queued == Waiting(entries[n..])
        decreases n
      {
        assert Linked(list, entries, n - 1);
        assert entries[n - 1..][1..] == entries[n..];
        if !bp.dequeued {
          queued := queued + 1;
        }
        bp := bp.next;
        n := n - 1;
      }
      assert entries[0..] == entries;
    }

    // nbuf_cleanup.  It follows and frees along prev, leaving the next pointers as they are.
    method Cleanup()
      requires Valid()
      modifies this`q, this`qHead, this`cnt, this`ovfl, this`list, this`entries, list
      ensures Valid() && list == [] && Abs() == NbufQueue.Cleanup(old(Abs())) == Fresh(ttl).q
      ensures forall b | b in old(list) :: b.isFree
    {
      ghost var n, was := 0, list;
      forall i: nat | i < |was|
        ensures was[i].prev == (if i + 1 < |was| then was[i + 1] else null)
      {
        assert Linked(list, entries, i);
      }
      while qHead != null
        invariant n <= |was| && qHead == (if n < |was| then was[n] else null)
        invariant q == (if n < |was| then was[|was| - 1] else null)
        invariant forall i | 0 <= i < n :: was[i].isFree
        invariant forall i | 0 <= i < |was| :: was[i].prev == (if i + 1 < |was| then was[i + 1] else null)
        decreases |was| - n
      {
        var dp := qHead;
        assert dp.prev == (if n + 1 < |was| then was[n + 1] else null);
        dp.buf := NoText;
        qHead := dp.prev;
        if dp == q {
          q := null;
        }
        dp.isFree := true;
        n := n + 1;
      }
      cnt := 0;
      ovfl := false;
      list, entries := [], [];
    }
  }
}
