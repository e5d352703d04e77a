/** The per-connection message queue of net/nbuf.cpp as a value, oldest entry first, and what holds
    over every run of its operations.  NbufList proves that the linked structure behaves like this. */
module NbufQueue {
  const ND_HIWAT := 64
  const ND_LOWAT := 32

  // The length field is 16 bits wide; the receiver is handed buf[0..len).
  function Payload(s: string): string {
    s[..|s| % 65536]
  }

  datatype Entry = Entry(msg: string, dequeued: bool, done: bool, ttl: nat)

  datatype Queue = Queue(entries: seq<Entry>, ttl: nat, cnt: int, ovfl: bool)

  // ----- The operations ---------------------------------------------------------------------------

  function AgeEntry(e: Entry): Entry {
    if e.done && e.ttl > 0 then e.(ttl := e.ttl - 1) else e
  }

  function Age(ttl: nat, es: seq<Entry>): (r: seq<Entry>)
    ensures |r| == |es|
    ensures forall i | 0 <= i < |es| :: r[i] == if ttl == 0 then es[i] else AgeEntry(es[i])
  {
    if ttl == 0 then es else seq(|es|, i requires 0 <= i < |es| => AgeEntry(es[i]))
  }

  // The source's assert(dp->ttl), for every buffer it is evaluated on.
  predicate TtlAssertHolds(ttl: nat, es: seq<Entry>) {
    ttl != 0 ==> forall i | 0 <= i < |es| :: es[i].done ==> es[i].ttl > 0
  }

  predicate Expired(ttl: nat, e: Entry) {
    e.done && (ttl == 0 || e.ttl == 0)
  }

  // How many buffers the collecting loop takes from the oldest end.
  function Collected(ttl: nat, es: seq<Entry>): (k: nat)
    ensures k <= |es|
    ensures forall i | 0 <= i < k :: Expired(ttl, es[i])
    ensures k < |es| ==> !Expired(ttl, es[k])
  {
    if es != [] && Expired(ttl, es[0]) then 1 + Collected(ttl, es[1..]) else 0
  }

  function Reclaim(q: Queue): (r: Queue) {
    var aged := Age(q.ttl, q.entries);
    q.(entries := aged[Collected(q.ttl, aged)..])
  }

  predicate Refuses(q: Queue) {
    (q.ovfl && q.cnt >= ND_LOWAT) || q.cnt > ND_HIWAT
  }

  function Alloc(q: Queue, s: string): Queue {
    var r := Reclaim(q);
    if Refuses(r) then r.(ovfl := true)
    else Queue(r.entries + [Entry(Payload(s), false, false, q.ttl)], q.ttl, q.cnt + 1, false)
  }

  // The first entry from the oldest end that is not dequeued, or the length if there is none.
  function NextUp(es: seq<Entry>): (i: nat)
    ensures i <= |es|
    ensures forall j | 0 <= j < i :: es[j].dequeued
    ensures i < |es| ==> !es[i].dequeued
  {
    if es != [] && es[0].dequeued then 1 + NextUp(es[1..]) else 0
  }

  function Dequeue(q: Queue): Queue {
    var i := NextUp(q.entries);
    if i < |q.entries| then q.(entries := q.entries[i := q.entries[i].(dequeued := true)], cnt := q.cnt - 1) else q
  }

  // A receiver is finished with buffer i.
  predicate CanComplete(q: Queue, i: nat) {
    i < |q.entries| && q.entries[i].dequeued && !q.entries[i].done
  }

  function Complete(q: Queue, i: nat): Queue
    requires CanComplete(q, i)
  {
    q.(entries := q.entries[i := q.entries[i].(done := true)])
  }

  function Cleanup(q: Queue): Queue {
    Queue([], q.ttl, 0, false)
  }

  function Waiting(es: seq<Entry>): nat {
    if es == [] then 0 else (if es[0].dequeued then 0 else 1) + Waiting(es[1..])
  }

  // ----- Histories --------------------------------------------------------------------------------

  datatype Op = OpAlloc(s: string) | OpDequeue | OpComplete(i: nat) | OpCleanup

  // A queue with what has happened to it since it was last cleaned up: messages accepted, messages
  // handed to the receiver, and how many buffers have gone back to the pool.
  datatype History = History(q: Queue, accepted: seq<string>, delivered: seq<string>, reclaimed: nat)

  predicate Enabled(h: History, op: Op) {
    match op
    case OpAlloc(_) => TtlAssertHolds(h.q.ttl, h.q.entries)
    case OpComplete(i) => CanComplete(h.q, i)
    case _ => true
  }

  function Step(h: History, op: Op): History
    requires Enabled(h, op)
  {
    match op
    case OpAlloc(s) =>
      History(Alloc(h.q, s),
              if Refuses(Reclaim(h.q)) then h.accepted else h.accepted + [Payload(s)],
              h.delivered,
              h.reclaimed + Collected(h.q.ttl, Age(h.q.ttl, h.q.entries)))
    case OpDequeue =>
      var i := NextUp(h.q.entries);
      h.(q := Dequeue(h.q),
         delivered := if i < |h.q.entries| then h.delivered + [h.q.entries[i].msg] else h.delivered)
    case OpComplete(i) => h.(q := Complete(h.q, i))
    case OpCleanup => History(Cleanup(h.q), [], [], 0)
  }

  ghost predicate Runs(h: History, ops: seq<Op>)
    decreases |ops|
  {
    ops == [] || (Enabled(h, ops[0]) && Runs(Step(h, ops[0]), ops[1..]))
  }

  ghost function Run(h: History, ops: seq<Op>): History
    requires Runs(h, ops)
    decreases |ops|
  {
    if ops == [] then h else Run(Step(h, ops[0]), ops[1..])
  }

  function Fresh(ttl: nat): History {
    History(Queue([], ttl, 0, false), [], [], 0)
  }

  // ----- First in, first out ----------------------------------------------------------------------

  // Dequeued buffers are a prefix from the oldest end; the buffers held are the accepted messages
  // not yet reclaimed, in order; delivered messages are the accepted ones up to the first buffer
  // still waiting, each once.
  ghost predicate Fifo(h: History) {
    var es := h.q.entries;
    && (forall i, j | 0 <= i < j < |es| :: es[j].dequeued ==> es[i].dequeued)
    && (forall i | 0 <= i < |es| :: es[i].done ==> es[i].dequeued)
    && |h.accepted| == h.reclaimed + |es|
    && (forall i | 0 <= i < |es| :: es[i].msg == h.accepted[h.reclaimed + i])
    && |h.delivered| == h.reclaimed + NextUp(es)
    && h.delivered == h.accepted[..|h.delivered|]
  }

  // cnt is the number of buffers waiting, which stays within the high-water mark plus one.
  ghost predicate Counted(q: Queue) {
    q.cnt == |q.entries| - NextUp(q.entries) && q.cnt <= ND_HIWAT + 1
  }

  lemma NextUpIs(es: seq<Entry>, i: nat)
    requires i <= |es| && (forall j | 0 <= j < i :: es[j].dequeued) && (i < |es| ==> !es[i].dequeued)
    ensures NextUp(es) == i
  {
  }

  // Reclaiming only touches buffers that are done, and those come before any that is waiting.
  lemma ReclaimedBefore(ttl: nat, es: seq<Entry>)
    requires forall i | 0 <= i < |es| :: es[i].done ==> es[i].dequeued
    ensures var k := Collected(ttl, Age(ttl, es));
            k <= NextUp(es) && NextUp(Age(ttl, es)[k..]) == NextUp(es) - k
  {
    var aged, n := Age(ttl, es), NextUp(es);
    var k := Collected(ttl, aged);
    assert n < |es| ==> !Expired(ttl, aged[n]);
    assert forall i | 0 <= i < |aged| :: aged[i].dequeued == es[i].dequeued;
    NextUpIs(aged[k..], n - k);
  }

  // Ageing changes nothing but the countdown.
  lemma AgedTail(ttl: nat, es: seq<Entry>, k: nat)
    requires k <= |es|
    ensures forall i | 0 <= i < |es| - k ::
              var r, e := Age(ttl, es)[k..][i], es[k + i];
              r.dequeued == e.dequeued && r.done == e.done && r.msg == e.msg
  {
  }

  lemma ReclaimKeeps(h: History)
    requires Fifo(h) && Counted(h.q)
    ensures var k := Collected(h.q.ttl, Age(h.q.ttl, h.q.entries));
            Fifo(h.(q := Reclaim(h.q), reclaimed := h.reclaimed + k)) && Counted(Reclaim(h.q))
  {
    hide Age, Collected, NextUp;
    var k := Collected(h.q.ttl, Age(h.q.ttl, h.q.entries));
    ReclaimedBefore(h.q.ttl, h.q.entries);
    AgedTail(h.q.ttl, h.q.entries, k);
  }

  lemma AppendKeeps(h: History, e: Entry)
    requires Fifo(h) && Counted(h.q) && h.q.cnt <= ND_HIWAT && !e.dequeued && !e.done
    ensures var q := h.q.(entries := h.q.entries + [e], cnt := h.q.cnt + 1, ovfl := false);
            Fifo(h.(q := q, accepted := h.accepted + [e.msg])) && Counted(q)
  {
    hide NextUp;
    NextUpIs(h.q.entries + [e], NextUp(h.q.entries));
  }

  lemma DequeueKeeps(h: History)
    requires Fifo(h) && Counted(h.q)
    ensures Fifo(Step(h, OpDequeue)) && Counted(Dequeue(h.q))
  {
    hide NextUp;
    var n := NextUp(h.q.entries);
    if n < |h.q.entries| {
      NextUpIs(Dequeue(h.q).entries, n + 1);
      assert h.q.entries[n].msg == h.accepted[h.reclaimed + n];
    }
  }

  lemma CompleteKeeps(h: History, i: nat)
    requires Fifo(h) && Counted(h.q) && CanComplete(h.q, i)
    ensures Fifo(h.(q := Complete(h.q, i))) && Counted(Complete(h.q, i))
  {
    hide NextUp;
    NextUpIs(Complete(h.q, i).entries, NextUp(h.q.entries));
  }

  lemma StepKeepsFifo(h: History, op: Op)
    requires Fifo(h) && Counted(h.q) && Enabled(h, op)
    ensures Fifo(Step(h, op)) && Counted(Step(h, op).q)
  {
    hide Fifo, Counted, Collected, NextUp;
    match op
    case OpAlloc(s) =>
      ReclaimKeeps(h);
      var k := Collected(h.q.ttl, Age(h.q.ttl, h.q.entries));
      var h' := h.(q := Reclaim(h.q), reclaimed := h.reclaimed + k);
      if Refuses(h'.q) {
        RefusalKeeps(h');
      } else {
        AppendKeeps(h', Entry(Payload(s), false, false, h.q.ttl));
      }
    case OpDequeue => DequeueKeeps(h);
    case OpComplete(i) => CompleteKeeps(h, i);
    case OpCleanup => CleanStart(h.q.ttl);
  }

  lemma RefusalKeeps(h: History)
    requires Fifo(h) && Counted(h.q)
    ensures Fifo(h.(q := h.q.(ovfl := true))) && Counted(h.q.(ovfl := true))
  {
  }

  lemma CleanStart(ttl: nat)
    ensures Fifo(Fresh(ttl)) && Counted(Fresh(ttl).q)
  {
  }

  // Over every run of allocate, dequeue, complete and clean-up: messages come out once each, in the
  // order accepted, with what was accepted being exactly what came out plus what is still waiting.
  lemma {:induction false} EveryRunIsFifo(h: History, ops: seq<Op>)
    requires Fifo(h) && Counted(h.q) && Runs(h, ops)
    ensures Fifo(Run(h, ops)) && Counted(Run(h, ops).q)
    decreases |ops|
  {
    if ops != [] {
      StepKeepsFifo(h, ops[0]);
      EveryRunIsFifo(Step(h, ops[0]), ops[1..]);
    }
  }

  lemma DeliveredPlusWaiting(h: History)
    requires Fifo(h)
    ensures var n := NextUp(h.q.entries);
            && |h.accepted| - |h.delivered| == |h.q.entries| - n
            && h.accepted == h.delivered +
                 seq(|h.q.entries| - n, i requires 0 <= i < |h.q.entries| - n => h.q.entries[n + i].msg)
  {
  }

  lemma {:induction false} WaitingFrom(es: seq<Entry>, n: nat)
    requires n <= |es| && forall i | 0 <= i < |es| :: es[i].dequeued <==> i < n
    ensures Waiting(es) == |es| - n
  {
    if es != [] {
      WaitingFrom(es[1..], if n == 0 then 0 else n - 1);
    }
  }

  // So what nbuf_queued counts is cnt, and never more than 65.
  lemma QueuedIsCnt(h: History)
    requires Fifo(h) && Counted(h.q)
    ensures 0 <= Waiting(h.q.entries) == h.q.cnt <= 65
  {
    var n := NextUp(h.q.entries);
    assert n < |h.q.entries| ==> !h.q.entries[n].dequeued;
    WaitingFrom(h.q.entries, n);
  }

  // ----- Overflow hysteresis ----------------------------------------------------------------------

  // While it is in overflow and at or above the low-water mark, before every step of a run.
  ghost predicate StaysHigh(h: History, ops: seq<Op>)
    requires Runs(h, ops)
    decreases |ops|
  {
    ops == [] || (h.q.cnt >= ND_LOWAT && !ops[0].OpCleanup? && StaysHigh(Step(h, ops[0]), ops[1..]))
  }

  // After an overflow every allocation is refused for as long as cnt stays at or above the low-water
  // mark, however far below the high-water mark it falls.
  lemma {:induction false} RefusedUntilLow(h: History, ops: seq<Op>)
    requires h.q.ovfl && Runs(h, ops) && StaysHigh(h, ops)
    ensures Run(h, ops).q.ovfl && Run(h, ops).accepted == h.accepted
    decreases |ops|
  {
    if ops != [] {
      RefusedUntilLow(Step(h, ops[0]), ops[1..]);
    }
  }

  // The next allocation below the mark is accepted again, and leaves the overflow state.
  lemma AcceptedBelowLow(h: History, s: string)
    requires h.q.cnt < ND_LOWAT && Enabled(h, OpAlloc(s))
    ensures var h' := Step(h, OpAlloc(s));
            h'.accepted == h.accepted + [Payload(s)] && !h'.q.ovfl
            && h'.q.cnt == h.q.cnt + 1
  {
  }

  // Exactly which messages are refused, and what is kept of the others: the length is 16 bits.
  lemma RefusedIff(h: History, s: string)
    requires Enabled(h, OpAlloc(s))
    ensures var h', n := Step(h, OpAlloc(s)), h.q.cnt;
            && h'.accepted == (if (h.q.ovfl && n >= 32) || n > 64 then h.accepted else h.accepted + [s[..|s| % 65536]])
            && h'.q.ovfl == ((h.q.ovfl && n >= 32) || n > 64)
            && h'.delivered == h.delivered && h'.q.ttl == h.q.ttl
  {
    hide Collected, Age;
  }

  // A clean-up leaves a queue like a new one.
  lemma CleanupStartsAgain(h: History)
    ensures Step(h, OpCleanup) == Fresh(h.q.ttl)
    ensures var q := Fresh(h.q.ttl).q; q.entries == [] && q.cnt == 0 && !q.ovfl
  {
  }

  // ----- Reclamation without a ttl ----------------------------------------------------------------

  // Every descriptor starts with ttl 0 and nothing in the source sets it.  Then an allocation takes off
  // the buffers that are done up to the first that is not, and leaves the others as they were.
  lemma DonePrefixIsReclaimed(h: History, s: string)
    requires h.q.ttl == 0
    ensures Enabled(h, OpAlloc(s))
    ensures var h', es := Step(h, OpAlloc(s)), h.q.entries;
            var k := h'.reclaimed - h.reclaimed;
            && 0 <= k <= |es| && (forall i | 0 <= i < k :: es[i].done) && (k < |es| ==> !es[k].done)
            && h'.q.entries == es[k..] + if h'.q.ovfl then [] else [Entry(s[..|s| % 65536], false, false, 0)]
  {
    var es := h.q.entries;
    assert Age(0, es) == es;
    hide Collected;
  }

  // Which those are, one by one, and that the oldest one left is not done.
  lemma ReclaimedIff(h: History, s: string, i: nat)
    requires h.q.ttl == 0 && i < |h.q.entries|
    ensures var h' := Step(h, OpAlloc(s));
            && (i < h'.reclaimed - h.reclaimed <==> forall j | 0 <= j <= i :: h.q.entries[j].done)
            && (h'.q.entries != [] ==> !h'.q.entries[0].done)
  {
    DonePrefixIsReclaimed(h, s);
    hide Step;
  }

  // Buffers completed in the order they were dequeued.
  ghost predicate DoneFirst(es: seq<Entry>) {
    forall i, j | 0 <= i < j < |es| :: es[j].done ==> es[i].done
  }

  // The buffer that was the n-th accepted is still linked and done.
  ghost predicate DoneWaits(h: History, n: nat) {
    h.reclaimed <= n < h.reclaimed + |h.q.entries| && h.q.entries[n - h.reclaimed].done
  }

  lemma AllocWithoutTtl(h: History, s: string, n: nat)
    requires h.q.ttl == 0 && DoneFirst(h.q.entries) && Enabled(h, OpAlloc(s))
    ensures var h' := Step(h, OpAlloc(s));
            h'.q.ttl == 0 && DoneFirst(h'.q.entries) && (DoneWaits(h, n) ==> h'.reclaimed > n)
  {
    DonePrefixIsReclaimed(h, s);
    hide Step;
  }

  lemma StepWithoutTtl(h: History, op: Op, n: nat)
    requires h.q.ttl == 0 && DoneFirst(h.q.entries) && InOrder(h.q, op)
    ensures Enabled(h, op)
    ensures var h' := Step(h, op);
            && h'.q.ttl == 0 && DoneFirst(h'.q.entries)
            && (DoneWaits(h, n) && !op.OpCleanup? ==> if op.OpAlloc? then h'.reclaimed > n else DoneWaits(h', n))
  {
    if op.OpAlloc? {
      AllocWithoutTtl(h, op.s, n);
      hide Step;
    }
  }

  // Over every run with completions in dequeue order a completed buffer goes back to the pool on the next
  // allocation, and not before.
  lemma {:induction false} ReclaimedOnNextEnqueue(h: History, ops: seq<Op>, n: nat)
    requires h.q.ttl == 0 && DoneFirst(h.q.entries) && RunsInOrder(h, ops) && OpCleanup !in ops && DoneWaits(h, n)
    ensures Runs(h, ops)
    ensures if Allocations(ops) == 0 then DoneWaits(Run(h, ops), n) else Run(h, ops).reclaimed > n
    decreases |ops|
  {
    RunsWithoutTtl(h, ops);
    if ops != [] {
      StepWithoutTtl(h, ops[0], n);
      hide Step, Enabled;
      if ops[0].OpAlloc? {
        ReclaimedStays(Step(h, ops[0]), ops[1..], n);
      } else {
        ReclaimedOnNextEnqueue(Step(h, ops[0]), ops[1..], n);
      }
    }
  }

  lemma {:induction false} RunsWithoutTtl(h: History, ops: seq<Op>)
    requires h.q.ttl == 0 && DoneFirst(h.q.entries) && RunsInOrder(h, ops)
    ensures Runs(h, ops) && Run(h, ops).q.ttl == 0 && DoneFirst(Run(h, ops).q.entries)
    decreases |ops|
  {
    if ops != [] {
      StepWithoutTtl(h, ops[0], 0);
      hide Step, Enabled;
      RunsWithoutTtl(Step(h, ops[0]), ops[1..]);
    }
  }

  // Every buffer is completed before the next allocation.
  ghost predicate CompletedBetween(h: History, ops: seq<Op>)
    requires Runs(h, ops)
    decreases |ops|
  {
    ops == []
    || ((ops[0].OpAlloc? ==> forall i | 0 <= i < |h.q.entries| :: h.q.entries[i].done)
        && CompletedBetween(Step(h, ops[0]), ops[1..]))
  }

  // Then a connection holds one buffer at most, however long it lasts.
  lemma {:induction false} OneBufferAtMost(h: History, ops: seq<Op>)
    requires h.q.ttl == 0 && |h.q.entries| <= 1 && Runs(h, ops) && CompletedBetween(h, ops)
    ensures |Run(h, ops).q.entries| <= 1
    decreases |ops|
  {
    if ops != [] {
      if ops[0].OpAlloc? {
        DonePrefixIsReclaimed(h, ops[0].s);
        hide Step;
      }
      OneBufferAtMost(Step(h, ops[0]), ops[1..]);
    }
  }

  // ----- Delayed reclamation ----------------------------------------------------------------------

  // With a ttl and completions in dequeue order: done buffers are a prefix from the oldest end,
  // their countdowns are running and do not decrease along it.
  ghost predicate Counting(q: Queue) {
    q.ttl > 0 && CountingDown(q.ttl, q.entries)
  }

  ghost predicate CountingDown(ttl: nat, es: seq<Entry>) {
    && (forall i, j | 0 <= i < j < |es| :: es[j].done ==> es[i].done && es[i].ttl <= es[j].ttl)
    && (forall i | 0 <= i < |es| :: if es[i].done then 1 <= es[i].ttl <= ttl else es[i].ttl == ttl)
  }

  predicate InOrder(q: Queue, op: Op) {
    match op
    case OpComplete(i) => CanComplete(q, i) && forall j | 0 <= j < i :: q.entries[j].done
    case _ => true
  }

  ghost predicate RunsInOrder(h: History, ops: seq<Op>)
    decreases |ops|
  {
    ops == [] || (InOrder(h.q, ops[0]) && (Enabled(h, ops[0]) ==> RunsInOrder(Step(h, ops[0]), ops[1..])))
  }

  // The collecting loop takes exactly the buffers whose countdown has just run out.
  lemma CollectsExactlyExpired(q: Queue)
    requires Counting(q)
    ensures forall i | 0 <= i < |q.entries| ::
              i < Collected(q.ttl, Age(q.ttl, q.entries)) <==> q.entries[i].done && q.entries[i].ttl == 1
  {
    var es, aged := q.entries, Age(q.ttl, q.entries);
    var k := Collected(q.ttl, aged);
    forall i | 0 <= i < |es|
      ensures i < k <==> es[i].done && es[i].ttl == 1
    {
      assert Expired(q.ttl, aged[i]) <==> es[i].done && es[i].ttl == 1;
      assert k < |es| ==> !Expired(q.ttl, aged[k]);
    }
  }

  // What is left has not run out and is one call nearer to it.
  lemma ReclaimedEntry(q: Queue, i: nat)
    requires Counting(q) && Collected(q.ttl, Age(q.ttl, q.entries)) + i < |q.entries|
    ensures var e := q.entries[Collected(q.ttl, Age(q.ttl, q.entries)) + i];
            && i < |Reclaim(q).entries|
            && if e.done then e.ttl > 1 && Reclaim(q).entries[i] == e.(ttl := e.ttl - 1) else Reclaim(q).entries[i] == e
  {
    CollectsExactlyExpired(q);
    hide Collected;
    var aged := Age(q.ttl, q.entries);
    var k := Collected(q.ttl, aged);
    assert Reclaim(q).entries[i] == aged[k + i] == AgeEntry(q.entries[k + i]);
  }

  lemma ReclaimedEntries(q: Queue)
    requires Counting(q)
    ensures var k := Collected(q.ttl, Age(q.ttl, q.entries));
            && |Reclaim(q).entries| == |q.entries| - k
            && forall i | 0 <= i < |q.entries| - k ::
                 var e, r := q.entries[k + i], Reclaim(q).entries[i];
                 if e.done then e.ttl > 1 && r == e.(ttl := e.ttl - 1) else r == e
  {
    hide Collected, CountingDown;
    forall i | 0 <= i < |q.entries| - Collected(q.ttl, Age(q.ttl, q.entries)) {
      ReclaimedEntry(q, i);
    }
  }

  lemma TailKeepsCounting(ttl: nat, es: seq<Entry>, k: nat, r: seq<Entry>)
    requires CountingDown(ttl, es) && |r| + k == |es|
    requires forall i | 0 <= i < |r| ::
               if es[k + i].done then es[k + i].ttl > 1
                  && r[i] == es[k + i].(ttl := es[k + i].ttl - 1) else r[i] == es[k + i]
    ensures CountingDown(ttl, r)
  {
    forall i, j | 0 <= i < j < |r|
      ensures r[j].done ==> r[i].done && r[i].ttl <= r[j].ttl
    {
      var a, b := es[k + i], es[k + j];
    }
  }

  lemma CountingIs(q: Queue)
    ensures Counting(q) <==> q.ttl > 0 && CountingDown(q.ttl, q.entries)
    ensures Reclaim(q).ttl == q.ttl
  {
    hide CountingDown, Age, Collected;
  }

  lemma ReclaimKeepsCounting(q: Queue)
    requires Counting(q)
    ensures Counting(Reclaim(q))
  {
    hide *;
    CountingIs(q);
    CountingIs(Reclaim(q));
    ReclaimedEntries(q);
    TailKeepsCounting(q.ttl, q.entries, Collected(q.ttl, Age(q.ttl, q.entries)), Reclaim(q).entries);
  }

  lemma AppendKeepsCounting(q: Queue, e: Entry, cnt: int, ovfl: bool)
    requires Counting(q) && !e.done && e.ttl == q.ttl
    ensures Counting(Queue(q.entries + [e], q.ttl, cnt, ovfl))
  {
  }

  lemma CompleteKeepsCounting(q: Queue, i: nat)
    requires Counting(q) && InOrder(q, OpComplete(i))
    ensures Counting(Complete(q, i))
  {
  }

  lemma StepKeepsCounting(h: History, op: Op)
    requires Counting(h.q) && InOrder(h.q, op)
    ensures Enabled(h, op) && Counting(Step(h, op).q)
  {
    match op
    case OpAlloc(s) =>
      ReclaimKeepsCounting(h.q);
      hide Reclaim, Collected, CountingDown;
      AppendKeepsCounting(Reclaim(h.q), Entry(Payload(s), false, false, h.q.ttl), h.q.cnt + 1, false);
    case OpDequeue =>
    case OpComplete(i) => CompleteKeepsCounting(h.q, i);
    case OpCleanup =>
  }

  // The assertion on the countdown never fires, whatever the run.
  lemma {:induction false} InOrderRunsNeverAssert(h: History, ops: seq<Op>)
    requires Counting(h.q) && RunsInOrder(h, ops)
    ensures Runs(h, ops) && Counting(Run(h, ops).q)
    decreases |ops|
  {
    if ops != [] {
      StepKeepsCounting(h, ops[0]);
      InOrderRunsNeverAssert(Step(h, ops[0]), ops[1..]);
    }
  }

  function Allocations(ops: seq<Op>): nat {
    if ops == [] then 0 else (if ops[0].OpAlloc? then 1 else 0) + Allocations(ops[1..])
  }

  // The buffer that was the n-th accepted is still linked, done, with t enqueue calls to go.
  ghost predicate Lingers(h: History, n: nat, t: int) {
    h.reclaimed <= n < h.reclaimed + |h.q.entries| &&
    h.q.entries[n - h.reclaimed].done && h.q.entries[n - h.reclaimed].ttl == t
  }

  lemma AllocOfLingering(h: History, s: string, n: nat, t: nat)
    requires Counting(h.q) && Enabled(h, OpAlloc(s)) && Lingers(h, n, t)
    ensures var h' := Step(h, OpAlloc(s));
            if t == 1 then h'.reclaimed > n else Lingers(h', n, t - 1)
  {
    hide Collected, Age, Counting, Reclaim, Refuses, TtlAssertHolds;
    var i, k := n - h.reclaimed, Collected(h.q.ttl, Age(h.q.ttl, h.q.entries));
    ExpiringEntry(h.q, i);
    if t > 1 {
      ReclaimedEntry(h.q, i - k);
      assert Alloc(h.q, s).entries[i - k] == Reclaim(h.q).entries[i - k];
    }
  }

  lemma ExpiringEntry(q: Queue, i: nat)
    requires Counting(q) && i < |q.entries| && q.entries[i].done
    ensures i < Collected(q.ttl, Age(q.ttl, q.entries)) <==> q.entries[i].ttl == 1
    ensures q.entries[i].ttl >= 1
  {
    CollectsExactlyExpired(q);
  }

  lemma StepOfLingering(h: History, op: Op, n: nat, t: nat)
    requires Counting(h.q) && InOrder(h.q, op) && Enabled(h, op) && !op.OpCleanup? && Lingers(h, n, t)
    ensures var h' := Step(h, op);
            if op.OpAlloc? then (if t == 1 then h'.reclaimed > n else Lingers(h', n, t - 1)) else Lingers(h', n, t)
  {
    if op.OpAlloc? {
      AllocOfLingering(h, op.s, n, t);
      hide Lingers, Counting, Alloc, Reclaim, Collected;
    }
  }

  lemma {:induction false} ReclaimedStays(h: History, ops: seq<Op>, n: nat)
    requires Runs(h, ops) && h.reclaimed > n && OpCleanup !in ops
    ensures Run(h, ops).reclaimed > n
    decreases |ops|
  {
    if ops != [] {
      ReclaimedStays(Step(h, ops[0]), ops[1..], n);
    }
  }

  // A completed buffer goes back to the pool on exactly the t-th enqueue call from now, where t is
  // its countdown; just after completion t is the descriptor's ttl.
  lemma {:induction false} ReclaimedOnTtlThEnqueue(h: History, ops: seq<Op>, n: nat, t: nat)
    requires Counting(h.q) && RunsInOrder(h, ops) && OpCleanup !in ops && Lingers(h, n, t)
    ensures Runs(h, ops)
    ensures if Allocations(ops) < t then Lingers(Run(h, ops), n, t - Allocations(ops)) else Run(h, ops).reclaimed > n
    decreases |ops|
  {
    InOrderRunsNeverAssert(h, ops);
    if ops != [] {
      var h' := Step(h, ops[0]);
      StepKeepsCounting(h, ops[0]);
      StepOfLingering(h, ops[0], n, t);
      if ops[0].OpAlloc? && t == 1 {
        ReclaimedStays(h', ops[1..], n);
      } else {
        ReclaimedOnTtlThEnqueue(h', ops[1..], n, if ops[0].OpAlloc? then t - 1 else t);
      }
    }
  }

  lemma CompletionStartsCountdown(h: History, i: nat)
    requires Counting(h.q) && InOrder(h.q, OpComplete(i))
    ensures Lingers(Step(h, OpComplete(i)), h.reclaimed + i, h.q.ttl)
  {
  }

  lemma AssertHoldsOfRest(ttl: nat, aged: seq<Entry>, k: nat, e: Entry)
    requires ttl > 0 && k <= |aged| && !e.done
    ensures TtlAssertHolds(ttl, aged[k..] + [e]) <==> forall j | k <= j < |aged| :: !Expired(ttl, aged[j])
    ensures TtlAssertHolds(ttl, aged[k..]) <==> forall j | k <= j < |aged| :: !Expired(ttl, aged[j])
  {
    var rest := aged[k..];
    assert forall i | 0 <= i < |rest| :: rest[i] == aged[k + i] && (rest + [e])[i] == rest[i];
    forall j | k <= j < |aged|
      ensures rest[j - k] == aged[j] && (rest + [e])[j - k] == aged[j]
    {
    }
  }

  // With completions in any order, the assertion at the next enqueue call after an allocation holds
  // exactly when every buffer that has run out lies in front of all those that have not.
  lemma AssertHoldsNextTime(q: Queue, s: string)
    requires q.ttl > 0 && TtlAssertHolds(q.ttl, q.entries)
    ensures var aged := Age(q.ttl, q.entries);
            TtlAssertHolds(q.ttl, Alloc(q, s).entries) <==>
              forall i, j | 0 <= i < j < |aged| :: Expired(q.ttl, aged[j]) ==> Expired(q.ttl, aged[i])
  {
    hide TtlAssertHolds, Age;
    var aged := Age(q.ttl, q.entries);
    var k := Collected(q.ttl, aged);
    AssertHoldsOfRest(q.ttl, aged, k, Entry(Payload(s), false, false, q.ttl));
    assert k < |aged| ==> !Expired(q.ttl, aged[k]);
    hide Collected, Expired;
  }

  ghost predicate Reaches(h: History, ops: seq<Op>, h': History) {
    Runs(h, ops) && Run(h, ops) == h'
  }

  predicate Takes(h: History, op: Op, h': History) {
    Enabled(h, op) && Step(h, op) == h'
  }

  // With nothing completed, an allocation just adds its buffer.
  lemma QuietAlloc(h: History, s: string, h': History)
    requires h.q.ttl > 0 && !h.q.ovfl && h.q.cnt <= ND_HIWAT && |s| < 65536
    requires forall i | 0 <= i < |h.q.entries| :: !h.q.entries[i].done
    requires h'.q.entries == h.q.entries + [Entry(s, false, false, h.q.ttl)] && h'.accepted == h.accepted + [s]
    requires h'.q.ttl == h.q.ttl && h'.q.cnt == h.q.cnt + 1 && !h'.q.ovfl
    requires h'.delivered == h.delivered && h'.reclaimed == h.reclaimed
    ensures Takes(h, OpAlloc(s), h')
  {
    var aged := Age(h.q.ttl, h.q.entries);
    assert aged == h.q.entries;
    assert Collected(h.q.ttl, aged) == 0;
    assert aged[0..] == aged && Payload(s) == s;
  }

  lemma ReachFrom(h: History, op: Op, h1: History, ops: seq<Op>, h2: History)
    requires Takes(h, op, h1) && Reaches(h1, ops, h2)
    ensures Reaches(h, [op] + ops, h2)
  {
    assert ([op] + ops)[1..] == ops;
    hide Enabled, Step;
  }

  // Two buffers, of which some are dequeued, and "b" may be completed.
  function TwoBuffers(loaned: nat, bDone: bool): History
    requires loaned <= 2
  {
    History(Queue([Entry("a", loaned > 0, false, 1), Entry("b", loaned > 1, bDone, 1)], 1, 2 - loaned, false),
            ["a", "b"], ["a", "b"][..loaned], 0)
  }

  function OneBuffer(): History {
    History(Queue([Entry("a", false, false, 1)], 1, 1, false), ["a"], [], 0)
  }

  lemma Allocated()
    ensures Takes(Fresh(1), OpAlloc("a"), OneBuffer())
    ensures Takes(OneBuffer(), OpAlloc("b"), TwoBuffers(0, false))
  {
    assert [] + [Entry("a", false, false, 1)] == OneBuffer().q.entries && [] + ["a"] == ["a"];
    assert OneBuffer().q.entries + [Entry("b", false, false, 1)] == TwoBuffers(0, false).q.entries
           && ["a"] + ["b"] == ["a", "b"];
    hide Takes;
    QuietAlloc(Fresh(1), "a", OneBuffer());
    QuietAlloc(OneBuffer(), "b", TwoBuffers(0, false));
  }

  lemma Dequeued()
    ensures Takes(TwoBuffers(0, false), OpDequeue, TwoBuffers(1, false))
    ensures Takes(TwoBuffers(1, false), OpDequeue, TwoBuffers(2, false))
  {
    var es := TwoBuffers(1, false).q.entries;
    assert NextUp(es[1..]) == 0 && NextUp(es) == 1;
    assert ["a", "b"][..1] == ["a"] && ["a", "b"][..2] == ["a", "b"];
  }

  lemma WrongOneDone()
    ensures Takes(TwoBuffers(2, false), OpComplete(1), TwoBuffers(2, true))
    ensures Enabled(TwoBuffers(2, true), OpAlloc("c"))
    ensures forall s :: !Enabled(Step(TwoBuffers(2, true), OpAlloc("c")), OpAlloc(s))
  {
    var q := TwoBuffers(2, true).q;
    var aged := Age(1, q.entries);
    assert Expired(1, aged[1]) && !Expired(1, aged[0]);
    AssertHoldsNextTime(q, "c");
  }

  // It can fire, in a run from the start: with ttl 1, the younger of two dequeued buffers completed first.
  lemma OutOfOrderCompletionAsserts()
    ensures var ops := [OpAlloc("a"), OpAlloc("b"), OpDequeue, OpDequeue, OpComplete(1), OpAlloc("c")];
            Runs(Fresh(1), ops) && forall s :: !Enabled(Run(Fresh(1), ops), OpAlloc(s))
  {
    WrongOneDone();
    var last := Step(TwoBuffers(2, true), OpAlloc("c"));
    assert Takes(TwoBuffers(2, true), OpAlloc("c"), last) && Reaches(last, [], last);
    JoinOps();
    hide Step, Enabled, TwoBuffers, OneBuffer, Takes;
    Allocated();
    Dequeued();
    ReachFrom(TwoBuffers(2, true), OpAlloc("c"), last, [], last);
    ReachFrom(TwoBuffers(2, false), OpComplete(1), TwoBuffers(2, true), [OpAlloc("c")], last);
    ReachFrom(TwoBuffers(1, false), OpDequeue, TwoBuffers(2, false), [OpComplete(1), OpAlloc("c")], last);
    ReachFrom(TwoBuffers(0, false), OpDequeue, TwoBuffers(1, false), [OpDequeue, OpComplete(1), OpAlloc("c")], last);
    ReachFrom(OneBuffer(), OpAlloc("b"), TwoBuffers(0, false), [OpDequeue, OpDequeue, OpComplete(1), OpAlloc("c")],
      last);
    ReachFrom(Fresh(1), OpAlloc("a"), OneBuffer(), [OpAlloc("b"), OpDequeue, OpDequeue, OpComplete(1), OpAlloc("c")],
      last);
  }

  lemma JoinOps()
    ensures [OpAlloc("c")] + [] == [OpAlloc("c")]
    ensures [OpComplete(1)] + [OpAlloc("c")] == [OpComplete(1), OpAlloc("c")]
    ensures [OpDequeue] + [OpComplete(1), OpAlloc("c")] == [OpDequeue, OpComplete(1), OpAlloc("c")]
    ensures [OpDequeue] + [OpDequeue, OpComplete(1), OpAlloc("c")]
            == [OpDequeue, OpDequeue, OpComplete(1), OpAlloc("c")]
    ensures var tail := [OpDequeue, OpDequeue, OpComplete(1), OpAlloc("c")];
            [OpAlloc("b")] + tail == [OpAlloc("b"), OpDequeue, OpDequeue, OpComplete(1), OpAlloc("c")] &&
            [OpAlloc("a")] + [OpAlloc("b"), OpDequeue, OpDequeue, OpComplete(1), OpAlloc("c")]
            == [OpAlloc("a"), OpAlloc("b"), OpDequeue, OpDequeue, OpComplete(1), OpAlloc("c")]
  {
  }
}
