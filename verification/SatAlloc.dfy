/** Which channel tracks which satellite: the search task of gps/search.cpp and the channel tasks of
    gps/channel.cpp, as steps between the points where one task lets another run. */
module SatAlloc {
  import opened Wrappers

  datatype SatType = Navstar | Sbas | Qzss | E1b

  // gps_chans, the satellites' types, and gps.n_QZSS.
  datatype Setup = Setup(chans: nat, types: seq<SatType>) {
    function QzssCount(): nat { Count(seq(|types|, i requires 0 <= i < |types| => types[i] == Qzss)) }
  }

  // What the search task is at: looking for a satellite, correlating for one whose channel is reset, or
  // starting a channel, before its bit in BusyFlags is set.
  datatype Phase = Looking | Correlating(ch: nat, sat: nat) | Starting(ch: nat, sat: nat)

  // Sats[].busy, BusyFlags and Chans[].sat.
  datatype State = State(busy: seq<bool>, flags: seq<bool>, sats: seq<nat>, phase: Phase)

  predicate Shaped(p: Setup, s: State) {
    && |s.busy| == |p.types| && |s.flags| == |s.sats| == p.chans
    && p.types != [] && (forall c | 0 <= c < p.chans :: s.sats[c] < |p.types|)
    && (s.phase.Looking? || (s.phase.ch < p.chans && s.phase.sat < |p.types|))
  }

  function Initial(p: Setup): State {
    State(seq(|p.types|, i => false), seq(p.chans, c => false), seq(p.chans, c => 0), Looking)
  }

  // ----- Counting ---------------------------------------------------------------------------------

  function Count(b: seq<bool>): (n: nat)
    ensures n <= |b|
  {
    if b == [] then 0 else Count(b[..|b| - 1]) + if b[|b| - 1] then 1 else 0
  }

  lemma {:induction false} CountUpdate(b: seq<bool>, i: nat, x: bool)
    requires i < |b|
    ensures Count(b[i := x]) == Count(b) - (if b[i] then 1 else 0) + (if x then 1 else 0)
  {
    var n := |b| - 1;
    if i == n {
      assert b[i := x][..n] == b[..n];
    } else {
      assert b[i := x][..n] == b[..n][i := x];
      CountUpdate(b[..n], i, x);
    }
  }

  lemma {:induction false} CountLess(a: seq<bool>, b: seq<bool>)
    requires |a| == |b| && forall i | 0 <= i < |a| :: a[i] ==> b[i]
    ensures Count(a) <= Count(b)
  {
    if a != [] {
      CountLess(a[..|a| - 1], b[..|b| - 1]);
    }
  }

  lemma {:induction false} CountSplit(a: seq<bool>, b: seq<bool>, c: seq<bool>)
    requires |a| == |b| == |c| && forall i | 0 <= i < |a| :: (c[i] <==> a[i] || b[i]) && !(a[i] && b[i])
    ensures Count(c) == Count(a) + Count(b)
  {
    if a != [] {
      CountSplit(a[..|a| - 1], b[..|b| - 1], c[..|c| - 1]);
    }
  }

  // The channels busy with a satellite of QZSS, or of another system.
  function BusyWith(p: Setup, flags: seq<bool>, sats: seq<nat>, qzss: bool): (r: seq<bool>)
    requires |flags| == |sats|
    ensures |r| == |flags|
  {
    seq(|flags|, c requires 0 <= c < |flags| => flags[c] && sats[c] < |p.types| && (p.types[sats[c]] == Qzss) == qzss)
  }

  // ----- Choosing a channel -----------------------------------------------------------------------

  const RESERVED := 2

  function Min(a: int, b: int): int {
    if a < b then a else b
  }

  // With priority for QZSS the last channels are kept for it.
  predicate Limited(p: Setup, s: State)
    requires |s.flags| == |s.sats|
  {
    p.chans - Count(s.flags) <= Min(RESERVED, p.QzssCount() - Count(BusyWith(p, s.flags, s.sats, true)))
  }

  function FirstFree(flags: seq<bool>): (r: Option<nat>)
    ensures match r
            case None => forall c | 0 <= c < |flags| :: flags[c]
            case Some(i) => i < |flags| && !flags[i] && forall c | 0 <= c < i :: flags[c]
  {
    if flags == [] then None
    else if !flags[0] then Some(0)
    else
      var r := FirstFree(flags[1..]);
      assert forall c | 1 <= c < |flags| :: flags[c] == flags[1..][c - 1];
      if r.Some? then Some(r.value + 1) else None
  }

  // ChanReset: the channel for a satellite, if it may have one.
  function Choice(p: Setup, s: State, sat: nat, prio: bool): Option<nat>
    requires Shaped(p, s) && sat < |p.types|
  {
    if prio && Limited(p, s) && p.types[sat] != Qzss then None else FirstFree(s.flags)
  }

  lemma {:induction false} CountIsSize(b: seq<bool>)
    ensures Count(b) == |set i | 0 <= i < |b| && b[i]|
  {
    if b != [] {
      var n := |b| - 1;
      CountIsSize(b[..n]);
      var part := set i | 0 <= i < n && b[..n][i];
      assert (set i | 0 <= i < |b| && b[i]) == part + if b[n] then {n} else {};
    }
  }

  function FreeChannels(s: State): set<int> {
    set c | 0 <= c < |s.flags| && !s.flags[c]
  }

  function QzssChannels(p: Setup, s: State): set<int>
    requires Shaped(p, s)
  {
    set c | 0 <= c < |s.flags| && s.flags[c] && p.types[s.sats[c]] == Qzss
  }

  function QzssSatellites(p: Setup): set<int> {
    set i | 0 <= i < |p.types| && p.types[i] == Qzss
  }

  // All channels are busy, or no more are free than are kept for those satellites of QZSS that have none:
  // two at most.
  predicate Refused(p: Setup, s: State, sat: nat, prio: bool)
    requires Shaped(p, s) && sat < |p.types|
  {
    FreeChannels(s) == {}
    || (prio && p.types[sat] != Qzss
        && |FreeChannels(s)| <= 2 && |FreeChannels(s)| <= |QzssSatellites(p)| - |QzssChannels(p, s)|)
  }

  lemma {:induction false} RestIsSize(b: seq<bool>)
    ensures |b| - Count(b) == |set i | 0 <= i < |b| && !b[i]|
  {
    if b != [] {
      var n := |b| - 1;
      RestIsSize(b[..n]);
      var part := set i | 0 <= i < n && !b[..n][i];
      assert (set i | 0 <= i < |b| && !b[i]) == part + if b[n] then {} else {n};
    }
  }

  lemma LimitedIs(p: Setup, s: State)
    requires Shaped(p, s)
    ensures Limited(p, s)
            <==> |FreeChannels(s)| <= 2 && |FreeChannels(s)| <= |QzssSatellites(p)| - |QzssChannels(p, s)|
  {
    var q := BusyWith(p, s.flags, s.sats, true);
    var t := seq(|p.types|, i requires 0 <= i < |p.types| => p.types[i] == Qzss);
    RestIsSize(s.flags);
    CountIsSize(q);
    CountIsSize(t);
    assert (set c | 0 <= c < |q| && q[c]) == QzssChannels(p, s);
    assert (set c | 0 <= c < |t| && t[c]) == QzssSatellites(p);
    hide Count, FreeChannels;
  }

  // Exactly when a satellite is given no channel; any other is given the first free one.
  lemma ChoiceIff(p: Setup, s: State, sat: nat, prio: bool)
    requires Shaped(p, s) && sat < |p.types|
    ensures match Choice(p, s, sat, prio)
            case None => Refused(p, s, sat, prio)
            case Some(c) =>
              !Refused(p, s, sat, prio) && c < p.chans && !s.flags[c] && forall j | 0 <= j < c :: s.flags[j]
  {
    LimitedIs(p, s);
    var r := FirstFree(s.flags);
    assert r.Some? ==> r.value in FreeChannels(s);
    assert r.None? ==> FreeChannels(s) == {};
    hide Limited, QzssSatellites, QzssChannels;
  }

  // ----- Steps ------------------------------------------------------------------------------------

  datatype Event =
    | Look(sat: nat, prio: bool)      // the search comes to a satellite, with or without QZSS priority
    | Weak                            // it is not received
    | Strong                          // it is: Sats[].busy is set, the channel is being started
    | Started                         // the channel's bit in BusyFlags is set
    | Lost(ch: nat)                   // a channel task ends: SignalLost

  function Step(p: Setup, s: State, e: Event): (r: Option<State>)
    requires Shaped(p, s)
    ensures r.Some? ==> Shaped(p, r.value)
  {
    match (e, s.phase)
    case (Look(sat, prio), Looking) =>
      if sat >= |p.types| then None
      else if s.busy[sat] then Some(s)
      else (match Choice(p, s, sat, prio)
        case None => Some(s)
        case Some(ch) => Some(s.(sats := s.sats[ch := sat], phase := Correlating(ch, sat))))
    case (Weak, Correlating(_, _)) => Some(s.(phase := Looking))
    case (Strong, Correlating(ch, sat)) => Some(s.(busy := s.busy[sat := true], phase := Starting(ch, sat)))
    case (Started, Starting(ch, sat)) => Some(s.(flags := s.flags[ch := true], phase := Looking))
    case (Lost(ch), _) =>
      if ch < p.chans && s.flags[ch] && s.sats[ch] < |p.types|
      then Some(s.(busy := s.busy[s.sats[ch] := false], flags := s.flags[ch := false]))
      else None
    case _ => None
  }

  function Run(p: Setup, s: State, es: seq<Event>): Option<State>
    requires Shaped(p, s)
    decreases |es|
  {
    if es == [] then Some(s)
    else
      match Step(p, s, es[0])
      case None => None
      case Some(t) => Run(p, t, es[1..])
  }

  // ----- One channel for a satellite --------------------------------------------------------------

  // The channel is busy with the satellite or being started on it.
  predicate Tracks(s: State, c: nat, sat: nat)
    requires |s.flags| == |s.sats|
  {
    c < |s.flags| && s.sats[c] == sat && (s.flags[c] || s.phase == Starting(c, sat))
  }

  // The marks agree with the channels, and no satellite has two.
  ghost predicate Exclusive(p: Setup, s: State) {
    && Shaped(p, s)
    && (forall sat | 0 <= sat < |s.busy| :: s.busy[sat] <==> exists c: nat :: Tracks(s, c, sat))
    && (forall c, d, sat: nat | Tracks(s, c, sat) && Tracks(s, d, sat) :: c == d)
    && (!s.phase.Looking? ==> !s.flags[s.phase.ch] && s.sats[s.phase.ch] == s.phase.sat)
    && (s.phase.Correlating? ==> !s.busy[s.phase.sat])
  }

  lemma StartsExclusive(p: Setup)
    requires p.types != []
    ensures Exclusive(p, Initial(p))
  {
    var s := Initial(p);
    assert forall c: nat, sat: nat :: !Tracks(s, c, sat);
  }

  lemma StaysExclusive(p: Setup, s: State, e: Event)
    requires Exclusive(p, s) && Step(p, s, e).Some?
    ensures Exclusive(p, Step(p, s, e).value)
  {
    var t := Step(p, s, e).value;
    match e
    case Look(sat, prio) =>
      assert forall c: nat, x: nat :: Tracks(t, c, x) <==> Tracks(s, c, x);
    case Weak =>
      assert forall c: nat, x: nat :: Tracks(t, c, x) <==> Tracks(s, c, x);
    case Strong =>
      var ch, sat := s.phase.ch, s.phase.sat;
      assert Tracks(t, ch, sat);
      assert forall c: nat, x: nat :: Tracks(t, c, x) <==> Tracks(s, c, x) || (c == ch && x == sat);
    case Started =>
      assert forall c: nat, x: nat :: Tracks(t, c, x) <==> Tracks(s, c, x);
    case Lost(ch) =>
      assert Tracks(s, ch, s.sats[ch]);
      assert forall c: nat, x: nat :: Tracks(t, c, x) <==> Tracks(s, c, x) && c != ch;
  }

  // Whatever the search and the channels do, in whatever order: a satellite is marked busy exactly if
  // a channel is busy with it or being started on it, and then that is the only one.
  lemma {:induction false} AlwaysExclusive(p: Setup, s: State, es: seq<Event>)
    requires Exclusive(p, s) && Run(p, s, es).Some?
    ensures Exclusive(p, Run(p, s, es).value)
    decreases |es|
  {
    if es != [] {
      StaysExclusive(p, s, es[0]);
      AlwaysExclusive(p, Step(p, s, es[0]).value, es[1..]);
    }
  }

  // ----- Channels kept for QZSS -------------------------------------------------------------------

  // The channels that track, or are to track, a satellite of another system.
  function Others(p: Setup, s: State): (r: seq<bool>)
    requires |s.flags| == |s.sats|
    ensures |r| == |s.flags|
  {
    seq(|s.flags|, c requires 0 <= c < |s.flags| =>
      (s.flags[c] || (!s.phase.Looking? && s.phase.ch == c)) && s.sats[c] < |p.types| && p.types[s.sats[c]] != Qzss)
  }

  predicate Reserved(p: Setup, s: State)
    requires |s.flags| == |s.sats|
  {
    Count(Others(p, s)) == 0 || Count(Others(p, s)) <= p.chans - Min(RESERVED, p.QzssCount())
  }

  lemma BusySplit(p: Setup, s: State)
    requires Shaped(p, s)
    ensures Count(s.flags) == Count(BusyWith(p, s.flags, s.sats, true)) + Count(BusyWith(p, s.flags, s.sats, false))
  {
    CountSplit(BusyWith(p, s.flags, s.sats, true), BusyWith(p, s.flags, s.sats, false), s.flags);
  }

  lemma LookStaysReserved(p: Setup, s: State, sat: nat)
    requires Exclusive(p, s) && Reserved(p, s) && s.phase.Looking? && Step(p, s, Look(sat, true)).Some?
    ensures Reserved(p, Step(p, s, Look(sat, true)).value)
  {
    var t := Step(p, s, Look(sat, true)).value;
    if t.phase.Correlating? {
      var ch := t.phase.ch;
      assert Others(p, t) == Others(p, s)[ch := p.types[sat] != Qzss];
      CountUpdate(Others(p, s), ch, p.types[sat] != Qzss);
      assert Others(p, s) == BusyWith(p, s.flags, s.sats, false);
      BusySplit(p, s);
    }
  }

  lemma StaysReserved(p: Setup, s: State, e: Event)
    requires Exclusive(p, s) && Reserved(p, s) && Step(p, s, e).Some? && (e.Look? ==> e.prio)
    ensures Reserved(p, Step(p, s, e).value)
  {
    var t := Step(p, s, e).value;
    if e.Look? {
      LookStaysReserved(p, s, e.sat);
    } else {
      CountLess(Others(p, t), Others(p, s));
    }
  }

  // With priority for QZSS all the time, satellites of other systems never have more than
  // gps_chans - min(2, n_QZSS) channels, if that leaves them any.
  lemma {:induction false} AlwaysReserved(p: Setup, s: State, es: seq<Event>)
    requires Exclusive(p, s) && Reserved(p, s) && Run(p, s, es).Some?
    requires forall i | 0 <= i < |es| :: es[i].Look? ==> es[i].prio
    ensures Exclusive(p, Run(p, s, es).value) && Reserved(p, Run(p, s, es).value)
    decreases |es|
  {
    if es != [] {
      StaysExclusive(p, s, es[0]);
      StaysReserved(p, s, es[0]);
      AlwaysReserved(p, Step(p, s, es[0]).value, es[1..]);
    }
  }

  // From the beginning.
  lemma FromTheStart(p: Setup, es: seq<Event>)
    requires p.types != [] && Run(p, Initial(p), es).Some?
    ensures Exclusive(p, Run(p, Initial(p), es).value)
    ensures (forall i | 0 <= i < |es| :: es[i].Look? ==> es[i].prio) ==> Reserved(p, Run(p, Initial(p), es).value)
  {
    StartsExclusive(p);
    AlwaysExclusive(p, Initial(p), es);
    NoneBusy(Others(p, Initial(p)));
    if forall i | 0 <= i < |es| :: es[i].Look? ==> es[i].prio {
      AlwaysReserved(p, Initial(p), es);
    }
  }

  lemma {:induction false} NoneBusy(b: seq<bool>)
    requires forall i | 0 <= i < |b| :: !b[i]
    ensures Count(b) == 0
  {
    if b != [] {
      NoneBusy(b[..|b| - 1]);
    }
  }

  // The bound needs the priority to be on throughout: without it the one channel goes to Navstar.
  lemma PriorityOffBreaksIt()
    ensures var p := Setup(1, [Navstar, Qzss]);
            var r := Run(p, Initial(p), [Look(0, false), Strong, Started]);
            r.Some? && !Reserved(p, r.value)
  {
    var p := Setup(1, [Navstar, Qzss]);
    var s0 := Initial(p);
    var s1 := s0.(sats := s0.sats[0 := 0], phase := Correlating(0, 0));
    var s2 := s1.(busy := s1.busy[0 := true], phase := Starting(0, 0));
    var s3 := s2.(flags := s2.flags[0 := true], phase := Looking);
    assert Step(p, s0, Look(0, false)) == Some(s1);
    var es := [Look(0, false), Strong, Started];
    assert es[1..] == [Strong, Started] && es[1..][1..] == [Started] && es[1..][1..][1..] == [];
    assert Run(p, s0, es) == Run(p, s1, es[1..]) == Run(p, s2, es[1..][1..]) == Run(p, s3, []);
    assert Others(p, s3) == [true] && [true][..0] == [];
    var q := seq(|p.types|, i requires 0 <= i < |p.types| => p.types[i] == Qzss);
    assert q == [false, true] && q[..1] == [false] && q[..1][..0] == [];
    assert Count(q) == 1;
  }

  // ----- Channels given ---------------------------------------------------------------------------

  // From a satellite the search comes to, through its being heard, to its channel's being busy.
  function Acquired(p: Setup, s: State, sat: nat, prio: bool): Option<State>
    requires Shaped(p, s)
  {
    Run(p, s, [Look(sat, prio), Strong, Started])
  }

  lemma RunOfThree(p: Setup, s: State, a: Event, b: Event, c: Event)
    requires Shaped(p, s)
    ensures Run(p, s, [a, b, c])
         == match Step(p, s, a)
            case None => None
            case Some(t) => match Step(p, t, b) case None => None case Some(u) => Step(p, u, c)
  {
    assert [a, b, c] == [a] + [b, c] && [b, c] == [b] + [c] && [c] == [c] + [];
    hide *;
    RunOfOne(p, s, a, [b, c]);
    if t :| Step(p, s, a) == Some(t) {
      RunOfOne(p, t, b, [c]);
      if u :| Step(p, t, b) == Some(u) {
        RunOfOne(p, u, c, []);
        RunOfNone(p, u, c);
      }
    }
  }

  lemma RunOfOne(p: Setup, s: State, e: Event, es: seq<Event>)
    requires Shaped(p, s)
    ensures Run(p, s, [e] + es) == match Step(p, s, e) case None => None case Some(t) => Run(p, t, es)
  {
    assert ([e] + es)[1..] == es;
    hide Step;
  }

  lemma RunOfNone(p: Setup, s: State, e: Event)
    requires Shaped(p, s)
    ensures match Step(p, s, e) case None => true case Some(t) => Run(p, t, []) == Some(t)
  {
    hide Step;
  }

  // A satellite that is heard, and has no channel yet, is tracked on the first free channel, unless it
  // is refused one; then nothing changes.
  lemma HeardIsTracked(p: Setup, s: State, sat: nat, prio: bool)
    requires Shaped(p, s) && s.phase.Looking? && sat < |p.types| && !s.busy[sat]
    ensures Refused(p, s, sat, prio) ==> Step(p, s, Look(sat, prio)) == Some(s) && Acquired(p, s, sat, prio) == None
    ensures !Refused(p, s, sat, prio) ==>
              exists c: nat ::
                && c < p.chans && !s.flags[c] && (forall j | 0 <= j < c :: s.flags[j])
                && Acquired(p, s, sat, prio)
                   == Some(State(s.busy[sat := true], s.flags[c := true], s.sats[c := sat], Looking))
  {
    ChoiceIff(p, s, sat, prio);
    RunOfThree(p, s, Look(sat, prio), Strong, Started);
    hide Refused, Choice, Run;
  }

  lemma {:induction false} RunJoins(p: Setup, s: State, a: seq<Event>, b: seq<Event>)
    requires Shaped(p, s) && Run(p, s, a).Some?
    ensures Shaped(p, Run(p, s, a).value) && Run(p, s, a + b) == Run(p, Run(p, s, a).value, b)
    decreases |a|
  {
    if a == [] {
      assert a + b == b;
    } else {
      assert (a + b)[1..] == a[1..] + b;
      hide Step;
      RunJoins(p, Step(p, s, a[0]).value, a[1..], b);
    }
  }

  // The search comes to these satellites, with priority on, and hears each of them.
  function Hearing(sats: seq<nat>): (es: seq<Event>)
    ensures forall i | 0 <= i < |es| :: es[i].Look? ==> es[i].prio
  {
    if sats == [] then [] else Hearing(sats[..|sats| - 1]) + [Look(sats[|sats| - 1], true), Strong, Started]
  }

  // These satellites are tracked, each on its channel, and no others.
  function Tracking(p: Setup, sats: seq<nat>): State {
    State(seq(|p.types|, i => i in sats), seq(p.chans, c => c < |sats|),
          seq(p.chans, c requires 0 <= c => if c < |sats| then sats[c] else 0), Looking)
  }

  // Satellites of other systems, as many as there are channels that are not kept.
  predicate Crowd(p: Setup, sats: seq<nat>) {
    && (forall i | 0 <= i < |sats| :: sats[i] < |p.types| && p.types[sats[i]] != Qzss)
    && (forall i, j | 0 <= i < j < |sats| :: sats[i] != sats[j])
    && (sats != [] ==> |sats| <= p.chans - 2 || |sats| <= p.chans - |QzssSatellites(p)|)
    && |sats| <= p.chans
  }

  lemma CrowdBefore(p: Setup, sats: seq<nat>)
    requires Crowd(p, sats) && sats != []
    ensures Crowd(p, sats[..|sats| - 1])
  {
    hide QzssSatellites;
  }

  lemma NotRefused(p: Setup, sats: seq<nat>, sat: nat)
    requires p.types != [] && Crowd(p, sats + [sat])
    ensures Shaped(p, Tracking(p, sats)) && sat < |p.types| && !Refused(p, Tracking(p, sats), sat, true)
            && !Tracking(p, sats).busy[sat]
  {
    var s, all := Tracking(p, sats), sats + [sat];
    assert all[|sats|] == sat && forall i | 0 <= i < |sats| :: all[i] == sats[i];
    CountOfFirst(s.flags, |sats|);
    RestIsSize(s.flags);
    assert QzssChannels(p, s) == {};
    assert |FreeChannels(s)| == p.chans - |sats|;
  }

  lemma {:induction false} CountOfFirst(b: seq<bool>, n: nat)
    requires n <= |b| && forall i | 0 <= i < |b| :: b[i] == (i < n)
    ensures Count(b) == n
  {
    if b != [] {
      CountOfFirst(b[..|b| - 1], if n < |b| then n else n - 1);
    }
  }

  lemma OneMoreTracked(p: Setup, sats: seq<nat>, sat: nat, c: nat)
    requires p.types != [] && Crowd(p, sats + [sat]) && sat < |p.types|
    requires var s := Tracking(p, sats); c < p.chans && !s.flags[c] && forall j | 0 <= j < c :: s.flags[j]
    ensures var s := Tracking(p, sats);
            State(s.busy[sat := true], s.flags[c := true], s.sats[c := sat], Looking) == Tracking(p, sats + [sat])
  {
    var s, all := Tracking(p, sats), sats + [sat];
    assert !s.flags[|sats|] && forall j | 0 <= j < |sats| :: s.flags[j];
    assert c == |sats|;
    forall i | 0 <= i < |p.types| ensures s.busy[sat := true][i] == (i in all) {
    }
  }

  lemma {:induction false} CrowdIsTracked(p: Setup, sats: seq<nat>)
    requires p.types != [] && Crowd(p, sats)
    ensures Run(p, Initial(p), Hearing(sats)) == Some(Tracking(p, sats))
    decreases |sats|
  {
    if sats == [] {
      assert Tracking(p, sats) == Initial(p);
    } else {
      var few, sat := sats[..|sats| - 1], sats[|sats| - 1];
      assert few + [sat] == sats;
      CrowdBefore(p, sats);
      CrowdIsTracked(p, few);
      NotRefused(p, few, sat);
      hide *;
      var s := Tracking(p, few);
      InitialIsShaped(p);
      JoinHearing(p, few, sat, s);
      HeardIsTracked(p, s, sat, true);
      LooksOn(p, few);
      var c: nat :| c < p.chans && !s.flags[c] && (forall j | 0 <= j < c :: s.flags[j])
        && Acquired(p, s, sat, true)
           == Some(State(s.busy[sat := true], s.flags[c := true], s.sats[c := sat], Looking));
      OneMoreTracked(p, few, sat, c);
    }
  }

  lemma InitialIsShaped(p: Setup)
    requires p.types != []
    ensures Shaped(p, Initial(p))
  {
  }

  lemma LooksOn(p: Setup, sats: seq<nat>)
    ensures Tracking(p, sats).phase == Looking
  {
  }

  lemma JoinHearing(p: Setup, few: seq<nat>, sat: nat, s: State)
    requires p.types != [] && Shaped(p, Initial(p)) && Run(p, Initial(p), Hearing(few)) == Some(s)
    ensures Shaped(p, s) && Run(p, Initial(p), Hearing(few + [sat])) == Acquired(p, s, sat, true)
  {
    var all := few + [sat];
    assert all[..|all| - 1] == few && all[|all| - 1] == sat;
    RunJoins(p, Initial(p), Hearing(few), [Look(sat, true), Strong, Started]);
    hide Run, Initial;
  }

  // In any setup, with priority on all the time, satellites of other systems can come to have as many
  // channels as they are let have.
  lemma BoundIsReached(p: Setup, sats: seq<nat>)
    requires forall i | 0 <= i < |sats| :: sats[i] < |p.types| && p.types[sats[i]] != Qzss
    requires forall i, j | 0 <= i < j < |sats| :: sats[i] != sats[j]
    requires p.types != []
             && |sats| == p.chans - if |QzssSatellites(p)| < 2 then |QzssSatellites(p)| else 2
    ensures var s := Tracking(p, sats); Run(p, Initial(p), Hearing(sats)) == Some(s) && Count(Others(p, s)) == |sats|
  {
    CrowdIsTracked(p, sats);
    var s := Tracking(p, sats);
    CountOfFirst(Others(p, s), |sats|);
  }

  // ----- The code ---------------------------------------------------------------------------------

  class Receiver {
    const setup: Setup
    const busy: array<bool>         // Sats[].busy
    const flags: array<bool>        // the bits of BusyFlags
    const sats: array<nat>          // Chans[].sat
    var phase: Phase

    ghost function Now(): State
      reads this, busy, flags, sats
    {
      State(busy[..], flags[..], sats[..], phase)
    }

    ghost predicate Valid()
      reads this, busy, flags, sats
    {
      busy != flags && Shaped(setup, Now())
    }

    constructor (setup: Setup)
      requires setup.types != []
      ensures Valid() && this.setup == setup && Now() == Initial(setup) && fresh(busy) && fresh(flags) && fresh(sats)
    {
      this.setup := setup;
      busy := new bool[|setup.types|](i => false);
      flags := new bool[setup.chans](c => false);
      sats := new nat[setup.chans](c => 0);
      phase := Looking;
    }

    // The loop of ChanReset that counts.
    method Counted() returns (limited: bool)
      requires Valid()
      ensures limited == Limited(setup, Now())
    {
      var nbusy, qzss, ch := 0, 0, 0;
      while ch < setup.chans
        invariant ch <= setup.chans
        invariant nbusy == Count(flags[..][..ch]) && qzss == Count(BusyWith(setup, flags[..], sats[..], true)[..ch])
      {
        PrefixCount(flags[..], ch);
        PrefixCount(BusyWith(setup, flags[..], sats[..], true), ch);
        if flags[ch] {
          if setup.types[sats[ch]] == Qzss {
            qzss := qzss + 1;
          }
          nbusy := nbusy + 1;
        }
        ch := ch + 1;
      }
      assert flags[..][..ch] == flags[..];
      assert BusyWith(setup, flags[..], sats[..], true)[..ch] == BusyWith(setup, flags[..], sats[..], true);
      limited := setup.chans - nbusy <= Min(RESERVED, setup.QzssCount() - qzss);
    }

    // ChanReset: a channel that is not busy, which is then set up for the satellite, or -1.
    method ChanReset(sat: nat, prio: bool) returns (ch: int)
      requires Valid() && sat < |setup.types|
      modifies sats
      ensures match old(Choice(setup, Now(), sat, prio))
              case None => ch == -1 && sats[..] == old(sats[..])
              case Some(c) => ch == c && sats[..] == old(sats[..])[c := sat]
      ensures ch == -1 <==> old(Refused(setup, Now(), sat, prio))
      ensures ch != -1 ==> 0 <= ch < setup.chans && !flags[ch] && forall c | 0 <= c < ch :: flags[c]
    {
      ChoiceIff(setup, Now(), sat, prio);
      hide Refused, Count;
      var limited := false;
      if prio {
        limited := Counted();
      }
      ch := 0;
      while ch < setup.chans
        invariant 0 <= ch <= setup.chans && sats[..] == old(sats[..])
        invariant forall c | 0 <= c < ch :: flags[c]
      {
        if !flags[ch] {
          if limited && setup.types[sat] != Qzss {
            return -1;
          }
          sats[ch] := sat;
          return;
        }
        ch := ch + 1;
      }
      ch := -1;
    }

    // A satellite the search comes to.
    method Search(sat: nat, prio: bool)
      requires Valid() && sat < |setup.types| && phase.Looking?
      modifies this`phase, sats
      ensures Valid() && Step(setup, old(Now()), Look(sat, prio)) == Some(Now())
    {
      if busy[sat] {
        return;
      }
      var ch := ChanReset(sat, prio);
      if ch >= 0 {
        phase := Correlating(ch, sat);
      }
    }

    method Heard(strong: bool)
      requires Valid() && phase.Correlating?
      modifies this`phase, busy
      ensures Valid() && Step(setup, old(Now()), if strong then Strong else Weak) == Some(Now())
    {
      if !strong {
        phase := Looking;
      } else {
        busy[phase.sat] := true;
        phase := Starting(phase.ch, phase.sat);
      }
    }

    // The end of CHANNEL::Start.
    method Start()
      requires Valid() && phase.Starting?
      modifies this`phase, flags
      ensures Valid() && Step(setup, old(Now()), Started) == Some(Now())
    {
      flags[phase.ch] := true;
      phase := Looking;
    }

    // CHANNEL::SignalLost
    method SignalLost(ch: nat)
      requires Valid() && ch < setup.chans && flags[ch]
      modifies busy, flags
      ensures Valid() && Step(setup, old(Now()), Lost(ch)) == Some(Now())
    {
      busy[sats[ch]] := false;
      flags[ch] := false;
    }
  }

  lemma PrefixCount(b: seq<bool>, i: nat)
    requires i < |b|
    ensures Count(b[..i + 1]) == Count(b[..i]) + if b[i] then 1 else 0
  {
    assert b[..i + 1][..i] == b[..i];
  }
}
