/** A run of gps/channel.cpp after which GetClock of gps/solve.cpp is off: two subframes that are
    accepted, and then nothing with a preamble for a long time. */
module NavLate {
  import opened ParityCode
  import opened NavParity
  import opened NavSubframe
  import opened NavChannel
  import opened Modulo

  // ----- A subframe as it is sent -----------------------------------------------------------------

  // Ten words of data, the first of which starts with the preamble.
  predicate Sendable(words: seq<seq<Bit>>) {
    && |words| == 10 && (forall k | 0 <= k < 10 :: |words[k]| == DATA_BITS) && Bin(words[0][..8]) == 0x8B
  }

  lemma {:induction false} BinIsUnique(a: seq<Bit>, b: seq<Bit>)
    requires |a| == |b| && Bin(a) == Bin(b)
    ensures a == b
  {
    if a != [] {
      BinIsUnique(a[..|a| - 1], b[..|b| - 1]);
      assert a == a[..|a| - 1] + [a[|a| - 1]] && b == b[..|b| - 1] + [b[|b| - 1]];
    }
  }

  lemma PreambleIs8B()
    ensures Bin(PREAMBLE) == 0x8B
  {
    var a, b := [true, false, false, false], [true, false, false, false, true, false];
    assert a[..2] == [true, false] && [true, false][..1] == [true] && [true][..0] == [];
    assert a[..3][..2] == a[..2] && Bin(a[..2]) == 2 && Bin(a[..3]) == 4 && Bin(a) == 8;
    assert b[..5][..4] == a && Bin(b[..5]) == 17 && Bin(b) == 34;
    assert PREAMBLE[..7][..6] == b && Bin(PREAMBLE[..7]) == 69;
  }

  lemma StartsWithPreamble(words: seq<seq<Bit>>)
    requires Sendable(words)
    ensures words[0][..8] == PREAMBLE
  {
    PreambleIs8B();
    BinIsUnique(words[0][..8], PREAMBLE);
  }

  // The bits of the first n words, each encoded after the last two bits of the one before.
  function Sent(words: seq<seq<Bit>>, n: nat): (b: seq<Bit>)
    requires Sendable(words) && n <= 10
    ensures |b| == 30 * n
  {
    if n == 0 then []
    else
      var b := Sent(words, n - 1);
      b + EncodeWord(words[n - 1], n > 1 && b[|b| - 2], n > 1 && b[|b| - 1])
  }

  lemma {:induction false} SentBegins(words: seq<seq<Bit>>, n: nat)
    requires Sendable(words) && 1 <= n <= 10
    ensures Sent(words, n)[..8] == PREAMBLE && Sent(words, n)[0]
  {
    StartsWithPreamble(words);
    hide Bin;
    if n == 1 {
      var w := EncodeWord(words[0], false, false);
      assert [] + w == w && Sent(words, 1) == w;
      assert forall i | 0 <= i < 8 :: w[i] == words[0][..8][i];
      assert w[..8] == PREAMBLE;
    } else {
      SentBegins(words, n - 1);
      hide EncodeWord;
      assert Sent(words, n)[..8] == Sent(words, n - 1)[..8];
    }
  }

  lemma {:induction false} SentWord(words: seq<seq<Bit>>, n: nat, k: nat)
    requires Sendable(words) && k < n <= 10
    ensures var b := Sent(words, n); Word(b, k) == EncodeWord(words[k], D29(b, k), D30(b, k))
  {
    SentBegins(words, n);
    hide EncodeWord;
    var b, c := Sent(words, n), Sent(words, n - 1);
    if k < n - 1 {
      SentWord(words, n - 1, k);
      SentBegins(words, n - 1);
      assert b[..|c|] == c;
      assert Word(b, k) == Word(c, k);
      assert k > 0 ==> b[30 * k - 2] == c[30 * k - 2] && b[30 * k - 1] == c[30 * k - 1];
    } else {
      assert Word(b, k) == b[|c|..];
    }
  }

  // It is accepted, and the words are read from it.
  lemma SentIsAccepted(words: seq<seq<Bit>>)
    requires Sendable(words)
    ensures Check(Sent(words, 10)) == Accepted
    ensures forall k | 0 <= k < 10 :: Decoded(Sent(words, 10), k)[..DATA_BITS] == words[k]
  {
    var b := Sent(words, 10);
    SentBegins(words, 10);
    forall k | 0 <= k < 10 ensures Word(b, k) == EncodeWord(words[k], D29(b, k), D30(b, k)) {
      SentWord(words, 10, k);
    }
    hide EncodeWord, Check, Decoded, Sent;
    assert Carries(b, words);
    AcceptedIsTransmitted(b);
  }

  // What the receiver makes of the hand-over word: 17 bits of time, the alert flag and the subframe number.
  lemma HandOver(words: seq<seq<Bit>>)
    requires Sendable(words)
    ensures var b := Sent(words, 10);
            && TowCount(b) == Bin(words[1][..17]) && AlertFlag(b) == words[1][17]
            && SubframeId(b) == Bin(words[1][19..22])
  {
    SentIsAccepted(words);
    var d := Decoded(Sent(words, 10), 1);
    assert d[..17] == d[..DATA_BITS][..17] && d[19..22] == d[..DATA_BITS][19..22] && d[17] == d[..DATA_BITS][17];
    hide Check, Decoded, Sent, Bin;
  }

  // ----- Bits without a preamble ------------------------------------------------------------------

  function Zeros(n: nat): (s: seq<Bit>)
    ensures |s| == n
  {
    seq(n, i => false)
  }

  lemma ZerosDropOne(n: nat)
    requires n >= SUBFRAME_BITS
    ensures Drop(Zeros(n)) == 1 && Zeros(n)[1..] == Zeros(n - 1)
    ensures forall pos, p :: Next(Zeros(n), pos, p) == p
  {
    var b := Zeros(n)[..SUBFRAME_BITS];
    assert b[..8][0] == false && b[..8][1] == false;
    assert PREAMBLE[0] && Flip(PREAMBLE)[1];
    hide CheckFrom;
    assert Check(b) == NoPreamble;
  }

  // One bit after the other goes, and nothing is learned.
  lemma {:induction false} ZerosTeachNothing(n: nat, pos: nat, p: Progress)
    ensures Learned(Zeros(n), pos, p) == p && |Rest(Zeros(n))| == if n < SUBFRAME_BITS then n else SUBFRAME_BITS - 1
  {
    hide *;
    if n >= SUBFRAME_BITS {
      ZerosDropOne(n);
      OneTest(Zeros(n), pos, p);
      ZerosTeachNothing(n - 1, pos + 1, p);
    } else {
      NoTest(Zeros(n), pos, p);
    }
  }

  // An accepted subframe in front.
  lemma AcceptedFirst(a: seq<Bit>, s: seq<Bit>, pos: nat, p: Progress)
    requires |a| == SUBFRAME_BITS && Check(a) == Accepted
    ensures Rest(a + s) == Rest(s)
    ensures Learned(a + s, pos, p)
         == Learned(s, pos + SUBFRAME_BITS,
                    Progress(pos + SUBFRAME_BITS, if p.probation > 0 then p.probation - 1 else 0, AlertFlag(a),
                      6 * TowCount(a), SubframeId(a)))
  {
    assert (a + s)[..SUBFRAME_BITS] == a && (a + s)[SUBFRAME_BITS..] == s;
    hide Check, AlertFlag, TowCount, SubframeId;
    OneTest(a + s, pos, p);
    assert Drop(a + s) == SUBFRAME_BITS;
  }

  lemma TwoThenZeros(a: seq<Bit>, b: seq<Bit>, n: nat, p: Progress)
    requires |a| == |b| == SUBFRAME_BITS && Check(a) == Check(b) == Accepted && n >= SUBFRAME_BITS && p.probation == 2
    ensures |Rest(a + (b + Zeros(n)))| == SUBFRAME_BITS - 1
    ensures Learned(a + (b + Zeros(n)), 0, p)
            == Progress(2 * SUBFRAME_BITS, 0, AlertFlag(b), 6 * TowCount(b), SubframeId(b))
  {
    hide Check, AlertFlag, TowCount, SubframeId, Rest, Learned;
    AcceptedFirst(a, b + Zeros(n), 0, p);
    AcceptedFirst(b, Zeros(n), SUBFRAME_BITS, Progress(SUBFRAME_BITS, 1, AlertFlag(a), 6 * TowCount(a), SubframeId(a)));
    ZerosTeachNothing(n, 2 * SUBFRAME_BITS,
      Progress(2 * SUBFRAME_BITS, 0, AlertFlag(b), 6 * TowCount(b), SubframeId(b)));
  }

  // ----- The FPGA's buffer, polled every 16 bits --------------------------------------------------

  const MAX_NAV_BITS := 128

  function Polled(s: seq<Bit>, i: nat): Upload
    requires 16 * i + 16 <= |s|
  {
    Upload((16 * i + 16) % 65536, seq(MAX_NAV_BITS / 16, k => Bin(s[16 * i..16 * i + 16])))
  }

  lemma ModTwice(n: nat)
    ensures n % 65536 % MAX_NAV_BITS == n % MAX_NAV_BITS
  {
  }

  lemma WordIsPlace(n: nat, i: nat)
    requires 16 * i <= n && n + 16 <= 16 * i + 16 && n % 16 == 0
    ensures n == 16 * i && 0 <= n % MAX_NAV_BITS / 16 < MAX_NAV_BITS / 16
  {
  }

  lemma PolledShows(s: seq<Bit>, i: nat)
    requires 16 * i + 16 <= |s|
    ensures Shows(Polled(s, i), MAX_NAV_BITS, s[..16 * i + 16], 16 * i)
  {
    ModTwice(16 * i + 16);
    var t := s[..16 * i + 16];
    assert t[16 * i..16 * i + 16] == s[16 * i..16 * i + 16];
    hide Bin;
    forall n | 16 * i <= n && n + 16 <= |t| && n % 16 == 0
      ensures 0 <= n % MAX_NAV_BITS / 16 < MAX_NAV_BITS / 16 && n == 16 * i
    {
      WordIsPlace(n, i);
    }
  }

  // What the satellite has sent by poll i.
  function Streams(s: seq<Bit>): (r: seq<seq<Bit>>)
    ensures |r| == |s| / 16
  {
    seq(|s| / 16, i requires 0 <= i < |s| / 16 => s[..16 * i + 16])
  }

  function Uploads(s: seq<Bit>): (r: seq<Upload>)
    ensures |r| == |s| / 16
  {
    seq(|s| / 16, i requires 0 <= i < |s| / 16 => Polled(s, i))
  }

  lemma StreamsGrow(s: seq<Bit>, i: nat)
    requires i < |s| / 16
    ensures Before([], Streams(s), i) == s[..16 * i] && Before([], Streams(s), i) <= Streams(s)[i]
    ensures 16 * i / 16 * 16 == 16 * i
  {
    assert i > 0 ==> Streams(s)[i - 1] == s[..16 * i];
  }

  // ----- The run ----------------------------------------------------------------------------------

  lemma StreamsShow(s: seq<Bit>)
    ensures forall i | 0 <= i < |Streams(s)| :: Before([], Streams(s), i) <= Streams(s)[i]
    ensures forall i | 0 <= i < |Streams(s)| ::
              Shows(Uploads(s)[i], MAX_NAV_BITS, Streams(s)[i],
                if i == 0 then 0 else |Before([], Streams(s), i)| / 16 * 16)
  {
    forall i | 0 <= i < |Streams(s)|
      ensures Before([], Streams(s), i) <= Streams(s)[i]
      ensures Shows(Uploads(s)[i], MAX_NAV_BITS, Streams(s)[i],
              if i == 0 then 0 else |Before([], Streams(s), i)| / 16 * 16)
    {
      StreamsGrow(s, i);
      PolledShows(s, i);
      hide Shows, Polled;
      assert Streams(s)[i] == s[..16 * i + 16] && Uploads(s)[i] == Polled(s, i);
    }
  }

  lemma StreamsEnd(s: seq<Bit>)
    requires |s| % 16 == 0 && |s| > 0
    ensures |Streams(s)| > 0 && Before([], Streams(s), |Streams(s)|) == s && |s| / 16 * 16 == |s|
  {
    assert Streams(s)[|s| / 16 - 1] == s;
  }

  // A channel that has received the bits in this way.
  method Receive(s: seq<Bit>) returns (ch: Channel, ghost start: Progress)
    requires |s| % 16 == 0 && |s| > 0
    ensures ch.Valid() && ch.OnTrack(start) && ch.stream == s && ch.read == |s| && ch.origin == 0
            && ch.max == MAX_NAV_BITS
    ensures start.probation == 2
  {
    hide *;
    var eph := new Ephemeris();
    BufferSize();
    ch := new Channel(MAX_NAV_BITS, eph);
    ch.Restart();
    start := ch.Now();
    StartsOnProbation(ch);
    StreamsShow(s);
    StreamsEnd(s);
    NothingSent();
    ch.Tracking(Uploads(s), Streams(s), start);
  }

  lemma BufferSize()
    ensures MAX_NAV_BITS > 0 && MAX_NAV_BITS % 16 == 0 && 65536 % MAX_NAV_BITS == 0
  {
  }

  lemma NothingSent()
    ensures var none: seq<Bit> := []; none[..0] == none
  {
  }

  lemma StartsOnProbation(ch: Channel)
    ensures ch.Now().probation == ch.probation
  {
  }

  // What it has made of them.
  lemma WhatIsKnown(ch: Channel, start: Progress, s: seq<Bit>)
    requires ch.Valid() && ch.OnTrack(start) && ch.stream == s && ch.read == |s| && ch.origin == 0
    ensures ch.holding == |Rest(s)|
    ensures var p := Learned(s, 0, start);
            ch.probation == p.probation && ch.lastEnd == p.lastEnd && ch.eph.tow == p.tow
  {
    assert ch.Received() == s;
    hide Rest, Learned, Check, TowCount;
  }

  // Two accepted subframes, then n bits without a preamble: the clock stays at the 299 bits that are
  // held behind the time the second one gives for its end.
  method LateClock(first: seq<seq<Bit>>, second: seq<seq<Bit>>, n: nat) returns (clock: real)
    requires Sendable(first) && Sendable(second) && n >= MAX_TOW_DELAY && (2 * SUBFRAME_BITS + n) % 16 == 0
    ensures var tow := 6 * TowCount(Sent(second, 10)); clock == NavTime(tow, SUBFRAME_BITS - 1) < NavTime(tow, n)
    ensures clock == (6 * Bin(second[1][..17])) as real + 5.98
  {
    hide *;
    Sizes();
    var a, b := Sent(first, 10), Sent(second, 10);
    var s := a + (b + Zeros(n));
    SentIsAccepted(first);
    SentIsAccepted(second);
    var ch;
    ghost var start;
    ch, start := Receive(s);
    WhatIsKnown(ch, start, s);
    TwoThenZeros(a, b, n, start);
    var snapshot := new Snapshot();
    var ok := snapshot.LoadAtomic(ch, 0, |s|, 0, 0, false, true, true, s, start);
    clock := snapshot.GetClock();
    NoSubBit();
    HandOver(second);
    BitsHeld(6 * TowCount(b));
    MoreBitsLater(6 * TowCount(b), SUBFRAME_BITS - 1, n);
  }

  lemma Sizes()
    ensures SUBFRAME_BITS == 300 && MAX_TOW_DELAY == 2500 && MAX_NAV_BITS == 128
  {
  }

  lemma NoSubBit()
    ensures SubBit(0, 0, 0) == 0.0
  {
  }

  lemma BitsHeld(tow: nat)
    ensures NavTime(tow, SUBFRAME_BITS - 1) == tow as real + 5.98
  {
  }

  lemma MoreBitsLater(tow: nat, m: nat, n: nat)
    requires m < n
    ensures NavTime(tow, m) < NavTime(tow, n)
  {
  }
}
