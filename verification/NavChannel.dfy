/** The L1 path of one tracking channel, from the FPGA's circular bit buffer to satellite time:
    gps/channel.cpp (Tracking, ParityCheck, GetSnapshot) and gps/solve.cpp (GetClock). */
module NavChannel {
  import opened ParityCode
  import opened NavParity
  import opened NavSubframe
  import opened Powers
  import opened Modulo
  import L1Word

  const E1B_TSYM_PW := 500
  const MAX_TOW_DELAY := 5 * 500
  const WEEK_BITS := 30240000        // bits of 1/50 s in a week

  // ----- Bits as numbers --------------------------------------------------------------------------

  // bin(): most significant bit first.
  function Bin(s: seq<Bit>): nat {
    if s == [] then 0 else 2 * Bin(s[..|s| - 1]) + (if s[|s| - 1] then 1 else 0)
  }

  lemma {:induction false} BinSplitsFirst(s: seq<Bit>)
    requires s != []
    ensures Bin(s) == (if s[0] then Pow2(|s| - 1) else 0) + Bin(s[1..])
  {
    if |s| > 1 {
      BinSplitsFirst(s[..|s| - 1]);
      assert s[1..][..|s| - 2] == s[..|s| - 1][1..];
    }
  }

  // One left shift of a 16-bit word moves its first bit to position 16.
  lemma ShiftOut(t: seq<Bit>)
    requires |t| == 16
    ensures 2 * Bin(t) == (if t[0] then 65536 else 0) + Bin(t[1..] + [false])
    ensures Bin(t[1..] + [false]) < 65536
  {
    BinSplitsFirst(t);
    assert Pow2(3) == 8;
    assert Pow2(7) == 128;
    assert Pow2(11) == 2048;
    assert Pow2(15) == 32768;
    assert (t[1..] + [false])[..15] == t[1..];
    BinBound(t[1..]);
  }

  lemma {:induction false} BinBound(s: seq<Bit>)
    ensures Bin(s) < Pow2(|s|)
  {
    if s != [] {
      BinBound(s[..|s| - 1]);
    }
  }

  // The 17-bit TOW count of the hand-over word (IS-GPS-200, section 20.3.3.2), the subframe number
  // and the alert flag of a received subframe.
  function TowCount(b: seq<Bit>): nat
    requires |b| >= SUBFRAME_BITS
  {
    Bin(Decoded(b, 1)[..17])
  }

  function SubframeId(b: seq<Bit>): nat
    requires |b| >= SUBFRAME_BITS
  {
    Bin(Decoded(b, 1)[19..22])
  }

  function AlertFlag(b: seq<Bit>): Bit
    requires |b| >= SUBFRAME_BITS
  {
    Decoded(b, 1)[17]
  }

  // The 300 bits of a stream that end at position n.
  function Ending(stream: seq<Bit>, n: nat): (b: seq<Bit>)
    requires SUBFRAME_BITS <= n <= |stream|
    ensures |b| == SUBFRAME_BITS
  {
    stream[n - SUBFRAME_BITS..n]
  }

  // Every subframe of the stream from a position on that would be accepted says, in its hand-over word,
  // the time at its own end: t0 + n bits of 1/50 s, modulo a week.
  ghost predicate Consistent(stream: seq<Bit>, from: nat, t0: int) {
    forall n: nat | from + SUBFRAME_BITS <= n <= |stream| && Check(Ending(stream, n)) == Accepted ::
      (300 * TowCount(Ending(stream, n)) - t0 - n) % WEEK_BITS == 0
  }

  // ----- What becomes of a run of bits ------------------------------------------------------------

  // What the solver reads of a channel: the end of the last accepted subframe, and what it said.
  datatype Progress = Progress(lastEnd: int, probation: nat, alert: Bit, tow: nat, sub: nat)

  // How many bits the test of a subframe takes off the front.
  function Drop(s: seq<Bit>): (n: nat)
    requires |s| >= SUBFRAME_BITS
    ensures 0 < n <= SUBFRAME_BITS
  {
    match Check(s[..SUBFRAME_BITS])
    case NoPreamble => 1
    case ParityError(n) => ErrorPosition(s[..SUBFRAME_BITS], 0); n
    case Accepted => SUBFRAME_BITS
  }

  // The test of the subframe in front, which starts at position n of the stream.
  function Next(s: seq<Bit>, n: nat, p: Progress): Progress
    requires |s| >= SUBFRAME_BITS
  {
    var b := s[..SUBFRAME_BITS];
    match Check(b)
    case NoPreamble => p
    case ParityError(_) => p.(probation := 2)
    case Accepted =>
      Progress(n + SUBFRAME_BITS, if p.probation > 0 then p.probation - 1 else 0, AlertFlag(b), 6 * TowCount(b),
               SubframeId(b))
  }

  // All tests there are bits for: the bits that are left, and what was learned.
  function Rest(s: seq<Bit>): (r: seq<Bit>)
    ensures |r| <= |s| && |r| < SUBFRAME_BITS
    decreases |s|
  {
    if |s| < SUBFRAME_BITS then s else Rest(s[Drop(s)..])
  }

  function Learned(s: seq<Bit>, n: nat, p: Progress): Progress
    decreases |s|
  {
    if |s| < SUBFRAME_BITS then p else Learned(s[Drop(s)..], n + Drop(s), Next(s, n, p))
  }

  lemma OneTest(s: seq<Bit>, n: nat, p: Progress)
    requires |s| >= SUBFRAME_BITS
    ensures Rest(s) == Rest(s[Drop(s)..]) && Learned(s, n, p) == Learned(s[Drop(s)..], n + Drop(s), Next(s, n, p))
  {
    hide Drop, Next;
  }

  // It does not matter in what pieces the bits come.
  lemma {:induction false} InPieces(s: seq<Bit>, t: seq<Bit>, n: nat, p: Progress)
    ensures Rest(s + t) == Rest(Rest(s) + t)
    ensures Learned(s + t, n, p) == Learned(Rest(s) + t, n + |s| - |Rest(s)|, Learned(s, n, p))
    decreases |s|
  {
    hide Drop, Next, Rest, Learned;
    if |s| >= SUBFRAME_BITS {
      var d := Drop(s);
      OneTest(s, n, p);
      OneTest(s + t, n, p);
      SameFront(s, t, n, p);
      RestOfSum(s, t, d);
      InPieces(s[d..], t, n + d, Next(s, n, p));
    } else {
      NoTest(s, n, p);
    }
  }

  lemma RestOfSum(s: seq<Bit>, t: seq<Bit>, d: nat)
    requires d <= |s|
    ensures (s + t)[d..] == s[d..] + t
  {
  }

  lemma NoTest(s: seq<Bit>, n: nat, p: Progress)
    requires |s| < SUBFRAME_BITS
    ensures Rest(s) == s && Learned(s, n, p) == p
  {
  }

  lemma SameFront(s: seq<Bit>, t: seq<Bit>, n: nat, p: Progress)
    requires |s| >= SUBFRAME_BITS
    ensures Drop(s + t) == Drop(s) && Next(s + t, n, p) == Next(s, n, p)
  {
    assert (s + t)[..SUBFRAME_BITS] == s[..SUBFRAME_BITS];
  }

  // The test in terms of any buffer that starts with the same subframe.
  lemma TestOf(b: seq<Bit>, s: seq<Bit>, n: nat, p: Progress)
    requires |b| >= SUBFRAME_BITS && |s| >= SUBFRAME_BITS && forall i | 0 <= i < SUBFRAME_BITS :: b[i] == s[i]
    ensures Drop(s) == match Check(b) case NoPreamble => 1 case ParityError(k) => k case Accepted => SUBFRAME_BITS
    ensures Next(s, n, p) ==
            match Check(b)
            case NoPreamble => p
            case ParityError(_) => p.(probation := 2)
            case Accepted =>
              Progress(n + SUBFRAME_BITS, if p.probation > 0 then p.probation - 1 else 0, AlertFlag(b), 6 * TowCount(b),
                       SubframeId(b))
  {
    SameSubframe(b, s[..SUBFRAME_BITS]);
    hide Check, AlertFlag, TowCount, SubframeId;
  }

  lemma {:induction false} ErrorPosition(b: seq<Bit>, k: nat)
    requires |b| >= SUBFRAME_BITS && k <= 10
    ensures match CheckFrom(b, k) case ParityError(n) => 0 < n <= SUBFRAME_BITS case _ => true
    decreases 10 - k
  {
    if k < 10 {
      hide WordGood;
      ErrorPosition(b, k + 1);
    }
  }

  // The tests that found a preamble, in their order: whether the subframe was accepted.
  function Tests(s: seq<Bit>): seq<bool>
    decreases |s|
  {
    if |s| < SUBFRAME_BITS then []
    else if Check(s[..SUBFRAME_BITS]) == NoPreamble then Tests(s[Drop(s)..])
    else [Check(s[..SUBFRAME_BITS]) == Accepted] + Tests(s[Drop(s)..])
  }

  // How many more subframes have to be accepted in a row, two after an error or at the start.
  function ToGo(tests: seq<bool>): nat {
    var n := |tests|;
    if n == 0 || !tests[n - 1] then 2 else if n == 1 || !tests[n - 2] then 1 else 0
  }

  lemma ToGoNext(before: seq<bool>, ok: bool)
    ensures ToGo(before + [ok]) == if !ok then 2 else if ToGo(before) > 0 then ToGo(before) - 1 else 0
  {
  }

  // What the test of the subframe in front adds to them.
  function Found(s: seq<Bit>): seq<bool>
    requires |s| >= SUBFRAME_BITS
  {
    var v := Check(s[..SUBFRAME_BITS]);
    if v == NoPreamble then [] else [v == Accepted]
  }

  lemma TestsNext(s: seq<Bit>)
    ensures |s| < SUBFRAME_BITS ==> Tests(s) == []
    ensures |s| >= SUBFRAME_BITS ==> Tests(s) == Found(s) + Tests(s[Drop(s)..])
  {
    hide Check, Drop;
  }

  lemma NextToGo(s: seq<Bit>, n: nat, p: Progress, before: seq<bool>)
    requires |s| >= SUBFRAME_BITS && p.probation == ToGo(before)
    ensures Next(s, n, p).probation == ToGo(before + Found(s))
  {
    hide Check, TowCount, SubframeId, AlertFlag;
    if Found(s) == [] {
      assert before + Found(s) == before;
    } else {
      ToGoNext(before, Found(s)[0]);
      hide ToGo;
    }
  }

  lemma JoinTests(a: seq<bool>, b: seq<bool>, c: seq<bool>)
    ensures a + (b + c) == (a + b) + c && a + [] == a
  {
  }

  // A channel is off probation exactly if the last two subframes that had a preamble were accepted.
  lemma {:induction false} ProbationIs(s: seq<Bit>, n: nat, p: Progress, before: seq<bool>)
    requires p.probation == ToGo(before)
    ensures Learned(s, n, p).probation == ToGo(before + Tests(s))
    decreases |s|
  {
    hide *;
    TestsNext(s);
    if |s| < SUBFRAME_BITS {
      NoTest(s, n, p);
      JoinTests(before, [], []);
    } else {
      OneTest(s, n, p);
      NextToGo(s, n, p, before);
      JoinTests(before, Found(s), Tests(s[Drop(s)..]));
      ProbationIs(s[Drop(s)..], n + Drop(s), Next(s, n, p), before + Found(s));
    }
  }

  // After a parity error the bits up to the end of the first bad word go.
  lemma {:induction false} FirstBadWord(b: seq<Bit>, k: nat, j: nat)
    requires |b| >= SUBFRAME_BITS && k <= j < 10
    ensures CheckFrom(b, k) == ParityError(30 * (j + 1))
            <==> !WordGood(b, j) && forall i | k <= i < j :: WordGood(b, i)
    decreases j - k
  {
    hide WordGood;
    if k < j && WordGood(b, k) {
      FirstBadWord(b, k + 1, j);
    } else if k == j && WordGood(b, k) && k + 1 < 10 {
      LaterError(b, k + 1);
    }
  }

  lemma {:induction false} LaterError(b: seq<Bit>, k: nat)
    requires |b| >= SUBFRAME_BITS && k <= 10
    ensures match CheckFrom(b, k) case ParityError(n) => n >= 30 * (k + 1) case _ => true
    decreases 10 - k
  {
    hide WordGood;
    if k < 10 {
      LaterError(b, k + 1);
    }
  }

  // ----- What the FPGA hands over -----------------------------------------------------------------

  // A copy of the channel state uploaded from the embedded CPU: a bit counter and the circular
  // buffer it indexes, 16 bits to a word.
  datatype Upload = Upload(navBits: nat, navBuf: seq<nat>)

  // The upload is a faithful picture of a stream of which every bit from `read` on is still in the
  // buffer: the writer is less than a whole buffer ahead.
  ghost predicate Shows(up: Upload, max: nat, stream: seq<Bit>, read: nat)
    requires max > 0
  {
    && up.navBits < 65536 && up.navBits % max == |stream| % max
    && |up.navBuf| * 16 == max
    && read <= |stream| < read + max
    && forall n | read <= n && n + 16 <= |stream| && n % 16 == 0 ::
         up.navBuf[(n % max) / 16] == Bin(stream[n..n + 16])
  }

  // ----- The channel ------------------------------------------------------------------------------

  class Ephemeris {
    var tow: nat
    var sub: nat

    constructor ()
    {
      tow, sub := 0, 0;
    }

    // EPHEM::Subframe, the part GetClock depends on.
    method Subframe(buf: array<Bit>)
      requires buf.Length >= SUBFRAME_BITS
      modifies this
      ensures tow == 6 * Bin(buf[30..47]) && sub == Bin(buf[49..52])
    {
      sub := Bin(buf[49..52]);
      tow := Bin(buf[30..47]) * 6;
    }
  }

  // The ten-word loop of ParityCheck.  p[4] and p[5] carry D29* and D30* from word to word.
  method CheckWords(p: array<Bit>, buf: array<Bit>) returns (nbits: nat, err: bool)
    requires p.Length == 6 && p != buf && buf.Length >= SUBFRAME_BITS
    requires p[4] == p[5] == !buf[0]
    modifies p, buf
    ensures err <==> CheckFrom(old(buf[..]), 0) != Accepted
    ensures 0 < nbits <= SUBFRAME_BITS
    ensures err ==> CheckFrom(old(buf[..]), 0) == ParityError(nbits)
    ensures !err ==> nbits == SUBFRAME_BITS
    ensures !err ==> forall j | 30 <= j < 60 :: buf[j] == Decoded(old(buf[..]), 1)[j - 30]
    ensures forall j | nbits <= j < buf.Length :: buf[j] == old(buf[j])
  {
    hide WordGood, Decoded;
    ghost var b := buf[..];
    ghost var w := Decoded(b, 1);
    for k := 0 to 10
      invariant forall j | 30 * k <= j < buf.Length :: buf[j] == b[j]
      invariant k < 10 ==> p[4] == D29(b, k) && p[5] == D30(b, k)
      invariant k >= 2 ==> forall j | 30 <= j < 60 :: buf[j] == w[j - 30]
      invariant CheckFrom(b, 0) == CheckFrom(b, k)
    {
      var mismatch := CheckWord(p, buf, b, k);
      if mismatch {
        return 30 * k + 30, true;
      }
    }
    return SUBFRAME_BITS, false;
  }

  method CheckWord(p: array<Bit>, buf: array<Bit>, ghost b: seq<Bit>, k: nat) returns (mismatch: bool)
    requires p.Length == 6 && p != buf && buf.Length == |b| && |b| >= SUBFRAME_BITS && k < 10
    requires p[4] == D29(b, k) && p[5] == D30(b, k)
    requires forall j | 30 * k <= j < buf.Length :: buf[j] == b[j]
    modifies p, buf
    ensures mismatch <==> !WordGood(b, k)
    ensures !mismatch && k < 9 ==> p[4] == D29(b, k + 1) && p[5] == D30(b, k + 1)
    ensures forall j | 30 * k <= j < 30 * k + 30 :: buf[j] == Decoded(b, k)[j - 30 * k]
    ensures forall j | 0 <= j < 30 * k :: buf[j] == old(buf[j])
    ensures forall j | 30 * k + 30 <= j < buf.Length :: buf[j] == b[j]
  {
    assert buf[30 * k..30 * k + 30] == Word(b, k);
    mismatch := L1Word.L1Parity(p, buf, 30 * k, p[4], p[5]);
    assert forall j | 30 * k <= j < 30 * k + 30 :: buf[j] == buf[30 * k..30 * k + 30][j - 30 * k];
    assert !mismatch ==> p[..][4] == Word(b, k)[28] && p[..][5] == Word(b, k)[29];
  }

  lemma TopBit(word: nat, high: nat, b: nat, rest: nat)
    requires word == 65536 * (2 * high + b) + rest && rest < 65536 && b < 2
    ensures (word / 65536) % 2 == b
  {
    assert word / 65536 == 2 * high + b;
  }

  // The low half of a word after k bits have gone out at the top.
  function Shifted(s: seq<Bit>, k: nat): (r: seq<Bit>)
    requires |s| == 16
    ensures |r| == 16
  {
    if k == 0 then s else Shifted(s, k - 1)[1..] + [false]
  }

  lemma {:induction false} ShiftedAt(s: seq<Bit>, k: nat, j: nat)
    requires |s| == 16 && k + j < 16
    ensures Shifted(s, k)[j] == s[k + j]
  {
    if k > 0 {
      ShiftedAt(s, k - 1, j + 1);
    }
  }

  // Bit k goes out.
  lemma ShiftStep(word: nat, high: nat, s: seq<Bit>, k: nat)
    requires |s| == 16 && k < 16 && word == 65536 * high + Bin(Shifted(s, k))
    ensures var b := if s[k] then 1 else 0;
            2 * word == 65536 * (2 * high + b) + Bin(Shifted(s, k + 1)) && (2 * word / 65536) % 2 == b
  {
    ShiftedAt(s, k, 0);
    ShiftOut(Shifted(s, k));
    hide Bin;
    TopBit(2 * word, high, if s[k] then 1 else 0, Bin(Shifted(s, k + 1)));
  }

  // The inner copying loop of Tracking: sixteen bits of one FPGA word, first bit first.
  method ShiftIn(buf: array<Bit>, at: nat, navWord: nat, ghost bits: seq<Bit>)
    requires |bits| == 16 && navWord == Bin(bits) && at + 16 <= buf.Length
    modifies buf
    ensures forall j | at <= j < at + 16 :: buf[j] == bits[j - at]
    ensures forall j | 0 <= j < at :: buf[j] == old(buf[j])
  {
    var word := navWord;
    ghost var high: nat := 0;
    assert Shifted(bits, 0) == bits;
    hide Bin, Shifted;
    for i := 0 to 16
      invariant word == 65536 * high + Bin(Shifted(bits, i))
      invariant forall j | at <= j < at + i :: buf[j] == bits[j - at]
      invariant forall j | 0 <= j < at :: buf[j] == old(buf[j])
    {
      ShiftStep(word, high, bits, i);
      word := 2 * word;
      high := 2 * high + (if bits[i] then 1 else 0);
      buf[at + i] := (word / 65536) % 2 == 1;
    }
  }

  // The stream as of the poll before poll i.
  ghost function Before(stream: seq<Bit>, sents: seq<seq<Bit>>, i: nat): seq<Bit>
    requires i <= |sents|
  {
    if i == 0 then stream else sents[i - 1]
  }

  class Channel {
    const max: nat            // MAX_NAV_BITS
    const buf: array<Bit>
    const eph: Ephemeris
    var holding: nat
    var rdPos: nat
    var bitsTow: int
    var expectingPreamble: nat
    var probation: nat
    var alert: bool

    ghost var stream: seq<Bit>   // every bit the satellite has sent, as of the last upload
    ghost var origin: nat        // where in the stream this tracking run began
    ghost var read: nat          // how much of the stream has been taken from the FPGA
    ghost var lastEnd: int       // where the last accepted subframe ended, -1 if there is none

    ghost predicate Sized() reads this {
      && max > 0 && max % 16 == 0 && 65536 % max == 0 && buf.Length == E1B_TSYM_PW + max - 1
      && origin <= read <= |stream| && read % 16 == 0 && rdPos == read % max
      && holding <= read - origin && holding <= buf.Length
    }

    // bitsTow counts the bits since the end of the last accepted subframe, whose hand-over word is
    // in the ephemeris; there has been such a subframe once the channel is off its first probation.
    ghost predicate Timed() reads this, eph {
      && -1 <= lastEnd && (probation < 2 ==> lastEnd >= 0)
      && (lastEnd >= 0 ==>
            && origin + SUBFRAME_BITS <= lastEnd <= read <= |stream|
            && bitsTow == read - lastEnd
            && Check(Ending(stream, lastEnd)) == Accepted
            && eph.tow == 6 * TowCount(Ending(stream, lastEnd)))
    }

    // buf[0..holding) is exactly the last `holding` raw bits received.
    ghost predicate Valid() reads this, eph, buf {
      && Sized() && Timed()
      && (forall j | 0 <= j < holding :: buf[j] == stream[read - holding + j])
      && (lastEnd >= 0 ==> lastEnd <= read - holding)
    }

    constructor (max: nat, eph: Ephemeris)
      requires max > 0 && max % 16 == 0 && 65536 % max == 0
      ensures Valid() && fresh(buf) && this.max == max && this.eph == eph && stream == [] && read == 0
    {
      this.max, this.eph := max, eph;
      buf := new Bit[E1B_TSYM_PW + max - 1];
      holding, rdPos, bitsTow, expectingPreamble, probation, alert := 0, 0, 0, 0, 2, false;
      stream, origin, read, lastEnd := [], 0, 0, -1;
    }

    // What the solver reads, and the bits held.
    ghost function Now(): Progress
      reads this, eph
    {
      Progress(lastEnd, probation, alert, eph.tow, eph.sub)
    }

    ghost function Held(): seq<Bit>
      requires Sized()
      reads this
    {
      stream[read - holding..read]
    }

    ghost function Received(): seq<Bit>
      requires Sized()
      reads this
    {
      stream[origin..read]
    }

    // Everything is as if the bits received since the start had been there at once.
    ghost predicate OnTrack(start: Progress)
      reads this, eph
    {
      Sized() && Held() == Rest(Received()) && Now() == Learned(Received(), origin, start)
    }

    // Reset (called by the search task) and the assignments Tracking starts with, perhaps for another
    // satellite.  Bits that were not read before are gone: the FPGA has written over them by the first poll.
    method Restart()
      requires Valid()
      modifies this
      ensures Valid() && holding == 0 && lastEnd == -1 && probation == 2 && !alert
      ensures stream == old(stream[..read]) && read == old(read) && origin == read
      ensures OnTrack(Now())
    {
      probation := 2;
      alert := false;
      holding := 0;
      expectingPreamble := 0;
      stream, origin, lastEnd := stream[..read], read, -1;
      assert Received() == [] && Held() == [];
    }

    // NAV bits still held in the FPGA's circular buffer.
    function RemoteBits(wrPos: nat): nat
      reads this
      requires max > 0
    {
      (wrPos - rdPos) % max
    }

    method ParityCheck() returns (nbits: nat, err: bool)
      requires buf.Length >= SUBFRAME_BITS && holding >= SUBFRAME_BITS
      modifies this`expectingPreamble, this`probation, this`alert, this`bitsTow, eph, buf
      ensures var v := Check(old(buf[..]));
              && (err <==> v != Accepted)
              && nbits == (match v case NoPreamble => 1 case ParityError(n) => n case Accepted => SUBFRAME_BITS)
              && probation == (match v
                               case NoPreamble => old(probation)
                               case ParityError(_) => 2
                               case Accepted => if old(probation) > 0 then old(probation) - 1 else 0)
      ensures err ==>
                eph.tow == old(eph.tow) && eph.sub == old(eph.sub) && bitsTow == old(bitsTow)
                && alert == old(alert)
      ensures !err ==> eph.tow == 6 * TowCount(old(buf[..])) && eph.sub == SubframeId(old(buf[..]))
      ensures !err ==> alert == AlertFlag(old(buf[..])) && bitsTow == holding - SUBFRAME_BITS
      ensures 0 < nbits <= SUBFRAME_BITS
      ensures forall j | nbits <= j < buf.Length :: buf[j] == old(buf[j])
    {
      hide CheckFrom, Decoded, Bin;
      var p := new Bit[6];
      if buf[..8] == PREAMBLE {
        p[4], p[5] := false, false;
      } else if buf[..8] == Flip(PREAMBLE) {
        p[4], p[5] := true, true;
      } else {
        if expectingPreamble > 0 {
          expectingPreamble := expectingPreamble + 1;
        }
        return 1, true;
      }
      assert p[4] == p[5] == !buf[..8][0];
      ghost var b := buf[..];
      assert buf[..8] == b[..8];
      expectingPreamble := 0;
      nbits, err := CheckWords(p, buf);
      if err {
        probation := 2;
      } else {
        ghost var w := Decoded(b, 1);
        SliceOfWord(buf[..], w, 0, 17);
        SliceOfWord(buf[..], w, 19, 22);
        assert w[0..17] == w[..17];
        alert := buf[47];
        eph.Subframe(buf);
        if probation > 0 {
          probation := probation - 1;
        }
        bitsTow := holding - SUBFRAME_BITS;
      }
    }

    // Sixteen bits behind those held ...
    method StoreWord(navWord: nat)
      requires Sized() && read + 16 <= |stream| && holding + 16 <= buf.Length
      requires forall j | 0 <= j < holding :: buf[j] == stream[read - holding + j]
      requires navWord == Bin(stream[read..read + 16])
      modifies buf
      ensures forall j | 0 <= j < holding + 16 :: buf[j] == stream[read - holding + j]
    {
      hide Bin;
      ghost var bits := stream[read..read + 16];
      ghost var all := stream[read - holding..read + 16];
      JoinSlices(stream, read - holding, read, read + 16);
      ShiftIn(buf, holding, navWord, bits);
      assert forall j | 0 <= j < holding + 16 :: buf[j] == all[j];
    }

    // ... and the counters.
    method CountWord()
      requires Valid() && read + 16 <= |stream| && holding + 16 <= buf.Length
      requires forall j | 0 <= j < holding + 16 :: buf[j] == stream[read - holding + j]
      modifies this`holding, this`rdPos, this`bitsTow, this`read
      ensures Valid() && read == old(read) + 16 && holding == old(holding) + 16
    {
      hide Check, TowCount;
      NextSlot(read, max);
      holding := holding + 16;
      rdPos := (rdPos + 16) % max;
      read := read + 16;
      bitsTow := bitsTow + 16;
    }

    method TakeWord(navWord: nat)
      requires Valid() && read + 16 <= |stream| && holding + 16 <= buf.Length
      requires navWord == Bin(stream[read..read + 16])
      modifies this`holding, this`rdPos, this`bitsTow, this`read, buf
      ensures Valid() && read == old(read) + 16 && holding == old(holding) + 16
    {
      hide Bin, Timed;
      StoreWord(navWord);
      CountWord();
    }

    // The next whole word in the FPGA's buffer.
    method NextWord(up: Upload, ghost sent: seq<Bit>, ghost first: nat) returns (navWord: nat)
      requires Sized() && Shows(up, max, sent, first) && first <= read && read + 16 <= |sent|
      ensures navWord == Bin(sent[read..read + 16])
    {
      hide Bin;
      SlotOfNextWord(up, max, sent, first, read);
      navWord := up.navBuf[rdPos / 16];
    }

    // How many bits can be taken: those not read, in whole words.
    method Available(up: Upload, ghost sent: seq<Bit>) returns (avail: nat)
      requires Sized() && Shows(up, max, sent, read)
      ensures avail == (|sent| - read) / 16 * 16
    {
      assert up.navBits % max == |sent| % max && read <= |sent| < read + max;
      hide Shows;
      RemoteIsUnread(up.navBits, |sent|, read, rdPos, max);
      avail := RemoteBits(up.navBits) / 16 * 16;
    }

    // The copying loops of Tracking: whole 16-bit words from the FPGA to the end of buf.
    method Drain(up: Upload, ghost sent: seq<Bit>)
      requires Valid() && holding < SUBFRAME_BITS
      requires stream <= sent && Shows(up, max, sent, read)
      modifies this`holding, this`rdPos, this`bitsTow, this`stream, this`read, buf
      ensures Valid()
      ensures stream == sent && read == old(read) + (|sent| - old(read)) / 16 * 16 && read % 16 == 0
      ensures holding == old(holding) + (read - old(read))
    {
      var avail := Available(up, sent);
      assert |sent| < read + max;
      hide Check, TowCount, Bin, Timed, Shows;
      WholeWordsFit(|sent| - read);
      ExtendStream(sent);
      TakeWords(up, avail);
    }

    // The loop over the words, behind which there is room.
    method TakeWords(up: Upload, avail: nat)
      requires Valid() && Shows(up, max, stream, read) && holding + avail <= buf.Length
      requires avail % 16 == 0 && read + avail <= |stream|
      modifies this`holding, this`rdPos, this`bitsTow, this`read, buf
      ensures Valid() && read == old(read) + avail && holding == old(holding) + avail
    {
      hide Check, TowCount, Bin, Timed, Shows, Sized;
      ghost var first, held := read, holding;
      var left := avail;
      while left > 0
        invariant Valid() && 0 <= left <= avail && left % 16 == 0
        invariant read == first + avail - left && holding == held + avail - left
        decreases left
      {
        var navWord := NextWord(up, stream, first);
        TakeWord(navWord);
        left := left - 16;
      }
    }

    ghost method ExtendStream(sent: seq<Bit>)
      requires Valid() && stream <= sent
      modifies this`stream
      ensures Valid() && stream == sent
    {
      hide Check, TowCount;
      assert lastEnd >= 0 ==> Ending(sent, lastEnd) == Ending(stream, lastEnd);
      stream := sent;
    }

    // The subframe loop of Tracking.
    method Subframes()
      requires Valid()
      modifies this`holding, this`expectingPreamble, this`probation, this`alert, this`bitsTow, this`lastEnd, eph, buf
      ensures Valid()
      ensures Held() == Rest(old(Held())) && Now() == Learned(old(Held()), old(read - holding), old(Now()))
    {
      hide Rest, Learned, Drop, Next, Timed;
      ghost var h, n, p := Held(), read - holding, Now();
      ghost var r, l := Rest(h), Learned(h, n, p);
      while holding >= SUBFRAME_BITS
        invariant Valid() && h == Held() && n == read - holding && p == Now()
        invariant Rest(h) == r && Learned(h, n, p) == l
        decreases holding
      {
        OneTest(h, n, p);
        OneSubframe();
        h, n, p := h[Drop(h)..], n + Drop(h), Next(h, n, p);
      }
      NoTest(h, n, p);
    }

    // The new bits join those held and those received.
    method Fetch(up: Upload, ghost sent: seq<Bit>) returns (ghost t: seq<Bit>)
      requires Valid() && holding < SUBFRAME_BITS
      requires stream <= sent && Shows(up, max, sent, read)
      modifies this`holding, this`rdPos, this`bitsTow, this`stream, this`read, buf
      ensures Valid() && Now() == old(Now()) && origin == old(origin) && read - holding == old(read - holding)
      ensures Held() == old(Held()) + t && Received() == old(Received()) + t
      ensures stream == sent && read == old(read) + (|sent| - old(read)) / 16 * 16 && read % 16 == 0
    {
      hide Shows, Timed;
      ghost var n, m := read, read - holding;
      ghost var was := stream;
      Drain(up, sent);
      t := stream[n..read];
      SliceOfPrefix(was, sent, origin, n);
      SliceOfPrefix(was, sent, m, n);
      JoinSlices(stream, origin, n, read);
      JoinSlices(stream, m, n, read);
    }

    // One poll: what is new in the FPGA's buffer, then the subframes there are.
    method Poll(up: Upload, ghost sent: seq<Bit>, ghost start: Progress)
      requires Valid() && OnTrack(start)
      requires stream <= sent && Shows(up, max, sent, read)
      modifies this`holding, this`rdPos, this`bitsTow, this`stream, this`read,
               this`expectingPreamble, this`probation, this`alert, this`lastEnd, eph, buf
      ensures Valid() && OnTrack(start) && origin == old(origin)
      ensures stream == sent && read == old(read) + (|sent| - old(read)) / 16 * 16 && read % 16 == 0
    {
      hide Shows, Timed, Rest, Learned;
      ghost var r, h := Received(), Held();
      assert |h| == holding && |r| == read - origin && h == Rest(r);
      ghost var t := Fetch(up, sent);
      InPieces(r, t, origin, start);
      Subframes();
    }

    // Tracking: any number of polls, each finding any number of new bits as long as the writer is
    // less than a buffer ahead of what the poll before it left unread.  What the channel holds and has
    // learned depends on the bits received since the start only, not on the polls.
    method Tracking(uploads: seq<Upload>, ghost sents: seq<seq<Bit>>, ghost start: Progress)
      requires Valid() && OnTrack(start) && |sents| == |uploads|
      requires forall i | 0 <= i < |sents| :: Before(stream, sents, i) <= sents[i]
      requires forall i | 0 <= i < |sents| ::
                 Shows(uploads[i], max, sents[i], if i == 0 then read else |Before(stream, sents, i)| / 16 * 16)
      modifies this`holding, this`rdPos, this`bitsTow, this`stream, this`read,
               this`expectingPreamble, this`probation, this`alert, this`lastEnd, eph, buf
      ensures Valid() && OnTrack(start) && origin == old(origin) && stream == Before(old(stream), sents, |sents|)
      ensures |sents| > 0 ==> read == |stream| / 16 * 16
    {
      for i := 0 to |uploads|
        invariant Valid() && OnTrack(start) && origin == old(origin) && stream == Before(old(stream), sents, i)
        invariant if i == 0 then read == old(read) else read == |stream| / 16 * 16
      {
        hide Shows, Timed, OnTrack;
        Poll(uploads[i], sents[i], start);
        WholeWords(|sents[i]|, read);
      }
    }

    // ChanSnapshot for an enabled channel: what the solver reads at a moment when the FPGA's bit
    // counter is wrPos.
    method GetSnapshot(wrPos: nat, includeAlert: bool, ghost sent: seq<Bit>, ghost start: Progress)
      returns (ok: bool, bits: nat, bitsSinceTow: int)
      requires Valid() && OnTrack(start) && stream <= sent && wrPos % max == |sent| % max && |sent| < read + max
      ensures ok <==> (!alert || includeAlert) && probation == 0
      ensures ok ==> lastEnd >= 0 && bits == holding + (|sent| - read) && bitsSinceTow == |sent| - lastEnd
      ensures bits < SUBFRAME_BITS + max
    {
      hide Check, TowCount, Rest, Learned;
      assert |Rest(Received())| < SUBFRAME_BITS && |Held()| == holding;
      RemoteIsUnread(wrPos, |sent|, read, rdPos, max);
      var remote := RemoteBits(wrPos);
      hide RemoteBits;
      ok := !(alert && !includeAlert) && probation == 0;
      bits, bitsSinceTow := holding + remote, bitsTow + remote;
    }

    method OneSubframe()
      requires Valid() && holding >= SUBFRAME_BITS
      modifies this`holding, this`expectingPreamble, this`probation, this`alert, this`bitsTow, this`lastEnd, eph, buf
      ensures Valid()
      ensures var h := old(Held());
              Held() == h[Drop(h)..] && Now() == Next(h, old(read - holding), old(Now()))
    {
      hide Check, TowCount, SubframeId, AlertFlag, Drop, Next, Timed;
      ghost var h, n, p := Held(), read - holding, Now();
      ghost var b := buf[..];
      assert forall i | 0 <= i < SUBFRAME_BITS :: b[i] == h[i];
      TestOf(b, h, n, p);
      TestAndShift();
      RestOfSlice(stream, n, read, Drop(h));
    }

    method TestAndShift()
      requires Valid() && holding >= SUBFRAME_BITS
      modifies this`holding, this`expectingPreamble, this`probation, this`alert, this`bitsTow, this`lastEnd, eph, buf
      ensures Valid()
      ensures var b := old(buf[..]);
              match Check(b)
              case NoPreamble => holding == old(holding) - 1 && Now() == old(Now())
              case ParityError(k) => holding == old(holding) - k && Now() == old(Now()).(probation := 2)
              case Accepted =>
                && holding == old(holding) - SUBFRAME_BITS
                && Now() == Progress(old(read - holding) + SUBFRAME_BITS,
                   if old(probation) > 0 then old(probation) - 1 else 0,
                                     AlertFlag(b), 6 * TowCount(b), SubframeId(b))
    {
      hide Check, TowCount, SubframeId, AlertFlag;
      ghost var b := buf[..];
      ghost var end := read - holding + SUBFRAME_BITS;
      SameSubframe(b, Ending(stream, end));
      var nbits, err := ParityCheck();
      if !err {
        expectingPreamble := 1;
        lastEnd := end;
      }
      holding := holding - nbits;
      MoveDown(buf, nbits, holding);
    }
  }

  lemma SliceOfPrefix(s: seq<Bit>, t: seq<Bit>, a: nat, b: nat)
    requires s <= t && a <= b <= |s|
    ensures s[a..b] == t[a..b]
  {
  }

  // Part of the second word of a buffer.
  lemma SliceOfWord(b: seq<Bit>, w: seq<Bit>, lo: nat, hi: nat)
    requires |w| == 30 && lo <= hi <= 30 && |b| >= 60 && forall j | 30 <= j < 60 :: b[j] == w[j - 30]
    ensures b[30 + lo..30 + hi] == w[lo..hi]
  {
  }

  lemma JoinSlices(stream: seq<Bit>, a: nat, b: nat, c: nat)
    requires a <= b <= c <= |stream|
    ensures stream[a..c] == stream[a..b] + stream[b..c]
  {
  }

  lemma RestOfSlice(stream: seq<Bit>, n: nat, read: nat, k: nat)
    requires n + k <= read <= |stream|
    ensures stream[n..read][k..] == stream[n + k..read]
  {
  }

  // memmove(buf, buf + n, len)
  method MoveDown(buf: array<Bit>, n: nat, len: nat)
    requires n + len <= buf.Length
    modifies buf
    ensures forall j | 0 <= j < len :: buf[j] == old(buf[n + j])
  {
    for j := 0 to len
      invariant forall i | 0 <= i < j :: buf[i] == old(buf[n + i])
      invariant forall i | j <= i < buf.Length :: buf[i] == old(buf[i])
    {
      buf[j] := buf[j + n];
    }
  }

  lemma SameSubframe(b: seq<Bit>, c: seq<Bit>)
    requires |b| >= SUBFRAME_BITS && |c| >= SUBFRAME_BITS
    requires forall i | 0 <= i < SUBFRAME_BITS :: b[i] == c[i]
    ensures Check(b) == Check(c) && TowCount(b) == TowCount(c) && SubframeId(b) == SubframeId(c)
            && AlertFlag(b) == AlertFlag(c)
  {
    assert b[..8] == c[..8];
    SameCheckFrom(b, c, 0);
    assert Word(b, 1) == Word(c, 1);
  }

  lemma {:induction false} SameCheckFrom(b: seq<Bit>, c: seq<Bit>, k: nat)
    requires |b| >= SUBFRAME_BITS && |c| >= SUBFRAME_BITS && k <= 10
    requires forall i | 0 <= i < SUBFRAME_BITS :: b[i] == c[i]
    ensures CheckFrom(b, k) == CheckFrom(c, k)
    decreases 10 - k
  {
    if k < 10 {
      SameCheckFrom(b, c, k + 1);
      assert Word(b, k) == Word(c, k);
    }
  }

  lemma Distribute(m: nat, a: int, b: int, c: int)
    ensures m * (a - b + c) == m * a - m * b + m * c
  {
    assert m * (a - b + c) == m * (a - b) + m * c;
  }

  // The FPGA's counter minus the read position, modulo the buffer, is the number of unread bits.
  lemma RemoteIsUnread(wrPos: nat, sent: nat, read: nat, rdPos: nat, max: nat)
    requires max > 0 && wrPos % max == sent % max && read <= sent < read + max && rdPos == read % max
    ensures (wrPos - rdPos) % max == sent - read
  {
    var a, b, c := wrPos / max, sent / max, read / max;
    DivMod(wrPos, max);
    DivMod(sent, max);
    DivMod(read, max);
    Distribute(max, a, b, c);
    ModUnique(wrPos - rdPos, max, a - b + c, sent - read);
  }

  lemma SlotOfNextWord(up: Upload, max: nat, sent: seq<Bit>, first: nat, read: nat)
    requires max > 0 && Shows(up, max, sent, first) && first <= read && read + 16 <= |sent| && read % 16 == 0
    ensures (read % max) / 16 < |up.navBuf|
    ensures up.navBuf[(read % max) / 16] == Bin(sent[read..read + 16])
  {
  }

  lemma WholeWordsFit(n: nat)
    ensures n / 16 * 16 <= n && n / 16 * 16 % 16 == 0
  {
  }

  lemma WholeWords(n: nat, read: nat)
    requires read <= n < read + 16 && read % 16 == 0
    ensures read == n / 16 * 16
  {
  }

  lemma NextSlot(read: nat, max: nat)
    requires max > 0
    ensures (read % max + 16) % max == (read + 16) % max
  {
    var x := read % max + 16;
    DivMod(read, max);
    DivMod(x, max);
    Distribute(max, read / max, 0, x / max);
    ModUnique(read + 16, max, read / max + x / max, x % max);
  }

  // ----- Satellite time ---------------------------------------------------------------------------

  lemma OffByLessThanAWeek(x: int, d: nat)
    requires x % WEEK_BITS == 0 && d < WEEK_BITS
    ensures (x - d) % WEEK_BITS == 0 <==> d == 0
  {
  }

  // The whole-bit part of the clock, in seconds, and what is added to it within one bit.
  function NavTime(tow: nat, bits: int): real {
    tow as real + bits as real / 50.0
  }

  function SubBit(ms: nat, chips: nat, cgPhase: nat): real {
    ms as real * 0.001 + chips as real / 1023000.0 + cgPhase as real / 64.0 / 1023000.0
  }

  // A bit more is 20 ms more, and so on: what each part of the clock replica adds, how they carry into each
  // other, and where they start.
  lemma ClockSteps(tow: nat, bits: int, ms: nat, chips: nat, cgPhase: nat)
    ensures NavTime(tow, bits + 1) == NavTime(tow, bits) + 0.02 && NavTime(tow + 1, bits) == NavTime(tow, bits) + 1.0
    ensures SubBit(ms + 1, chips, cgPhase) == SubBit(ms, chips, cgPhase) + 0.001
    ensures NavTime(tow, bits + 1) + SubBit(ms, chips, cgPhase) == NavTime(tow, bits) + SubBit(ms + 20, chips, cgPhase)
    ensures SubBit(ms + 1, chips, cgPhase) == SubBit(ms, chips + 1023, cgPhase)
    ensures SubBit(ms, chips + 1, cgPhase) == SubBit(ms, chips, cgPhase + 64)
    ensures NavTime(0, 0) == 0.0 == SubBit(0, 0, 0)
  {
  }

  lemma WholeBits(tow: nat, bits: int, ms: nat, chips: nat, cgPhase: nat)
    ensures var clock := tow as real + bits as real / 50.0 + ms as real * 0.001 +
                         chips as real / 1023000.0 + cgPhase as real / 64.0 / 1023000.0;
            var c := 50.0 * (clock - (ms as real / 1000.0 + chips as real / 1023000.0 + cgPhase as real / 65472000.0));
            c == (50 * tow + bits) as real && c.Floor == 50 * tow + bits
  {
  }

  class Snapshot {
    var tow: nat
    var bits: int
    var bitsTow: int
    var ms: nat
    var chips: nat
    var cgPhase: nat
    var towDelayed: bool

    constructor ()
    {
      tow, bits, bitsTow, ms, chips, cgPhase, towDelayed := 0, 0, 0, 0, 0, 0, false;
    }

    // The bits from TOW to now as the channel counts them, measured against the stream.
    ghost predicate On(total: nat, t0: int) reads this {
      (50 * tow + bitsTow - t0 - total) % WEEK_BITS == 0 && 0 <= bits <= bitsTow
    }

    // LoadAtomic, for an enabled L1 channel.  up and dn are the words of the clock replica, srq the
    // un-serviced epoch flag; ephemerisValid is EPHEM::Valid.
    method LoadAtomic(ch: Channel, up0: nat, up1: nat, dn0: nat, dn1: nat, srq: bool,
                      includeAlert: bool, ephemerisValid: bool, ghost sent: seq<Bit>, ghost start: Progress)
      returns (ok: bool)
      requires ch.Valid() && ch.OnTrack(start) && ch.stream <= sent && up1 % ch.max == |sent| % ch.max
               && |sent| < ch.read + ch.max
      modifies this
      ensures ok <==> (!ch.alert || includeAlert) && ch.probation == 0 && ephemerisValid
      ensures ok ==> forall t0 | Consistent(sent, ch.origin, t0) :: On(|sent|, t0)
      ensures ok ==> tow == ch.eph.tow && bits == ch.holding + (|sent| - ch.read) < SUBFRAME_BITS + ch.max
      ensures ok ==> bitsTow == |sent| - ch.lastEnd && ch.lastEnd >= 0
      ensures ok ==> ms == up0 + (if srq then 1 else 0)
      ensures ok ==> chips == (dn0 % 4) * 1024 + dn1 % 1024 && cgPhase == dn1 / 1024
    {
      hide Check, TowCount, Rest, Learned;
      ok, bits, bitsTow := ch.GetSnapshot(up1, includeAlert, sent, start);
      ok := ok && ephemerisValid;
      if ok {
        assert Ending(ch.stream, ch.lastEnd) == Ending(sent, ch.lastEnd);
        ms := up0 + (if srq then 1 else 0);
        chips := (dn0 % 4) * 1024 + dn1 % 1024;
        cgPhase := dn1 / 1024;
        tow := ch.eph.tow;
      }
    }

    // GetClock, L1 branch.  Its sanity test (ms < 0 && ms > 20) can never be true.
    method GetClock() returns (clock: real)
      modifies this`bits, this`towDelayed
      ensures clock == NavTime(tow, bits) + SubBit(ms, chips, cgPhase)
      ensures 50.0 * (clock - (ms as real / 1000.0 + chips as real / 1023000.0 + cgPhase as real / 65472000.0))
           == (50 * tow + bits) as real
      ensures forall total: nat, t0 | old(On(total, t0)) && bitsTow < MAX_TOW_DELAY ::
                var c := 50.0 * (clock - (ms as real / 1000.0 + chips as real / 1023000.0
                                          + cgPhase as real / 65472000.0));
                c == c.Floor as real && (c.Floor - (t0 + total)) % 30240000 == 0
      ensures towDelayed <==> old(bits) != bitsTow && bitsTow < MAX_TOW_DELAY
      ensures bits == if towDelayed then bitsTow else old(bits)
      ensures forall total, t0 | old(On(total, t0)) && bitsTow < WEEK_BITS ::
                (50 * tow + bits - t0 - total) % WEEK_BITS == 0 <==> old(bits) == bitsTow || bitsTow < MAX_TOW_DELAY
      ensures old(bits) < MAX_TOW_DELAY ==>
                forall total, t0 | old(On(total, t0)) && bitsTow < WEEK_BITS ::
                  (50 * tow + bits - t0 - total) % WEEK_BITS == 0 <==> bitsTow < MAX_TOW_DELAY
    {
      forall total, t0 | On(total, t0) && bitsTow < WEEK_BITS {
        OffByLessThanAWeek(50 * tow + bitsTow - t0 - total, bitsTow - bits);
      }
      towDelayed := false;
      if bits != bitsTow && bitsTow < MAX_TOW_DELAY {
        bits := bitsTow;
        towDelayed := true;
      }
      clock := tow as real + bits as real / 50.0 + ms as real * 0.001 +
               chips as real / 1023000.0 + cgPhase as real / 64.0 / 1023000.0;
      WholeBits(tow, bits, ms, chips, cgPhase);
    }
  }
}
