/** A whole 300-bit subframe of ten words: the verdict of ParityCheck on the raw received bits, the
    data it decodes, and the theorems about both. */
module NavSubframe {
  import opened ParityCode
  import opened NavParity

  const SUBFRAME_BITS := 300
  const PREAMBLE: seq<Bit> := [true, false, false, false, true, false, true, true]

  datatype Verdict = NoPreamble | ParityError(nbits: nat) | Accepted

  predicate Recognised(b: seq<Bit>)
    requires |b| >= 8
  {
    b[..8] == PREAMBLE || b[..8] == Flip(PREAMBLE)
  }

  function Word(b: seq<Bit>, k: nat): (w: seq<Bit>)
    requires 30 * k + 30 <= |b|
    ensures |w| == WORD_BITS
  {
    b[30 * k..30 * k + 30]
  }

  // D29* and D30* for word k: the last two bits of the word before it.  The preamble's first bit
  // is 1 when upright, so for the first word it tells the phase.
  function D29(b: seq<Bit>, k: nat): Bit
    requires 30 * k < |b|
  {
    if k == 0 then !b[0] else b[30 * k - 2]
  }

  function D30(b: seq<Bit>, k: nat): Bit
    requires 30 * k < |b|
  {
    if k == 0 then !b[0] else b[30 * k - 1]
  }

  predicate WordGood(b: seq<Bit>, k: nat)
    requires 30 * k + 30 <= |b|
  {
    WordOk(Word(b, k), D29(b, k), D30(b, k))
  }

  function CheckFrom(b: seq<Bit>, k: nat): Verdict
    requires |b| >= SUBFRAME_BITS && k <= 10
    decreases 10 - k
  {
    if k == 10 then Accepted
    else if WordGood(b, k) then CheckFrom(b, k + 1)
    else ParityError(30 * k + 30)
  }

  function Check(b: seq<Bit>): Verdict
    requires |b| >= SUBFRAME_BITS
  {
    if Recognised(b) then CheckFrom(b, 0) else NoPreamble
  }

  // Word k as L1_parity leaves it in the buffer.
  function Decoded(b: seq<Bit>, k: nat): (w: seq<Bit>)
    requires 30 * k + 30 <= |b|
    ensures |w| == WORD_BITS
  {
    Descramble(Word(b, k), D30(b, k))
  }

  lemma {:induction false} AcceptedMeansAllGood(b: seq<Bit>, k: nat)
    requires |b| >= SUBFRAME_BITS && k <= 10
    ensures CheckFrom(b, k) == Accepted <==> forall j | k <= j < 10 :: WordGood(b, j)
    decreases 10 - k
  {
    if k < 10 {
      AcceptedMeansAllGood(b, k + 1);
    }
  }

  // ----- Phase ambiguity --------------------------------------------------------------------------

  lemma FlipFlip(a: seq<Bit>)
    ensures Flip(Flip(a)) == a
  {
  }

  lemma RecognisedOfFlip(b: seq<Bit>)
    requires |b| >= 8
    ensures Recognised(Flip(b)) == Recognised(b)
  {
    assert Flip(b)[..8] == Flip(b[..8]);
    FlipFlip(b[..8]);
    FlipFlip(PREAMBLE);
  }

  lemma WordOfFlip(b: seq<Bit>, k: nat)
    requires 30 * k + 30 <= |b|
    ensures WordGood(Flip(b), k) == WordGood(b, k)
    ensures Decoded(Flip(b), k)[..DATA_BITS] == Decoded(b, k)[..DATA_BITS]
  {
    assert Word(Flip(b), k) == Flip(Word(b, k));
    assert D29(Flip(b), k) == !D29(b, k) && D30(Flip(b), k) == !D30(b, k);
    WordOkOfFlip(Word(b, k), D29(b, k), D30(b, k));
  }

  lemma {:induction false} CheckFromOfFlip(b: seq<Bit>, k: nat)
    requires |b| >= SUBFRAME_BITS && k <= 10
    ensures CheckFrom(Flip(b), k) == CheckFrom(b, k)
    decreases 10 - k
  {
    if k < 10 {
      CheckFromOfFlip(b, k + 1);
      WordOfFlip(b, k);
    }
  }

  // A carrier loop locked half a cycle off inverts every bit.  Neither the verdict (and so the
  // number of bits dropped) nor a single decoded data bit depends on it.
  lemma PhaseAmbiguityResolved(b: seq<Bit>)
    requires |b| >= SUBFRAME_BITS
    ensures Check(Flip(b)) == Check(b)
    ensures forall k | 0 <= k < 10 :: Decoded(Flip(b), k)[..DATA_BITS] == Decoded(b, k)[..DATA_BITS]
  {
    CheckFromOfFlip(b, 0);
    RecognisedOfFlip(b);
    forall k | 0 <= k < 10
      ensures Decoded(Flip(b), k)[..DATA_BITS] == Decoded(b, k)[..DATA_BITS]
    {
      WordOfFlip(b, k);
    }
  }

  // ----- Error detection --------------------------------------------------------------------------

  // The first corrupted word of an otherwise valid subframe is caught when an odd number of its
  // bits, or exactly two, arrived flipped.  In the first word that includes corruptions that turn
  // one preamble into the other and so change the phase every bit is read with.
  lemma CorruptionDetected(b: seq<Bit>, b': seq<Bit>, k: nat)
    requires |b| == |b'| && |b| >= SUBFRAME_BITS && Check(b) == Accepted
    requires k < 10 && b[..30 * k] == b'[..30 * k]
    requires var n := Weight(XorSeq(Word(b, k), Word(b', k)), WORD_BITS); n % 2 == 1 || n == 2
    ensures Check(b') != Accepted
  {
    AcceptedMeansAllGood(b, 0);
    AcceptedMeansAllGood(b', 0);
    assert WordGood(b, k);
    SamePrefix(b, b', 30 * k);
    if D30(b', k) == D30(b, k) {
      WordErrorDetected(Word(b, k), Word(b', k), D29(b, k), D30(b, k));
      assert !WordGood(b', k);
    } else if Recognised(b') {
      InvertedPreambleCosts8(b, b');
      OppositePhaseWord(Word(b, 0), Word(b', 0), D30(b, 0));
      assert !WordGood(b', 0);
    }
  }

  lemma SamePrefix(b: seq<Bit>, b': seq<Bit>, n: nat)
    requires n <= |b| && n <= |b'| && b[..n] == b'[..n]
    ensures forall i | 0 <= i < n :: b[i] == b'[i]
  {
    assert forall i | 0 <= i < n :: b[i] == b[..n][i];
  }

  // Reading one preamble as the other takes eight flipped bits.
  lemma InvertedPreambleCosts8(b: seq<Bit>, b': seq<Bit>)
    requires |b| == |b'| && |b| >= SUBFRAME_BITS && Recognised(b) && Recognised(b') && b[0] != b'[0]
    ensures Weight(XorSeq(Word(b, 0), Word(b', 0)), WORD_BITS) >= 8
  {
    var e := XorSeq(Word(b, 0), Word(b', 0));
    assert b[..8][0] == b[0] && b'[..8][0] == b'[0];
    assert forall i | 0 <= i < 8 :: b[i] == b[..8][i] && b'[i] == b'[..8][i] && e[i];
    WeightOfPrefix(e, 8, WORD_BITS);
  }

  lemma {:induction false} WeightOfPrefix(e: seq<Bit>, m: nat, n: nat)
    requires m <= n <= |e| && forall i | 0 <= i < m :: e[i]
    ensures Weight(e, n) >= m
  {
    if n > 0 {
      WeightOfPrefix(e, if m < n then m else n - 1, n - 1);
    }
  }

  lemma OppositePhaseWord(w: seq<Bit>, w': seq<Bit>, d: Bit)
    requires |w| == |w'| == WORD_BITS && WordOk(w, d, d)
    requires Weight(XorSeq(w, w'), WORD_BITS) % 2 == 1
    ensures !WordOk(w', !d, !d)
  {
    var e := XorSeq(w, w');
    WeightOfFlip(e, WORD_BITS);
    assert XorSeq(w, Flip(w')) == Flip(e);
    WordErrorDetected(w, Flip(w'), d, d);
    WordOkOfFlip(w', !d, !d);
  }

  // ----- What is accepted is what IS-GPS-200 transmits --------------------------------------------

  // The transmitter's side of Table 20-XIV: data bits scrambled by D30*, then the parity bit that
  // brings each equation over the unscrambled data to D29* or D30*.
  function EncodeWord(data: seq<Bit>, d29: Bit, d30: Bit): (w: seq<Bit>)
    requires |data| == DATA_BITS
    ensures |w| == WORD_BITS
  {
    seq(DATA_BITS, i requires 0 <= i < DATA_BITS => data[i] != d30) +
    [d29 != Sum(CODE.r0, data, DATA_BITS), d30 != Sum(CODE.r1, data, DATA_BITS),
     d29 != Sum(CODE.r2, data, DATA_BITS), d30 != Sum(CODE.r3, data, DATA_BITS),
     d30 != Sum(CODE.r4, data, DATA_BITS), d29 != Sum(CODE.r5, data, DATA_BITS)]
  }

  lemma {:induction false} SumOfPrefix(row: nat -> bool, w: seq<Bit>, data: seq<Bit>, n: nat)
    requires n <= |data| <= |w| && w[..|data|] == data
    ensures Sum(row, w, n) == Sum(row, data, n)
  {
    if n > 0 {
      SumOfPrefix(row, w, data, n - 1);
      assert w[n - 1] == w[..|data|][n - 1];
    }
  }

  // A row's only position past the data is its own parity bit.
  lemma SumSplitsAtParity(row: nat -> bool, w: seq<Bit>, p: nat)
    requires |w| == WORD_BITS && DATA_BITS <= p < WORD_BITS
    requires forall i: nat | DATA_BITS <= i < WORD_BITS :: row(i) <==> i == p
    ensures Sum(row, w, WORD_BITS) == (Sum(row, w[..DATA_BITS], DATA_BITS) != w[p])
  {
    SumOfPrefix(row, w, w[..DATA_BITS], DATA_BITS);
    assert Sum(row, w, 26) == ((Sum(row, w, 24) != Tap(row, w, 24)) != Tap(row, w, 25));
    assert Sum(row, w, 28) == ((Sum(row, w, 26) != Tap(row, w, 26)) != Tap(row, w, 27));
    assert Sum(row, w, 30) == ((Sum(row, w, 28) != Tap(row, w, 28)) != Tap(row, w, 29));
  }

  lemma RowsSplitAtParity(d: seq<Bit>)
    requires |d| == WORD_BITS
    ensures Sum(CODE.r0, d, WORD_BITS) == (Sum(CODE.r0, d[..DATA_BITS], DATA_BITS) != d[24])
    ensures Sum(CODE.r1, d, WORD_BITS) == (Sum(CODE.r1, d[..DATA_BITS], DATA_BITS) != d[25])
    ensures Sum(CODE.r2, d, WORD_BITS) == (Sum(CODE.r2, d[..DATA_BITS], DATA_BITS) != d[26])
    ensures Sum(CODE.r3, d, WORD_BITS) == (Sum(CODE.r3, d[..DATA_BITS], DATA_BITS) != d[27])
    ensures Sum(CODE.r4, d, WORD_BITS) == (Sum(CODE.r4, d[..DATA_BITS], DATA_BITS) != d[28])
    ensures Sum(CODE.r5, d, WORD_BITS) == (Sum(CODE.r5, d[..DATA_BITS], DATA_BITS) != d[29])
  {
    SumSplitsAtParity(CODE.r0, d, 24);
    SumSplitsAtParity(CODE.r1, d, 25);
    SumSplitsAtParity(CODE.r2, d, 26);
    SumSplitsAtParity(CODE.r3, d, 27);
    SumSplitsAtParity(CODE.r4, d, 28);
    SumSplitsAtParity(CODE.r5, d, 29);
  }

  lemma EncodedBits(data: seq<Bit>, d29: Bit, d30: Bit)
    requires |data| == DATA_BITS
    ensures var e := EncodeWord(data, d29, d30);
            && (forall i | 0 <= i < DATA_BITS :: e[i] == (data[i] != d30))
            && e[24] == (d29 != Sum(CODE.r0, data, DATA_BITS)) && e[25] == (d30 != Sum(CODE.r1, data, DATA_BITS))
            && e[26] == (d29 != Sum(CODE.r2, data, DATA_BITS)) && e[27] == (d30 != Sum(CODE.r3, data, DATA_BITS))
            && e[28] == (d30 != Sum(CODE.r4, data, DATA_BITS)) && e[29] == (d29 != Sum(CODE.r5, data, DATA_BITS))
  {
    hide Sum;
  }

  lemma SameWord(w: seq<Bit>, e: seq<Bit>)
    requires |w| == |e| == WORD_BITS && forall i | 0 <= i < DATA_BITS :: w[i] == e[i]
    ensures w == e <==>
              w[24] == e[24] && w[25] == e[25] && w[26] == e[26] && w[27] == e[27] && w[28] == e[28]
              && w[29] == e[29]
  {
  }

  // A word passes exactly when it is the transmitter's encoding of the data it decodes to.
  lemma WordOkIsEncoding(w: seq<Bit>, d29: Bit, d30: Bit)
    requires |w| == WORD_BITS
    ensures WordOk(w, d29, d30) <==> w == EncodeWord(Descramble(w, d30)[..DATA_BITS], d29, d30)
  {
    var d := Descramble(w, d30);
    var data := d[..DATA_BITS];
    assert d[24] == w[24] && d[25] == w[25] && d[26] == w[26] && d[27] == w[27] && d[28] == w[28] && d[29] == w[29];
    assert forall i | 0 <= i < DATA_BITS :: w[i] == (data[i] != d30);
    hide Sum, EncodeWord, Descramble;
    RowsSplitAtParity(d);
    EncodedBits(data, d29, d30);
    SameWord(w, EncodeWord(data, d29, d30));
  }

  lemma DecodeEncodeWord(data: seq<Bit>, d29: Bit, d30: Bit)
    requires |data| == DATA_BITS
    ensures Descramble(EncodeWord(data, d29, d30), d30)[..DATA_BITS] == data
    ensures WordOk(EncodeWord(data, d29, d30), d29, d30)
  {
    WordOkIsEncoding(EncodeWord(data, d29, d30), d29, d30);
    assert Descramble(EncodeWord(data, d29, d30), d30)[..DATA_BITS] == data;
  }

  // b carries these ten data words, each encoded after the bits of the one before.
  ghost predicate Carries(b: seq<Bit>, words: seq<seq<Bit>>)
    requires |b| >= SUBFRAME_BITS
  {
    && |words| == 10
    && forall k | 0 <= k < 10 :: |words[k]| == DATA_BITS && Word(b, k) == EncodeWord(words[k], D29(b, k), D30(b, k))
  }

  lemma CarriedWordIsDecoded(b: seq<Bit>, words: seq<seq<Bit>>, k: nat)
    requires |b| >= SUBFRAME_BITS && Carries(b, words) && k < 10
    ensures words[k] == Decoded(b, k)[..DATA_BITS] && WordGood(b, k)
  {
    DecodeEncodeWord(words[k], D29(b, k), D30(b, k));
  }

  lemma AcceptedCarries(b: seq<Bit>, words: seq<seq<Bit>>)
    requires |b| >= SUBFRAME_BITS && Check(b) == Accepted
    requires |words| == 10 && forall k | 0 <= k < 10 :: words[k] == Decoded(b, k)[..DATA_BITS]
    ensures Carries(b, words)
  {
    AcceptedMeansAllGood(b, 0);
    forall k | 0 <= k < 10
      ensures Word(b, k) == EncodeWord(words[k], D29(b, k), D30(b, k))
    {
      assert WordGood(b, k);
      WordOkIsEncoding(Word(b, k), D29(b, k), D30(b, k));
    }
  }

  // A subframe is accepted exactly when it has a preamble and carries some ten data words, and
  // those words are then the ones decoded.
  lemma AcceptedIsTransmitted(b: seq<Bit>)
    requires |b| >= SUBFRAME_BITS
    ensures Check(b) == Accepted <==> Recognised(b) && exists words :: Carries(b, words)
    ensures forall words, k | Carries(b, words) && 0 <= k < 10 :: words[k] == Decoded(b, k)[..DATA_BITS]
  {
    if Check(b) == Accepted {
      AcceptedCarries(b, seq(10, k requires 0 <= k < 10 => Decoded(b, k)[..DATA_BITS]));
    }
    forall words, k | Carries(b, words) && 0 <= k < 10
      ensures words[k] == Decoded(b, k)[..DATA_BITS] && WordGood(b, k)
    {
      CarriedWordIsDecoded(b, words, k);
    }
    AcceptedMeansAllGood(b, 0);
  }
}
