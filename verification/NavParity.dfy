/** Parity of a GPS L1 C/A navigation word (IS-GPS-200, section 20.3.5), as gps/channel.cpp
    checks it, and what the check is worth.

    A bit is a bool, and the source's exclusive-or of 0/1 chars is !=.  ParityCode holds what is
    true of any linear code given by six parity equations. */
module ParityCode {
  type Bit = bool

  // Each row tells which positions of a word (from 0) take part in that equation.
  datatype Code = Code(r0: nat -> bool, r1: nat -> bool, r2: nat -> bool,
                       r3: nat -> bool, r4: nat -> bool, r5: nat -> bool)

  predicate Tap(row: nat -> bool, w: seq<Bit>, i: nat)
    requires i < |w|
  {
    w[i] && row(i)
  }

  // The exclusive-or of a row's positions among the first n.
  function Sum(row: nat -> bool, w: seq<Bit>, n: nat): Bit
    requires n <= |w|
  {
    if n == 0 then false else Sum(row, w, n - 1) != Tap(row, w, n - 1)
  }

  function XorSeq(a: seq<Bit>, b: seq<Bit>): (r: seq<Bit>)
    requires |a| == |b|
    ensures |r| == |a|
    ensures forall i | 0 <= i < |a| :: r[i] == (a[i] != b[i])
  {
    seq(|a|, i requires 0 <= i < |a| => a[i] != b[i])
  }

  function Flip(a: seq<Bit>): (r: seq<Bit>)
    ensures |r| == |a|
    ensures forall i | 0 <= i < |a| :: r[i] == !a[i]
  {
    seq(|a|, i requires 0 <= i < |a| => !a[i])
  }

  lemma {:induction false} SumIsLinear(row: nat -> bool, a: seq<Bit>, b: seq<Bit>, n: nat)
    requires |a| == |b| && n <= |a|
    ensures Sum(row, XorSeq(a, b), n) == (Sum(row, a, n) != Sum(row, b, n))
  {
    if n > 0 {
      SumIsLinear(row, a, b, n - 1);
    }
  }

  // How many of the first n positions of an error pattern are set.
  function Weight(e: seq<Bit>, n: nat): nat
    requires n <= |e|
  {
    if n == 0 then 0 else Weight(e, n - 1) + (if e[n - 1] then 1 else 0)
  }

  // Position i takes part in an odd number of the equations.
  predicate OddColumn(c: Code, i: nat) {
    c.r0(i) != (c.r1(i) != (c.r2(i) != (c.r3(i) != (c.r4(i) != c.r5(i)))))
  }

  // Some equation tells positions i and j apart.
  predicate ColumnsDiffer(c: Code, i: nat, j: nat) {
    || c.r0(i) != c.r0(j) || c.r1(i) != c.r1(j) || c.r2(i) != c.r2(j)
    || c.r3(i) != c.r3(j) || c.r4(i) != c.r4(j) || c.r5(i) != c.r5(j)
  }

  ghost predicate OddDistinct(c: Code, len: nat) {
    && (forall i: nat | i < len :: OddColumn(c, i))
    && (forall i: nat, j: nat | i < j < len :: ColumnsDiffer(c, i, j))
  }

  lemma {:induction false} OddWeightIsOddSum(c: Code, e: seq<Bit>, n: nat)
    requires n <= |e| && OddDistinct(c, n)
    ensures (Weight(e, n) % 2 == 1) ==
            (Sum(c.r0, e, n) != (Sum(c.r1, e, n) != (Sum(c.r2, e, n) !=
            (Sum(c.r3, e, n) != (Sum(c.r4, e, n) != Sum(c.r5, e, n))))))
  {
    if n > 0 {
      OddWeightIsOddSum(c, e, n - 1);
      assert OddColumn(c, n - 1);
    }
  }

  // Where the set positions of a pattern of weight at most two are.
  lemma {:induction false} SetPositions(e: seq<Bit>, n: nat) returns (i: nat, j: nat)
    requires n <= |e| && Weight(e, n) <= 2
    ensures Weight(e, n) >= 1 ==> j < n
    ensures Weight(e, n) == 2 ==> i < j
    ensures forall k | 0 <= k < n ::
              e[k] == ((Weight(e, n) >= 1 && k == j) || (Weight(e, n) == 2 && k == i))
  {
    i, j := 0, 0;
    if n > 0 {
      i, j := SetPositions(e, n - 1);
      if e[n - 1] {
        i, j := j, n - 1;
      }
    }
  }

  lemma {:induction false} SumOfPair(row: nat -> bool, e: seq<Bit>, n: nat, i: nat, j: nat)
    requires n <= |e| && i < j < |e|
    requires forall k | 0 <= k < n :: e[k] == (k == i || k == j)
    ensures Sum(row, e, n) == ((i < n && row(i)) != (j < n && row(j)))
  {
    if n > 0 {
      SumOfPair(row, e, n - 1, i, j);
    }
  }

  // Some sum is not zero.
  predicate Detects(c: Code, e: seq<Bit>, n: nat)
    requires n <= |e|
  {
    Sum(c.r0, e, n) || Sum(c.r1, e, n) || Sum(c.r2, e, n) || Sum(c.r3, e, n) || Sum(c.r4, e, n) || Sum(c.r5, e, n)
  }

  // An odd number of set positions, or exactly two, cannot cancel in all six equations.
  lemma OddOrPairIsDetected(c: Code, e: seq<Bit>, n: nat)
    requires n <= |e| && OddDistinct(c, n)
    requires Weight(e, n) % 2 == 1 || Weight(e, n) == 2
    ensures Detects(c, e, n)
  {
    if Weight(e, n) == 2 {
      var i, j := SetPositions(e, n);
      SumOfPair(c.r0, e, n, i, j);
      SumOfPair(c.r1, e, n, i, j);
      SumOfPair(c.r2, e, n, i, j);
      SumOfPair(c.r3, e, n, i, j);
      SumOfPair(c.r4, e, n, i, j);
      SumOfPair(c.r5, e, n, i, j);
      assert ColumnsDiffer(c, i, j);
    } else {
      OddWeightIsOddSum(c, e, n);
    }
  }

  lemma {:induction false} WeightOfFlip(e: seq<Bit>, n: nat)
    requires n <= |e|
    ensures Weight(Flip(e), n) == n - Weight(e, n)
  {
    if n > 0 {
      WeightOfFlip(e, n - 1);
    }
  }
}

module NavParity {
  import opened ParityCode

  const WORD_BITS := 30
  const DATA_BITS := 24

  // Table 20-XIV of IS-GPS-200: bit n of the word (from 1) takes part in the equation.  Each row
  // ends with the received parity bit it is compared with, so that a sum of zero means agreement.
  predicate Row0(i: nat) {
    var n := i + 1;
    n == 1 || n == 2 || n == 3 || n == 5 || n == 6 || n == 10 || n == 11 || n == 12 || n == 13 || n == 14 || n
    == 17 || n == 18 || n == 20 || n == 23 || n == 25
  }

  predicate Row1(i: nat) {
    var n := i + 1;
    n == 2 || n == 3 || n == 4 || n == 6 || n == 7 || n == 11 || n == 12 || n == 13 || n == 14 || n == 15 || n
    == 18 || n == 19 || n == 21 || n == 24 || n == 26
  }

  predicate Row2(i: nat) {
    var n := i + 1;
    n == 1 || n == 3 || n == 4 || n == 5 || n == 7 || n == 8 || n == 12 || n == 13 || n == 14 || n == 15 || n
    == 16 || n == 19 || n == 20 || n == 22 || n == 27
  }

  predicate Row3(i: nat) {
    var n := i + 1;
    n == 2 || n == 4 || n == 5 || n == 6 || n == 8 || n == 9 || n == 13 || n == 14 || n == 15 || n == 16 || n
    == 17 || n == 20 || n == 21 || n == 23 || n == 28
  }

  predicate Row4(i: nat) {
    var n := i + 1;
    n == 1 || n == 3 || n == 5 || n == 6 || n == 7 || n == 9 || n == 10 || n == 14 || n == 15 || n == 16 || n
    == 17 || n == 18 || n == 21 || n == 22 || n == 24 || n == 29
  }

  predicate Row5(i: nat) {
    var n := i + 1;
    n == 3 || n == 5 || n == 6 || n == 8 || n == 9 || n == 10 || n == 11 || n == 13 || n == 15 || n == 19 || n
    == 22 || n == 23 || n == 24 || n == 30
  }

  const CODE: Code := Code(Row0, Row1, Row2, Row3, Row4, Row5)

  // Only the 24 data bits are scrambled by D30*.
  function Descramble(w: seq<Bit>, d30: Bit): (r: seq<Bit>)
    requires |w| == WORD_BITS
    ensures |r| == WORD_BITS
    ensures forall i | 0 <= i < DATA_BITS :: r[i] == (w[i] != d30)
    ensures forall i | DATA_BITS <= i < WORD_BITS :: r[i] == w[i]
  {
    seq(WORD_BITS, i requires 0 <= i < WORD_BITS => if i < DATA_BITS then w[i] != d30 else w[i])
  }

  // A received word passes when the six sums over its descrambled bits agree with D29* and D30* of
  // the word before: equations 0, 2 and 5 start from D29*, equations 1, 3 and 4 from D30*.
  predicate WordOk(w: seq<Bit>, d29: Bit, d30: Bit)
    requires |w| == WORD_BITS
  {
    var d := Descramble(w, d30);
    && Sum(CODE.r0, d, WORD_BITS) == d29
    && Sum(CODE.r1, d, WORD_BITS) == d30
    && Sum(CODE.r2, d, WORD_BITS) == d29
    && Sum(CODE.r3, d, WORD_BITS) == d30
    && Sum(CODE.r4, d, WORD_BITS) == d30
    && Sum(CODE.r5, d, WORD_BITS) == d29
  }

  lemma ColumnsAreOdd(i: nat)
    requires i < WORD_BITS
    ensures OddColumn(CODE, i)
  {
  }

  lemma ColumnsAllDiffer(i: nat, j: nat)
    requires i < j < WORD_BITS
    ensures ColumnsDiffer(CODE, i, j)
  {
  }

  lemma CodeIsOddDistinct()
    ensures OddDistinct(CODE, WORD_BITS)
  {
    forall i: nat | i < WORD_BITS
      ensures OddColumn(CODE, i)
    {
      ColumnsAreOdd(i);
    }
    forall i: nat, j: nat | i < j < WORD_BITS
      ensures ColumnsDiffer(CODE, i, j)
    {
      ColumnsAllDiffer(i, j);
    }
  }

  // From a word that passes, an odd number of flipped bits, or exactly two, is always caught.
  lemma WordErrorDetected(w: seq<Bit>, w': seq<Bit>, d29: Bit, d30: Bit)
    requires |w| == |w'| == WORD_BITS && WordOk(w, d29, d30)
    requires var k := Weight(XorSeq(w, w'), WORD_BITS); k % 2 == 1 || k == 2
    ensures !WordOk(w', d29, d30)
  {
    var e := XorSeq(w, w');
    var d := Descramble(w, d30);
    assert Descramble(w', d30) == XorSeq(d, e);
    CodeIsOddDistinct();
    OddOrPairIsDetected(CODE, e, WORD_BITS);
    SumIsLinear(CODE.r0, d, e, WORD_BITS);
    SumIsLinear(CODE.r1, d, e, WORD_BITS);
    SumIsLinear(CODE.r2, d, e, WORD_BITS);
    SumIsLinear(CODE.r3, d, e, WORD_BITS);
    SumIsLinear(CODE.r4, d, e, WORD_BITS);
    SumIsLinear(CODE.r5, d, e, WORD_BITS);
  }

  lemma SumOfTen(row: nat -> bool, w: seq<Bit>, n: nat)
    requires n + 10 <= |w|
    ensures Sum(row, w, n + 10) == ((((((((((Sum(row, w, n) != Tap(row, w, n)) != Tap(row, w, n + 1)) !=
              Tap(row, w, n + 2)) != Tap(row, w, n + 3)) != Tap(row, w, n + 4)) != Tap(row, w, n + 5)) !=
              Tap(row, w, n + 6)) != Tap(row, w, n + 7)) != Tap(row, w, n + 8)) != Tap(row, w, n + 9))
  {
    assert Sum(row, w, n + 2) == ((Sum(row, w, n) != Tap(row, w, n)) != Tap(row, w, n + 1));
    assert Sum(row, w, n + 4) == ((Sum(row, w, n + 2) != Tap(row, w, n + 2)) != Tap(row, w, n + 3));
    assert Sum(row, w, n + 6) == ((Sum(row, w, n + 4) != Tap(row, w, n + 4)) != Tap(row, w, n + 5));
    assert Sum(row, w, n + 8) == ((Sum(row, w, n + 6) != Tap(row, w, n + 6)) != Tap(row, w, n + 7));
  }

  // Every equation holds exactly one parity bit, so flipping only the parity bits flips every sum.
  lemma SumOfParityBits(row: nat -> bool, e: seq<Bit>)
    requires row == CODE.r0 || row == CODE.r1 || row == CODE.r2 || row == CODE.r3 || row == CODE.r4 || row == CODE.r5
    requires |e| == WORD_BITS && forall i | 0 <= i < WORD_BITS :: e[i] == (i >= DATA_BITS)
    ensures Sum(row, e, WORD_BITS)
  {
    SumOfTen(row, e, 0);
    SumOfTen(row, e, 10);
    SumOfTen(row, e, 20);
  }

  // A word received with every bit inverted passes just when the upright word does.
  lemma WordOkOfFlip(w: seq<Bit>, d29: Bit, d30: Bit)
    requires |w| == WORD_BITS
    ensures WordOk(Flip(w), !d29, !d30) == WordOk(w, d29, d30)
  {
    var d := Descramble(w, d30);
    var e := seq(WORD_BITS, i => i >= DATA_BITS);
    assert Descramble(Flip(w), !d30) == XorSeq(d, e);
    SumIsLinear(CODE.r0, d, e, WORD_BITS); SumOfParityBits(CODE.r0, e);
    SumIsLinear(CODE.r1, d, e, WORD_BITS); SumOfParityBits(CODE.r1, e);
    SumIsLinear(CODE.r2, d, e, WORD_BITS); SumOfParityBits(CODE.r2, e);
    SumIsLinear(CODE.r3, d, e, WORD_BITS); SumOfParityBits(CODE.r3, e);
    SumIsLinear(CODE.r4, d, e, WORD_BITS); SumOfParityBits(CODE.r4, e);
    SumIsLinear(CODE.r5, d, e, WORD_BITS); SumOfParityBits(CODE.r5, e);
  }
}

/** L1_parity: one word checked in place, and the array it leaves behind. */
module L1Word {
  import opened ParityCode
  import opened NavParity

  // The six equations as the source writes them, without D29* and D30*.  d counts from 1, as the
  // standard does; d[0] is not used and the received parity bits are d[25] to d[30].
  function Equation0(d: seq<Bit>): Bit
    requires |d| == 1 + WORD_BITS
  {
    ((((((((((((d[1] != d[2]) != d[3]) != d[5]) != d[6]) != d[10]) != d[11]) != d[12]) != d[13]) != d[14]) !=
    d[17]) != d[18]) != d[20]) != d[23]
  }

  function Equation1(d: seq<Bit>): Bit
    requires |d| == 1 + WORD_BITS
  {
    ((((((((((((d[2] != d[3]) != d[4]) != d[6]) != d[7]) != d[11]) != d[12]) != d[13]) != d[14]) != d[15]) !=
    d[18]) != d[19]) != d[21]) != d[24]
  }

  function Equation2(d: seq<Bit>): Bit
    requires |d| == 1 + WORD_BITS
  {
    ((((((((((((d[1] != d[3]) != d[4]) != d[5]) != d[7]) != d[8]) != d[12]) != d[13]) != d[14]) != d[15]) !=
    d[16]) != d[19]) != d[20]) != d[22]
  }

  function Equation3(d: seq<Bit>): Bit
    requires |d| == 1 + WORD_BITS
  {
    ((((((((((((d[2] != d[4]) != d[5]) != d[6]) != d[8]) != d[9]) != d[13]) != d[14]) != d[15]) != d[16]) !=
    d[17]) != d[20]) != d[21]) != d[23]
  }

  function Equation4(d: seq<Bit>): Bit
    requires |d| == 1 + WORD_BITS
  {
    (((((((((((((d[1] != d[3]) != d[5]) != d[6]) != d[7]) != d[9]) != d[10]) != d[14]) != d[15]) != d[16]) !=
    d[17]) != d[18]) != d[21]) != d[22]) != d[24]
  }

  function Equation5(d: seq<Bit>): Bit
    requires |d| == 1 + WORD_BITS
  {
    (((((((((((d[3] != d[5]) != d[6]) != d[8]) != d[9]) != d[10]) != d[11]) != d[13]) != d[15]) != d[19]) !=
    d[22]) != d[23]) != d[24]
  }

  function Equations(d: seq<Bit>, d29: Bit, d30: Bit): (p: seq<Bit>)
    requires |d| == 1 + WORD_BITS
    ensures |p| == 6
  {
    [d29 != Equation0(d), d30 != Equation1(d), d29 != Equation2(d),
     d30 != Equation3(d), d30 != Equation4(d), d29 != Equation5(d)]
  }

  lemma SumOfNone(row: nat -> bool, w: seq<Bit>)
    ensures !Sum(row, w, 0)
  {
  }

  lemma Equation0IsCode(d: seq<Bit>, w: seq<Bit>)
    requires |d| == 1 + WORD_BITS && w == d[1..]
    ensures Sum(CODE.r0, w, WORD_BITS) == (Equation0(d) != d[25])
  {
    hide Sum;
    SumOfNone(CODE.r0, w);
    SumOfTen(CODE.r0, w, 0); SumOfTen(CODE.r0, w, 10); SumOfTen(CODE.r0, w, 20);
  }

  lemma Equation1IsCode(d: seq<Bit>, w: seq<Bit>)
    requires |d| == 1 + WORD_BITS && w == d[1..]
    ensures Sum(CODE.r1, w, WORD_BITS) == (Equation1(d) != d[26])
  {
    hide Sum;
    SumOfNone(CODE.r1, w);
    SumOfTen(CODE.r1, w, 0);
    assert Sum(CODE.r1, w, 10) == ((((d[2] != d[3]) != d[4]) != d[6]) != d[7]);
    SumOfTen(CODE.r1, w, 10);
    SumOfTen(CODE.r1, w, 20);
  }

  lemma Equation2IsCode(d: seq<Bit>, w: seq<Bit>)
    requires |d| == 1 + WORD_BITS && w == d[1..]
    ensures Sum(CODE.r2, w, WORD_BITS) == (Equation2(d) != d[27])
  {
    hide Sum;
    SumOfNone(CODE.r2, w);
    SumOfTen(CODE.r2, w, 0);
    assert Sum(CODE.r2, w, 10) == (((((d[1] != d[3]) != d[4]) != d[5]) != d[7]) != d[8]);
    SumOfTen(CODE.r2, w, 10);
    SumOfTen(CODE.r2, w, 20);
  }

  lemma Equation3IsCode(d: seq<Bit>, w: seq<Bit>)
    requires |d| == 1 + WORD_BITS && w == d[1..]
    ensures Sum(CODE.r3, w, WORD_BITS) == (Equation3(d) != d[28])
  {
    hide Sum;
    SumOfNone(CODE.r3, w);
    SumOfTen(CODE.r3, w, 0); SumOfTen(CODE.r3, w, 10); SumOfTen(CODE.r3, w, 20);
  }

  lemma Equation4IsCode(d: seq<Bit>, w: seq<Bit>)
    requires |d| == 1 + WORD_BITS && w == d[1..]
    ensures Sum(CODE.r4, w, WORD_BITS) == (Equation4(d) != d[29])
  {
    hide Sum;
    SumOfNone(CODE.r4, w);
    SumOfTen(CODE.r4, w, 0); SumOfTen(CODE.r4, w, 10); SumOfTen(CODE.r4, w, 20);
  }

  lemma Equation5IsCode(d: seq<Bit>, w: seq<Bit>)
    requires |d| == 1 + WORD_BITS && w == d[1..]
    ensures Sum(CODE.r5, w, WORD_BITS) == (Equation5(d) != d[30])
  {
    hide Sum;
    SumOfNone(CODE.r5, w);
    SumOfTen(CODE.r5, w, 0); SumOfTen(CODE.r5, w, 10); SumOfTen(CODE.r5, w, 20);
  }

  // A word passes exactly when its received parity bits are the computed ones.
  lemma WordOkIsEquations(w: seq<Bit>, d: seq<Bit>, d29: Bit, d30: Bit)
    requires |w| == WORD_BITS && |d| == 1 + WORD_BITS && d[1..] == Descramble(w, d30)
    ensures WordOk(w, d29, d30) <==> w[DATA_BITS..] == Equations(d, d29, d30)
  {
    var v := d[1..];
    Equation0IsCode(d, v); Equation1IsCode(d, v); Equation2IsCode(d, v);
    Equation3IsCode(d, v); Equation4IsCode(d, v); Equation5IsCode(d, v);
  }

  // for (i=1; i<25; i++) d[i] ^= D30
  method DescrambleWord(buf: array<Bit>, off: nat, d30: Bit)
    requires off + WORD_BITS <= buf.Length
    modifies buf
    ensures buf[off..off + WORD_BITS] == Descramble(old(buf[off..off + WORD_BITS]), d30)
    ensures forall i | 0 <= i < buf.Length && !(off <= i < off + DATA_BITS) :: buf[i] == old(buf[i])
  {
    for i := off to off + DATA_BITS
      invariant forall j | off <= j < i :: buf[j] == (old(buf[j]) != d30)
      invariant forall j | 0 <= j < buf.Length && !(off <= j < i) :: buf[j] == old(buf[j])
    {
      buf[i] := buf[i] != d30;
    }
  }

  method StoreParity(p: array<Bit>, q: seq<Bit>)
    requires p.Length == 6 && |q| == 6
    modifies p
    ensures p[..] == q
  {
    p[0], p[1], p[2], p[3], p[4], p[5] := q[0], q[1], q[2], q[3], q[4], q[5];
  }

  method L1Parity(p: array<Bit>, buf: array<Bit>, off: nat, d29: Bit, d30: Bit) returns (mismatch: bool)
    requires p.Length == 6 && off + WORD_BITS <= buf.Length && p != buf
    modifies p, buf
    ensures buf[off..off + WORD_BITS] == Descramble(old(buf[off..off + WORD_BITS]), d30)
    ensures forall i | 0 <= i < buf.Length && !(off <= i < off + DATA_BITS) :: buf[i] == old(buf[i])
    ensures mismatch <==> !WordOk(old(buf[off..off + WORD_BITS]), d29, d30)
    ensures !mismatch ==> p[..] == old(buf[off + DATA_BITS..off + WORD_BITS])
  {
    ghost var w := buf[off..off + WORD_BITS];
    ghost var parity := buf[off + DATA_BITS..off + WORD_BITS];
    assert parity == w[DATA_BITS..];
    DescrambleWord(buf, off, d30);
    var v := buf[off..off + WORD_BITS];
    var q := Equations([d30] + v, d29, d30);
    WordOkIsEquations(w, [d30] + v, d29, d30);
    assert v[DATA_BITS..] == parity;
    StoreParity(p, q);
    mismatch := v[DATA_BITS..] != p[..];
  }
}
