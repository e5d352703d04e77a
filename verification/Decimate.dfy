/** The half-band decimator of gps/search.cpp, in place, over the real numbers: it skips the taps that are
    zero, writes its output over its input, and is applied again and again. */
module Decimate {
  datatype Complex = Complex(re: real, im: real)

  const ZERO := Complex(0.0, 0.0)

  function Sum(a: Complex, b: Complex): Complex {
    Complex(a.re + b.re, a.im + b.im)
  }

  function Scale(a: Complex, c: real): Complex {
    Complex(a.re * c, a.im * c)
  }

  // A signal goes on with zeros.
  function At(x: seq<Complex>, k: nat): Complex {
    if k < |x| then x[k] else ZERO
  }

  // ----- The plain filter -------------------------------------------------------------------------

  // The first n taps at position i.
  function Taps(x: seq<Complex>, c: seq<real>, i: nat, n: nat): Complex
    requires n <= |c|
  {
    if n == 0 then ZERO else Sum(Taps(x, c, i, n - 1), Scale(At(x, i + n - 1), c[n - 1]))
  }

  function Fir(x: seq<Complex>, c: seq<real>, i: nat): Complex {
    Taps(x, c, i, |c|)
  }

  // Filtered, every other sample kept.
  function Decimated(x: seq<Complex>, c: seq<real>): (y: seq<Complex>)
    ensures |y| == |x| / 2
  {
    seq(|x| / 2, o requires 0 <= o => Fir(x, c, 2 * o))
  }

  // ----- What it computes ------------------------------------------------------------------------

  // The real and the imaginary parts of a signal.
  function Re(x: seq<Complex>): (r: seq<real>)
    ensures |r| == |x| && forall k | 0 <= k < |x| :: r[k] == x[k].re
  {
    seq(|x|, k requires 0 <= k < |x| => x[k].re)
  }

  function Im(x: seq<Complex>): (r: seq<real>)
    ensures |r| == |x| && forall k | 0 <= k < |x| :: r[k] == x[k].im
  {
    seq(|x|, k requires 0 <= k < |x| => x[k].im)
  }

  // x[i] * c[0] + x[i + 1] * c[1] + ... for the first n of c, with zeros behind x.
  function Dot(x: seq<real>, c: seq<real>, i: nat, n: nat): real
    requires n <= |c|
  {
    if n == 0 then 0.0 else Dot(x, c, i, n - 1) + (if i + n - 1 < |x| then x[i + n - 1] * c[n - 1] else 0.0)
  }

  // The two parts are filtered alike and apart from each other.
  lemma {:induction false} TapsAreDots(x: seq<Complex>, c: seq<real>, i: nat, n: nat)
    requires n <= |c|
    ensures Taps(x, c, i, n) == Complex(Dot(Re(x), c, i, n), Dot(Im(x), c, i, n))
  {
    if n > 0 {
      TapsAreDots(x, c, i, n - 1);
    }
  }

  lemma DecimatedIsDots(x: seq<Complex>, c: seq<real>, o: nat)
    requires o < |x| / 2
    ensures Decimated(x, c)[o].re == Dot(Re(x), c, 2 * o, |c|)
    ensures Decimated(x, c)[o].im == Dot(Im(x), c, 2 * o, |c|)
  {
    TapsAreDots(x, c, 2 * o, |c|);
  }

  lemma AllAreDots(x: seq<Complex>, c: seq<real>, y: seq<Complex>)
    requires y == Decimated(x, c)
    ensures forall o | 0 <= o < |x| / 2 ::
              y[o].re == Dot(Re(x), c, 2 * o, |c|) && y[o].im == Dot(Im(x), c, 2 * o, |c|)
  {
    forall o | 0 <= o < |x| / 2 {
      DecimatedIsDots(x, c, o);
    }
    hide Decimated, Dot;
  }

  lemma {:induction false} DotOfImpulse(x: seq<real>, c: seq<real>, i: nat, n: nat, p: nat)
    requires n <= |c| && p < |x| && forall k | 0 <= k < |x| && k != p :: x[k] == 0.0
    ensures Dot(x, c, i, n) == if i <= p < i + n then x[p] * c[p - i] else 0.0
  {
    if n > 0 {
      DotOfImpulse(x, c, i, n - 1, p);
    }
  }

  // One sample among zeros brings out the taps, every other one of them.
  lemma ImpulseResponse(x: seq<Complex>, c: seq<real>, p: nat, o: nat)
    requires p < |x| && o < |x| / 2 && forall k | 0 <= k < |x| && k != p :: x[k] == Complex(0.0, 0.0)
    ensures Decimated(x, c)[o]
         == if 2 * o <= p < 2 * o + |c| then Complex(x[p].re * c[p - 2 * o], x[p].im * c[p - 2 * o])
            else Complex(0.0, 0.0)
  {
    DecimatedIsDots(x, c, o);
    DotOfImpulse(Re(x), c, 2 * o, |c|, p);
    DotOfImpulse(Im(x), c, 2 * o, |c|, p);
  }

  lemma {:induction false} DotOfSum(x: seq<real>, y: seq<real>, z: seq<real>, c: seq<real>, i: nat, n: nat)
    requires n <= |c| && |x| == |y| == |z| && forall k | 0 <= k < |x| :: z[k] == x[k] + y[k]
    ensures Dot(z, c, i, n) == Dot(x, c, i, n) + Dot(y, c, i, n)
  {
    if n > 0 {
      DotOfSum(x, y, z, c, i, n - 1);
    }
  }

  // Signals added are filtered one by one.
  lemma FilterIsLinear(x: seq<Complex>, y: seq<Complex>, z: seq<Complex>, c: seq<real>, o: nat)
    requires |x| == |y| == |z| && o < |x| / 2
    requires forall k | 0 <= k < |x| :: z[k] == Complex(x[k].re + y[k].re, x[k].im + y[k].im)
    ensures var a, b := Decimated(x, c)[o], Decimated(y, c)[o]; Decimated(z, c)[o] == Complex(a.re + b.re, a.im + b.im)
  {
    DecimatedIsDots(x, c, o);
    DecimatedIsDots(y, c, o);
    DecimatedIsDots(z, c, o);
    DotOfSum(Re(x), Re(y), Re(z), c, 2 * o, |c|);
    DotOfSum(Im(x), Im(y), Im(z), c, 2 * o, |c|);
  }

  // ----- Half-band filters ------------------------------------------------------------------------

  // Odd taps are zero but for the one in the middle, which is an odd one.
  predicate HalfBand(c: seq<real>) {
    && |c| % 4 == 3
    && forall j | 0 <= j < |c| && j % 2 == 1 && j != |c| / 2 :: c[j] == 0.0
  }

  // COEF[][FT]
  const COEF: seq<real> := [
    -0.010233, 0.0, 0.010668, 0.0, -0.016324, 0.0, 0.024377, 0.0, -0.036482, 0.0, 0.056990, 0.0, -0.101993, 0.0,
    0.316926, 0.500009, 0.316926,
    0.0, -0.101993, 0.0, 0.056990, 0.0, -0.036482, 0.0, 0.024377, 0.0, -0.016324, 0.0, 0.010668, 0.0, -0.010233
  ]

  lemma CoefIsHalfBand()
    ensures HalfBand(COEF) && |COEF| == 31
    ensures forall j | 0 <= j < 31 :: COEF[j] == COEF[30 - j]
  {
  }

  // The even taps below n.
  function EvenTaps(x: seq<Complex>, c: seq<real>, i: nat, n: nat): Complex
    requires n <= |c|
  {
    if n == 0 then ZERO
    else if n % 2 == 1 then Sum(EvenTaps(x, c, i, n - 1), Scale(At(x, i + n - 1), c[n - 1]))
    else EvenTaps(x, c, i, n - 1)
  }

  // The even taps and the one in the middle, h, are the whole filter.
  lemma {:induction false} EvenAndMiddle(x: seq<Complex>, c: seq<real>, i: nat, h: nat, n: nat)
    requires |c| == 2 * h + 1 && h % 2 == 1 && n <= |c|
    requires forall j | 0 <= j < |c| && j % 2 == 1 && j != h :: c[j] == 0.0
    ensures Taps(x, c, i, n) == if n <= h then EvenTaps(x, c, i, n) else Sum(EvenTaps(x, c, i, n),
            Scale(At(x, i + h), c[h]))
  {
    if n > 0 {
      hide At, Sum, Scale;
      EvenAndMiddle(x, c, i, h, n - 1);
      var e, m := EvenTaps(x, c, i, n - 1), Scale(At(x, i + h), c[h]);
      SumSwap(e, m, Scale(At(x, i + n - 1), c[n - 1]));
      ZeroTap(x, c, i, n);
      SumZero(e);
      SumZero(Sum(e, m));
    }
  }

  lemma ZeroTap(x: seq<Complex>, c: seq<real>, i: nat, n: nat)
    requires 0 < n <= |c|
    ensures c[n - 1] == 0.0 ==> Scale(At(x, i + n - 1), c[n - 1]) == ZERO
  {
    ScaleZero(At(x, i + n - 1));
    hide Scale;
  }

  lemma SumSwap(a: Complex, b: Complex, c: Complex)
    ensures Sum(Sum(a, b), c) == Sum(Sum(a, c), b)
  {
  }

  lemma ScaleZero(a: Complex)
    ensures Scale(a, 0.0) == ZERO
  {
  }

  lemma SumZero(a: Complex)
    ensures Sum(a, ZERO) == a == Sum(ZERO, a)
  {
  }

  // ----- The code ---------------------------------------------------------------------------------

  method DecimateBy2(c: seq<real>, size: nat, buf: array<Complex>) returns (n: nat)
    requires HalfBand(c) && size + |c| <= buf.Length
    modifies buf
    ensures n == size / 2
    ensures buf[..n] == Decimated(old(buf[..size]), c)
    ensures forall o | 0 <= o < n ::
              && buf[o].re == Dot(Re(old(buf[..size])), c, 2 * o, |c|)
              && buf[o].im == Dot(Im(old(buf[..size])), c, 2 * o, |c|)
  {
    hide Dot, Taps, Re, Im;
    ghost var x := buf[..size];
    // handle overlap
    var k := 0;
    while k < |c|
      invariant k <= |c|
      invariant forall m | 0 <= m < size :: buf[m] == x[m]
      invariant forall m | size <= m < size + k :: buf[m] == ZERO
    {
      buf[size + k] := ZERO;
      k := k + 1;
    }
    var i, o := 0, 0;
    while i < size
      invariant i == 2 * o && i <= size + 1
      invariant forall m | i <= m < size + |c| :: buf[m] == At(x, m)
      invariant forall m | 0 <= m < o :: buf[m] == Fir(x, c, 2 * m)
    {
      var acc := Accumulate(c, i, buf, x);
      buf[o] := acc;
      i, o := i + 2, o + 1;
    }
    n := size / 2;
    AllAreDots(x, c, buf[..n]);
  }

  // One output: the first tap, the other even ones, the middle.
  method Accumulate(c: seq<real>, i: nat, buf: array<Complex>, ghost x: seq<Complex>) returns (acc: Complex)
    requires HalfBand(c) && i + |c| <= buf.Length
    requires forall m | i <= m < i + |c| :: buf[m] == At(x, m)
    ensures acc == Fir(x, c, i)
  {
    hide At, Sum, Scale, Taps;
    acc := Scale(buf[i], c[0]);
    SumZero(acc);
    var j := 2;
    while j < |c|
      invariant j % 2 == 0 && 2 <= j <= |c| + 1
      invariant acc == EvenTaps(x, c, i, j - 1)
    {
      acc := Sum(acc, Scale(buf[i + j], c[j]));
      j := j + 2;
    }
    EvenAndMiddle(x, c, i, |c| / 2, |c|);
    acc := Sum(acc, Scale(buf[i + |c| / 2], c[|c| / 2]));
  }

  // ----- Again and again --------------------------------------------------------------------------

  // Once for every halving of decim down to 1.
  function Repeated(x: seq<Complex>, c: seq<real>, decim: nat): seq<Complex>
    decreases decim
  {
    if decim <= 1 then x else Repeated(Decimated(x, c), c, decim / 2)
  }

  method DecimateAll(c: seq<real>, size: nat, decim: nat, buf: array<Complex>) returns (n: nat)
    requires HalfBand(c) && size + |c| <= buf.Length
    modifies buf
    ensures n <= size && buf[..n] == Repeated(old(buf[..size]), c, decim)
  {
    n := size;
    var i := decim;
    while i > 1
      invariant n <= size && Repeated(buf[..n], c, i) == Repeated(old(buf[..size]), c, decim)
    {
      n := DecimateBy2(c, n, buf);
      i := i / 2;
    }
  }

  // The filter sees nothing behind the end of the signal.
  lemma {:induction false} TapsBehind(x: seq<Complex>, c: seq<real>, i: nat, n: nat)
    requires n <= |c| && i >= |x|
    ensures Taps(x, c, i, n) == ZERO
  {
    if n > 0 {
      TapsBehind(x, c, i, n - 1);
    }
  }

  // One filter for two: its taps act on the filtered signal, two samples apart.
  function TwoStage(x: seq<Complex>, c: seq<real>, i: nat, n: nat): Complex
    requires n <= |c|
  {
    if n == 0 then ZERO else Sum(TwoStage(x, c, i, n - 1), Scale(Fir(x, c, i + 2 * (n - 1)), c[n - 1]))
  }

  lemma {:induction false} SecondStage(x: seq<Complex>, c: seq<real>, i: nat, n: nat)
    requires n <= |c| && |x| % 2 == 0
    ensures Taps(Decimated(x, c), c, i, n) == TwoStage(x, c, 2 * i, n)
  {
    if n > 0 {
      SecondStage(x, c, i, n - 1);
      if i + n - 1 >= |x| / 2 {
        TapsBehind(x, c, 2 * (i + n - 1), |c|);
      }
    }
  }

  // c, times a, from place d on, among zeros.
  function Placed(c: seq<real>, d: nat, a: real, len: nat): (r: seq<real>)
    ensures |r| == len
  {
    seq(len, m requires 0 <= m => if d <= m < d + |c| then a * c[m - d] else 0.0)
  }

  function Added(a: seq<real>, b: seq<real>): (r: seq<real>)
    requires |a| == |b|
    ensures |r| == |a| && forall m | 0 <= m < |a| :: r[m] == a[m] + b[m]
  {
    seq(|a|, m requires 0 <= m < |a| => a[m] + b[m])
  }

  // The filter that is c after c, the second c acting on every other sample: c once for each of the
  // first n taps of the second, two places on each time.
  function Both(c: seq<real>, n: nat, len: nat): (r: seq<real>)
    requires n <= |c|
    ensures |r| == len
  {
    if n == 0 then seq(len, m => 0.0) else Added(Both(c, n - 1, len), Placed(c, 2 * (n - 1), c[n - 1], len))
  }

  lemma Regroup(a: real, s: real, x: real, c: real)
    ensures a * s + x * (a * c) == a * (s + x * c)
  {
  }

  lemma {:induction false} DotOfPlaced(x: seq<real>, c: seq<real>, d: nat, a: real, len: nat, i: nat, n: nat)
    requires n <= len
    ensures var k := if n < d then 0 else if n - d < |c| then n - d else |c|;
            Dot(x, Placed(c, d, a, len), i, n) == a * Dot(x, c, i + d, k)
  {
    hide Re, Im, Taps, Fir;
    if n > 0 {
      DotOfPlaced(x, c, d, a, len, i, n - 1);
      if d < n <= d + |c| && i + n - 1 < |x| {
        Regroup(a, Dot(x, c, i + d, n - d - 1), x[i + n - 1], c[n - d - 1]);
      }
    }
  }

  lemma {:induction false} DotOfAdded(x: seq<real>, a: seq<real>, b: seq<real>, i: nat, n: nat)
    requires |a| == |b| && n <= |a|
    ensures Dot(x, Added(a, b), i, n) == Dot(x, a, i, n) + Dot(x, b, i, n)
  {
    if n > 0 {
      DotOfAdded(x, a, b, i, n - 1);
    }
  }

  lemma {:induction false} DotOfNothing(x: seq<real>, len: nat, i: nat, n: nat)
    requires n <= len
    ensures Dot(x, seq(len, m => 0.0), i, n) == 0.0
  {
    if n > 0 {
      DotOfNothing(x, len, i, n - 1);
    }
  }

  lemma StepOfTwoStage(x: seq<Complex>, c: seq<real>, i: nat, n: nat)
    requires 0 < n <= |c|
    ensures var d, y, a := 2 * (n - 1), TwoStage(x, c, i, n - 1), c[n - 1];
            TwoStage(x, c, i, n)
            == Complex(y.re + a * Dot(Re(x), c, i + d, |c|), y.im + a * Dot(Im(x), c, i + d, |c|))
  {
    hide Dot, Re, Im, Taps, Sum, Scale;
    var d, y, a := 2 * (n - 1), TwoStage(x, c, i, n - 1), c[n - 1];
    TapsAreDots(x, c, i + d, |c|);
    SumOfScaled(y, Fir(x, c, i + d), a);
    assert TwoStage(x, c, i, n) == Sum(y, Scale(Fir(x, c, i + d), a));
  }

  lemma SumOfScaled(y: Complex, f: Complex, a: real)
    ensures Sum(y, Scale(f, a)) == Complex(y.re + a * f.re, y.im + a * f.im)
  {
    assert f.re * a == a * f.re && f.im * a == a * f.im;
  }

  lemma StepOfBoth(x: seq<real>, c: seq<real>, i: nat, n: nat, len: nat)
    requires 0 < n <= |c| && len + 2 >= 2 * n + |c|
    ensures Dot(x, Both(c, n, len), i, len)
         == Dot(x, Both(c, n - 1, len), i, len) + c[n - 1] * Dot(x, c, i + 2 * (n - 1), |c|)
  {
    assert Both(c, n, len) == Added(Both(c, n - 1, len), Placed(c, 2 * (n - 1), c[n - 1], len));
    hide Dot, Both, Placed, Added;
    DotOfAdded(x, Both(c, n - 1, len), Placed(c, 2 * (n - 1), c[n - 1], len), i, len);
    DotOfPlaced(x, c, 2 * (n - 1), c[n - 1], len, i, len);
  }

  lemma StageOfNone(x: seq<Complex>, c: seq<real>, i: nat, len: nat)
    ensures TwoStage(x, c, i, 0) == Complex(Dot(Re(x), Both(c, 0, len), i, len), Dot(Im(x), Both(c, 0, len), i, len))
  {
    hide Dot, Re, Im;
    DotOfNothing(Re(x), len, i, len);
    DotOfNothing(Im(x), len, i, len);
  }

  // Two plain filters are that one.
  lemma {:induction false} TwoStageIsBoth(x: seq<Complex>, c: seq<real>, i: nat, n: nat, len: nat)
    requires n <= |c| && len + 2 >= 2 * n + |c|
    ensures TwoStage(x, c, i, n)
         == Complex(Dot(Re(x), Both(c, n, len), i, len), Dot(Im(x), Both(c, n, len), i, len))
  {
    hide *;
    if n == 0 {
      StageOfNone(x, c, i, len);
    } else {
      TwoStageIsBoth(x, c, i, n - 1, len);
      StepOfTwoStage(x, c, i, n);
      StepOfBoth(Re(x), c, i, n, len);
      StepOfBoth(Im(x), c, i, n, len);
    }
  }

  lemma TwiceIsStages(x: seq<Complex>, c: seq<real>, o: nat)
    requires |x| % 2 == 0 && o < |x| / 4
    ensures |Repeated(x, c, 4)| == |x| / 4 && Repeated(x, c, 4)[o] == TwoStage(x, c, 4 * o, |c|)
  {
    var y := Decimated(x, c);
    assert Repeated(x, c, 4) == Repeated(y, c, 2) == Repeated(Decimated(y, c), c, 1) == Decimated(y, c);
    SecondStage(x, c, 2 * o, |c|);
  }

  // Two applications in place are two plain filters on the signal that goes on with zeros: the zeros put
  // behind the half-way result are what the first filter gives there.  Together they are one filter.
  lemma TwiceIsTwoStage(x: seq<Complex>, c: seq<real>, o: nat)
    requires |x| % 2 == 0 && o < |x| / 4
    ensures |Repeated(x, c, 4)| == |x| / 4 && Repeated(x, c, 4)[o] == TwoStage(x, c, 4 * o, |c|)
    ensures c != [] ==>
              var len := 3 * |c| - 2;
              && Repeated(x, c, 4)[o].re == Dot(Re(x), Both(c, |c|, len), 4 * o, len)
              && Repeated(x, c, 4)[o].im == Dot(Im(x), Both(c, |c|, len), 4 * o, len)
  {
    hide *;
    TwiceIsStages(x, c, o);
    if c != [] {
      TwoStageIsBoth(x, c, 4 * o, |c|, 3 * |c| - 2);
    }
  }
}
