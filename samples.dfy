/** Samples and audio buffers.

    A sample is a 32-bit float in the harness (and the double it is widened to
    when summed). Finite values are modelled as exact reals; NaN and the two
    infinities are values of their own, combined by the IEEE 754 rules for
    addition, subtraction, multiplication and comparison. Overflow of finite
    values to infinity and rounding are not modelled, so "is the result finite"
    is exact in this model. */
module Samples {

  datatype Float = Finite(value: real) | NaN | Infinity(negative: bool)

  const Zero: Float := Finite(0.0)

  function Negate(a: Float): (r: Float)
    ensures r.Finite? <==> a.Finite?
    ensures r.NaN? <==> a.NaN?
  {
    match a
    case Finite(v) => Finite(-v)
    case NaN => NaN
    case Infinity(negative) => Infinity(!negative)
  }

  /** IEEE addition. */
  function Add(a: Float, b: Float): (r: Float)
    ensures r.Finite? <==> a.Finite? && b.Finite?
    ensures a.NaN? || b.NaN? ==> r.NaN?
    ensures a.Finite? && b.Finite? ==> r == Finite(a.value + b.value)
  {
    if a.Finite? && b.Finite? then Finite(a.value + b.value) else AddSpecial(a, b)
  }

  /** IEEE addition with a NaN or an infinity among the operands: NaN is
      absorbing, an infinity absorbs finite values, and infinities of opposite
      signs give NaN. */
  function AddSpecial(a: Float, b: Float): (r: Float)
    requires !a.Finite? || !b.Finite?
    ensures !r.Finite?
    ensures a.NaN? || b.NaN? ==> r.NaN?
  {
    if a.NaN? || b.NaN? then NaN
    else if a.Infinity? && b.Infinity? then (if a.negative == b.negative then a else NaN)
    else if a.Infinity? then a
    else b
  }

  function Sub(a: Float, b: Float): (r: Float)
    ensures r.Finite? <==> a.Finite? && b.Finite?
    ensures a.NaN? || b.NaN? ==> r.NaN?
    ensures a.Finite? && b.Finite? ==> r == Finite(a.value - b.value)
  {
    if a.Finite? && b.Finite? then Finite(a.value - b.value) else AddSpecial(a, Negate(b))
  }

  /** IEEE multiplication. */
  function Mul(a: Float, b: Float): (r: Float)
    ensures r.Finite? <==> a.Finite? && b.Finite?
    ensures a.NaN? || b.NaN? ==> r.NaN?
    ensures a.Finite? && b.Finite? ==> r == Finite(a.value * b.value)
  {
    if a.Finite? && b.Finite? then Finite(a.value * b.value) else MulSpecial(a, b)
  }

  /** IEEE multiplication with a NaN or an infinity among the operands: NaN is
      absorbing, an infinity times zero is NaN, otherwise an infinity whose
      sign is the product of the signs. */
  function MulSpecial(a: Float, b: Float): (r: Float)
    requires !a.Finite? || !b.Finite?
    ensures !r.Finite?
    ensures a.NaN? || b.NaN? ==> r.NaN?
  {
    if a.NaN? || b.NaN? then NaN
    else if (a.Finite? && a.value == 0.0) || (b.Finite? && b.value == 0.0) then NaN
    else Infinity(IsNegative(a) != IsNegative(b))
  }

  /** The sign bit of a number that is not NaN. */
  predicate IsNegative(a: Float)
    requires !a.NaN?
  {
    if a.Finite? then a.value < 0.0 else a.negative
  }

  /** The IEEE comparison a < b: false whenever either side is NaN. */
  predicate Less(a: Float, b: Float)
  {
    match (a, b)
    case (Finite(x), Finite(y)) => x < y
    case (Infinity(n), Finite(_)) => n
    case (Finite(_), Infinity(n)) => !n
    case (Infinity(n), Infinity(m)) => n && !m
    case _ => false
  }

  /** std::abs on a double: NaN stays NaN, an infinity becomes +infinity. */
  function AbsFloat(a: Float): (r: Float)
    ensures r.Finite? <==> a.Finite?
    ensures r.NaN? <==> a.NaN?
    ensures r.Finite? ==> r.value >= 0.0 && (r.value == a.value || r.value == -a.value)
    ensures r.Infinity? ==> !r.negative
  {
    match a
    case Finite(v) => Finite(AbsReal(v))
    case NaN => NaN
    case Infinity(_) => Infinity(false)
  }

  /** The running sum x[xs]*y[ys] + ... + x[xs+n-1]*y[ys+n-1], accumulated from 0
      in index order; x = y gives an energy. */
  function Dot(x: seq<Float>, y: seq<Float>, xs: nat, ys: nat, n: nat): Float
    requires xs + n <= |x| && ys + n <= |y|
  {
    if n == 0 then Zero else Add(Dot(x, y, xs, ys, n - 1), Mul(x[xs + n - 1], y[ys + n - 1]))
  }

  /** Every sample of x[start..start+n] is finite. */
  ghost predicate FiniteRange(x: seq<Float>, start: nat, n: nat)
    requires start + n <= |x|
  {
    forall i :: start <= i < start + n ==> x[i].Finite?
  }

  /** A running sum over finite samples is finite. */
  lemma {:induction false} DotFinite(x: seq<Float>, y: seq<Float>, xs: nat, ys: nat, n: nat)
    requires xs + n <= |x| && ys + n <= |y|
    requires FiniteRange(x, xs, n) && FiniteRange(y, ys, n)
    ensures Dot(x, y, xs, ys, n).Finite?
  {
    if n > 0 {
      assert FiniteRange(x, xs, n - 1) && FiniteRange(y, ys, n - 1);
      DotFinite(x, y, xs, ys, n - 1);
    }
  }

  /** The last step of a finite running sum adds the product of the last pair. */
  lemma DotStep(x: seq<Float>, y: seq<Float>, xs: nat, ys: nat, n: nat)
    requires 0 < n && xs + n <= |x| && ys + n <= |y|
    requires FiniteRange(x, xs, n) && FiniteRange(y, ys, n)
    ensures Dot(x, y, xs, ys, n - 1).Finite? && Dot(x, y, xs, ys, n).Finite?
    ensures Dot(x, y, xs, ys, n).value
            == Dot(x, y, xs, ys, n - 1).value + x[xs + n - 1].value * y[ys + n - 1].value
  {
    assert FiniteRange(x, xs, n - 1) && FiniteRange(y, ys, n - 1);
    DotFinite(x, y, xs, ys, n - 1);
  }

  /** An energy (the running sum of a range with itself) over finite samples is
      finite and non-negative. */
  lemma {:induction false} EnergyNonNegative(x: seq<Float>, xs: nat, n: nat)
    requires xs + n <= |x|
    requires FiniteRange(x, xs, n)
    ensures Dot(x, x, xs, xs, n).Finite? && Dot(x, x, xs, xs, n).value >= 0.0
  {
    if n > 0 {
      assert FiniteRange(x, xs, n - 1);
      EnergyNonNegative(x, xs, n - 1);
      DotStep(x, x, xs, xs, n);
      NonNegProduct(x[xs + n - 1].value, x[xs + n - 1].value);
    }
  }

  /** Cauchy-Schwarz for the running sums: over finite samples the dot product
      squared never exceeds the product of the two energies. This is what
      bounds a normalised correlation by 1. */
  lemma {:induction false} CauchySchwarz(x: seq<Float>, y: seq<Float>, xs: nat, ys: nat, n: nat)
    requires xs + n <= |x| && ys + n <= |y|
    requires FiniteRange(x, xs, n) && FiniteRange(y, ys, n)
    ensures Dot(x, y, xs, ys, n).Finite? && Dot(x, x, xs, xs, n).Finite? && Dot(y, y, ys, ys, n).Finite?
    ensures Dot(x, y, xs, ys, n).value * Dot(x, y, xs, ys, n).value
            <= Dot(x, x, xs, xs, n).value * Dot(y, y, ys, ys, n).value
  {
    if n > 0 {
      assert FiniteRange(x, xs, n - 1) && FiniteRange(y, ys, n - 1);
      CauchySchwarz(x, y, xs, ys, n - 1);
      CauchySchwarzExtend(x, y, xs, ys, n);
    } else {
      assert Dot(x, y, xs, ys, n) == Zero;
    }
  }

  /** The inductive step of CauchySchwarz: the bound for n - 1 pairs gives it for n. */
  lemma CauchySchwarzExtend(x: seq<Float>, y: seq<Float>, xs: nat, ys: nat, n: nat)
    requires 0 < n && xs + n <= |x| && ys + n <= |y|
    requires FiniteRange(x, xs, n) && FiniteRange(y, ys, n)
    requires Dot(x, y, xs, ys, n - 1).Finite? && Dot(x, x, xs, xs, n - 1).Finite? && Dot(y, y, ys, ys, n - 1).Finite?
    requires Dot(x, y, xs, ys, n - 1).value * Dot(x, y, xs, ys, n - 1).value
             <= Dot(x, x, xs, xs, n - 1).value * Dot(y, y, ys, ys, n - 1).value
    ensures Dot(x, y, xs, ys, n).Finite? && Dot(x, x, xs, xs, n).Finite? && Dot(y, y, ys, ys, n).Finite?
    ensures Dot(x, y, xs, ys, n).value * Dot(x, y, xs, ys, n).value
            <= Dot(x, x, xs, xs, n).value * Dot(y, y, ys, ys, n).value
  {
    var A, B, D := Dot(x, x, xs, xs, n - 1), Dot(y, y, ys, ys, n - 1), Dot(x, y, xs, ys, n - 1);
    EnergyNonNegative(x, xs, n - 1);
    EnergyNonNegative(y, ys, n - 1);
    var p, q := x[xs + n - 1], y[ys + n - 1];
    assert p.Finite? && q.Finite?;
    CauchySchwarzStep(A, B, D, p, q);
    assert Dot(x, y, xs, ys, n) == Add(D, Mul(p, q));
    assert Dot(x, x, xs, xs, n) == Add(A, Mul(p, p));
    assert Dot(y, y, ys, ys, n) == Add(B, Mul(q, q));
  }

  /** One more pair of finite samples (p, q) keeps the inequality between the
      dot product D and the energies A and B. */
  lemma CauchySchwarzStep(A: Float, B: Float, D: Float, p: Float, q: Float)
    requires A.Finite? && B.Finite? && D.Finite? && p.Finite? && q.Finite?
    requires A.value >= 0.0 && B.value >= 0.0 && D.value * D.value <= A.value * B.value
    ensures Add(A, Mul(p, p)).Finite? && Add(B, Mul(q, q)).Finite? && Add(D, Mul(p, q)).Finite?
    ensures Add(D, Mul(p, q)).value * Add(D, Mul(p, q)).value <= Add(A, Mul(p, p)).value * Add(B, Mul(q, q)).value
  {
    SquareBoundStep(A.value, B.value, D.value, p.value, q.value);
  }

  /** The arithmetic of the step: D^2 <= AB gives (D + ab)^2 <= (A + a^2)(B + b^2). */
  lemma SquareBoundStep(A: real, B: real, D: real, a: real, b: real)
    requires A >= 0.0 && B >= 0.0 && D * D <= A * B
    ensures (D + a * b) * (D + a * b) <= (A + a * a) * (B + b * b)
  {
    var m := a * b;
    var P := A * (b * b);
    var Q := (a * a) * B;
    var u := P + Q;
    var v := 2.0 * m * D;
    var w := P - Q;
    NonNegProduct(A, b * b);
    NonNegProduct(a * a, B);
    SumDiffSquares(P, Q);
    ProductOfShares(A, B, a, b);
    assert v * v == 4.0 * (m * m) * (D * D);
    assert u * u - v * v == w * w + 4.0 * (m * m) * (A * B - D * D);
    NonNegProduct(w, w);
    NonNegProduct(m, m);
    NonNegProduct(4.0 * (m * m), A * B - D * D);
    SquareOrder(u, v);
    Expand(D, m);
    Expand2(A, B, a * a, b * b);
    assert (a * a) * (b * b) == m * m;
  }

  lemma SumDiffSquares(P: real, Q: real)
    ensures (P + Q) * (P + Q) - (P - Q) * (P - Q) == 4.0 * P * Q
  {
  }

  lemma ProductOfShares(A: real, B: real, a: real, b: real)
    ensures (A * (b * b)) * ((a * a) * B) == (A * B) * ((a * b) * (a * b))
  {
  }

  lemma Expand(D: real, m: real)
    ensures (D + m) * (D + m) == D * D + 2.0 * m * D + m * m
  {
  }

  lemma Expand2(A: real, B: real, p: real, q: real)
    ensures (A + p) * (B + q) == A * B + (A * q + p * B) + p * q
  {
  }

  lemma NonNegProduct(p: real, q: real)
    requires (p >= 0.0 && q >= 0.0) || p == q
    ensures p * q >= 0.0
  {
  }

  lemma SquareOrder(u: real, v: real)
    requires u >= 0.0 && u * u >= v * v
    ensures u >= v
  {
    if v > 0.0 {
      assert (u - v) * (u + v) == u * u - v * v;
      ProductSign(u - v, u + v);
    }
  }

  lemma ProductSign(p: real, q: real)
    requires q > 0.0 && p * q >= 0.0
    ensures p >= 0.0
  {
  }

  /** A product of two positive reals is positive (stated on a third name q so
      that callers can pass a product they only know by another term). */
  lemma ProductIsPositive(a: real, b: real, q: real)
    requires q == a * b && a > 0.0 && b > 0.0
    ensures q > 0.0
  {
  }

  /** The square of a finite non-zero sample is positive ... */
  lemma SquarePositive(v: Float)
    requires v.Finite? && v.value != 0.0
    ensures Mul(v, v).Finite? && Mul(v, v).value > 0.0
  {
    var x := v.value;
    if x > 0.0 {
      ProductIsPositive(x, x, Mul(v, v).value);
    } else {
      ProductIsPositive(-x, -x, Mul(v, v).value);
    }
  }

  /** ... and the square of any finite sample is non-negative. */
  lemma SquareNonNegative(v: Float)
    requires v.Finite?
    ensures Mul(v, v).Finite? && Mul(v, v).value >= 0.0
  {
  }

  /** Adding the square of a finite sample to a finite sum never lowers it,
      and leaves it unchanged exactly when the sample is zero. */
  lemma AddSquare(s: Float, v: Float)
    requires s.Finite? && v.Finite?
    ensures Add(s, Mul(v, v)).Finite?
    ensures Add(s, Mul(v, v)).value >= s.value
    ensures Add(s, Mul(v, v)).value == s.value <==> v == Zero
  {
    SquareNonNegative(v);
    if v != Zero {
      SquarePositive(v);
    }
  }

  /** The first i samples of `row` are all zero. */
  ghost predicate ZeroPrefix(row: seq<Float>, i: nat)
    requires i <= |row|
  {
    forall j :: 0 <= j < i ==> row[j] == Zero
  }

  lemma ZeroPrefixStep(row: seq<Float>, i: nat)
    requires 0 < i <= |row|
    ensures ZeroPrefix(row, i) <==> ZeroPrefix(row, i - 1) && row[i - 1] == Zero
  {
  }

  /** The energy of finite samples is zero exactly when every sample is zero
      (and positive otherwise, being non-negative). */
  lemma {:induction false} EnergyZeroIffSilent(x: seq<Float>, n: nat)
    requires n <= |x|
    requires FiniteRange(x, 0, n)
    ensures Dot(x, x, 0, 0, n).Finite? && Dot(x, x, 0, 0, n).value >= 0.0
    ensures Dot(x, x, 0, 0, n).value == 0.0 <==> ZeroPrefix(x, n)
  {
    if n > 0 {
      assert FiniteRange(x, 0, n - 1);
      EnergyZeroIffSilent(x, n - 1);
      assert x[n - 1].Finite?;
      AddSquare(Dot(x, x, 0, 0, n - 1), x[n - 1]);
      ZeroPrefixStep(x, n);
    }
  }

  /** The comparison `x <= 0.0` of the source: true for -infinity, false for
      NaN and +infinity. */
  predicate AtMostZero(x: Float)
  {
    (x.Finite? && x.value <= 0.0) || x == Infinity(true)
  }

  /** juce::AudioBuffer<float>: `numSamples` samples in each of |data| channels.
      The sample count is kept separately so that a buffer with no channels
      still has a length, as in JUCE. */
  datatype Buffer = Buffer(numSamples: nat, data: seq<seq<Float>>)
  {
    function NumChannels(): nat
    {
      |data|
    }

    /** Rectangular: every channel holds exactly numSamples samples. */
    ghost predicate Valid()
    {
      forall c :: 0 <= c < |data| ==> |data[c]| == numSamples
    }

    /** Every sample of every channel is finite. */
    predicate AllFinite()
      requires Valid()
    {
      forall c, i :: 0 <= c < |data| && 0 <= i < numSamples ==> data[c][i].Finite?
    }
  }

  /** Audio read from a file: its samples and its sample rate. */
  datatype AudioData = AudioData(buffer: Buffer, sampleRate: real)

  /** The tolerance within which two sample rates count as equal (render
      compares the input file's rate with --sr, analyze the two files' rates). */
  const SampleRateTolerance: real := 0.000001

  /** Two buffers with the same number of channels and of samples. */
  predicate SameShape(a: Buffer, b: Buffer)
  {
    a.numSamples == b.numSamples && a.NumChannels() == b.NumChannels()
  }

  function ZeroRow(samples: nat): (row: seq<Float>)
    ensures |row| == samples
    ensures forall i :: 0 <= i < samples ==> row[i] == Zero
  {
    seq(samples, _ => Zero)
  }

  /** A freshly allocated and cleared buffer (`AudioBuffer(ch, n)` then `clear()`). */
  function Zeros(channels: nat, samples: nat): (b: Buffer)
    ensures b.Valid() && b.NumChannels() == channels && b.numSamples == samples
    ensures forall c, i :: 0 <= c < channels && 0 <= i < samples ==> b.data[c][i] == Zero
  {
    Buffer(samples, seq(channels, _ => ZeroRow(samples)))
  }

  /** `AudioBuffer::copyFrom(destChannel, destStart, source, sourceChannel, sourceStart, count)`
      on one channel: `count` samples of `src` from `srcStart` overwrite `dest` from `destStart`. */
  function RowCopied(dest: seq<Float>, destStart: nat, src: seq<Float>, srcStart: nat, count: nat): (r: seq<Float>)
    requires destStart + count <= |dest| && srcStart + count <= |src|
    ensures |r| == |dest|
    ensures forall j :: 0 <= j < |dest| ==>
      r[j] == if destStart <= j < destStart + count then src[srcStart + j - destStart] else dest[j]
  {
    dest[..destStart] + src[srcStart..srcStart + count] + dest[destStart + count..]
  }

  function AbsReal(x: real): real
  {
    if x < 0.0 then -x else x
  }

  function Min(a: int, b: int): int
  {
    if a <= b then a else b
  }

  function Max(a: int, b: int): int
  {
    if a >= b then a else b
  }

  function Abs(a: int): nat
  {
    if a < 0 then -a else a
  }
}
