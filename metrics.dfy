/** Level and correlation metrics of the analyse report (computeLevels and
    computeCorrelation, tools/vst3_harness/src/main.cpp).

    Square roots and logarithms are kept symbolic. A level is reported as the
    quantity juce::Decibels::gainToDecibels(gain, -160) is applied to:
    AmplitudeDb(a) stands for max(-160, 20 * log10(a)) dBFS, PowerDb(p) for the
    level of the gain sqrt(p), that is max(-160, 10 * log10(p)) dBFS, and Floor
    for the branch where the `gain > 0` test fails and -160 is returned
    directly. Because of the clamp, a tiny positive gain prints -160 as well
    (PrintsFloor). A correlation is reported as the
    triple (dot, energyA, energyB) that stands for dot / sqrt(energyA * energyB). */
module Metrics {
  import opened Samples
  import opened BufferOps

  // ---------------------------------------------------------------------------
  // computeLevels

  datatype Dbfs = Floor | AmplitudeDb(amplitude: real) | PowerDb(power: real) | InfiniteDb

  /** gainToDecibels of a peak amplitude: the Floor branch unless the gain
      compares greater than 0, so NaN and -infinity take it and +infinity
      gives +infinity dB. */
  function AmplitudeToDbfs(amplitude: Float): (d: Dbfs)
    ensures d.AmplitudeDb? ==> d.amplitude > 0.0
    ensures amplitude.Finite? && amplitude.value > 0.0 ==> d == AmplitudeDb(amplitude.value)
    ensures d == Floor <==> !Less(Zero, amplitude)
    ensures d == InfiniteDb <==> amplitude == Infinity(false)
  {
    match amplitude
    case Finite(a) => if a <= 0.0 then Floor else AmplitudeDb(a)
    case NaN => Floor
    case Infinity(negative) => if negative then Floor else InfiniteDb
  }

  /** gainToDecibels of sqrt(power): the square root of a negative number, of
      NaN or of -infinity is NaN and of 0 is 0, all of which take the Floor
      branch. */
  function PowerToDbfs(power: Float): (d: Dbfs)
    ensures d.PowerDb? ==> d.power > 0.0
    ensures power.Finite? && power.value > 0.0 ==> d == PowerDb(power.value)
    ensures d == Floor <==> !Less(Zero, power)
    ensures d == InfiniteDb <==> power == Infinity(false)
  {
    match power
    case Finite(p) => if p <= 0.0 then Floor else PowerDb(p)
    case NaN => Floor
    case Infinity(negative) => if negative then Floor else InfiniteDb
  }

  /** sumSquares / count for a positive count. */
  function DivideByCount(x: Float, count: real): (r: Float)
    requires count > 0.0
    ensures r.Finite? <==> x.Finite?
    ensures r.NaN? <==> x.NaN?
    ensures r.Finite? ==> r.value == x.value / count
    ensures r.Infinity? ==> r == x
  {
    if x.Finite? then Finite(x.value / count) else x
  }

  datatype LevelMetrics = LevelMetrics(peakDbfs: Dbfs, rmsDbfs: Dbfs)

  /** The metrics of an empty buffer, and the defaults of LevelMetrics. */
  const Silence: LevelMetrics := LevelMetrics(Floor, Floor)

  /** peak = std::max(peak, std::abs(value)), where std::max(a, b) is
      `a < b ? b : a`: a NaN sample compares false and leaves the peak as it
      was, an infinite one raises it to +infinity for good. */
  function PeakStep(peak: Float, value: Float): (r: Float)
    ensures value.NaN? ==> r == peak
    ensures peak.Finite? && value.Finite? ==>
      r == Finite(if AbsReal(value.value) > peak.value then AbsReal(value.value) else peak.value)
    ensures !peak.NaN? && value.Infinity? ==> r == Infinity(false)
    ensures peak == Infinity(false) ==> r == peak
    ensures !peak.NaN? ==> !r.NaN?
  {
    var magnitude := AbsFloat(value);
    if Less(peak, magnitude) then magnitude else peak
  }

  /** The peak after the first i samples of `row`, starting from `peak`. */
  function RowPeak(peak: Float, row: seq<Float>, i: nat): Float
    requires i <= |row|
  {
    if i == 0 then peak else PeakStep(RowPeak(peak, row, i - 1), row[i - 1])
  }

  /** The peak after the first c channels, starting from 0. */
  function BufferPeak(buffer: Buffer, c: nat): Float
    requires buffer.Valid() && c <= buffer.NumChannels()
  {
    if c == 0 then Zero else RowPeak(BufferPeak(buffer, c - 1), buffer.data[c - 1], buffer.numSamples)
  }

  /** sumSquares += value * value over the first i samples of `row`. */
  function RowSquares(sum: Float, row: seq<Float>, i: nat): Float
    requires i <= |row|
  {
    if i == 0 then sum else Add(RowSquares(sum, row, i - 1), Mul(row[i - 1], row[i - 1]))
  }

  /** The sum of squares over the first c channels, starting from 0. */
  function BufferSquares(buffer: Buffer, c: nat): Float
    requires buffer.Valid() && c <= buffer.NumChannels()
  {
    if c == 0 then Zero else RowSquares(BufferSquares(buffer, c - 1), buffer.data[c - 1], buffer.numSamples)
  }

  /** computeLevels as a value: Silence for a buffer without channels or
      samples, otherwise the peak power and the mean power (count = channels *
      samples, so the rms is sqrt(sumSquares / count)) converted to dBFS. */
  function LevelsOf(buffer: Buffer): LevelMetrics
    requires buffer.Valid()
  {
    if buffer.NumChannels() == 0 || buffer.numSamples == 0 then Silence
    else
      var peak := BufferPeak(buffer, buffer.NumChannels());
      var sumSquares := BufferSquares(buffer, buffer.NumChannels());
      var count := (buffer.NumChannels() * buffer.numSamples) as real;
      LevelMetrics(AmplitudeToDbfs(peak), PowerToDbfs(DivideByCount(sumSquares, count)))
  }

  /** computeLevels: the guard, then one pass over every sample, channel by
      channel, updating the peak and the sum of squares. */
  method ComputeLevels(buffer: Buffer) returns (metrics: LevelMetrics)
    requires buffer.Valid()
    ensures metrics == LevelsOf(buffer)
  {
    metrics := Silence;
    if buffer.NumChannels() <= 0 || buffer.numSamples <= 0 {
      return;
    }
    var peak := Zero;
    var sumSquares := Zero;
    var channel := 0;
    while channel < buffer.NumChannels()
      invariant 0 <= channel <= buffer.NumChannels()
      invariant peak == BufferPeak(buffer, channel)
      invariant sumSquares == BufferSquares(buffer, channel)
    {
      var samples := buffer.data[channel];
      var i := 0;
      while i < buffer.numSamples
        invariant 0 <= i <= buffer.numSamples
        invariant peak == RowPeak(BufferPeak(buffer, channel), samples, i)
        invariant sumSquares == RowSquares(BufferSquares(buffer, channel), samples, i)
      {
        var value := samples[i];
        peak := PeakStep(peak, value);
        sumSquares := Add(sumSquares, Mul(value, value));
        i := i + 1;
      }
      channel := channel + 1;
    }
    var count := (buffer.NumChannels() * buffer.numSamples) as real;
    var meanSquare := DivideByCount(sumSquares, count);
    metrics := LevelMetrics(AmplitudeToDbfs(peak), PowerToDbfs(meanSquare));
  }

  /** The peak of a row of finite samples, starting from a finite non-negative
      peak, is the largest of that start and every |sample|. */
  lemma {:induction false} RowPeakIsMaximum(peak: real, row: seq<Float>, i: nat)
    requires i <= |row| && peak >= 0.0
    requires forall j :: 0 <= j < i ==> row[j].Finite?
    ensures RowPeak(Finite(peak), row, i).Finite?
    ensures var p := RowPeak(Finite(peak), row, i).value;
      && peak <= p
      && (forall j :: 0 <= j < i ==> AbsReal(row[j].value) <= p)
      && (p == peak || exists j :: 0 <= j < i && AbsReal(row[j].value) == p)
  {
    if i > 0 {
      RowPeakIsMaximum(peak, row, i - 1);
    }
  }

  /** The peak of a finite buffer is the largest |sample|: no sample exceeds it,
      and it is 0 or attained by some sample. */
  lemma {:induction false} BufferPeakIsMaximum(buffer: Buffer, c: nat)
    requires buffer.Valid() && buffer.AllFinite() && c <= buffer.NumChannels()
    ensures BufferPeak(buffer, c).Finite?
    ensures var p := BufferPeak(buffer, c).value;
      && 0.0 <= p
      && (forall k, j :: 0 <= k < c && 0 <= j < buffer.numSamples ==> AbsReal(buffer.data[k][j].value) <= p)
      && (p == 0.0 || exists k, j :: 0 <= k < c && 0 <= j < buffer.numSamples && AbsReal(buffer.data[k][j].value) == p)
  {
    if c > 0 {
      BufferPeakIsMaximum(buffer, c - 1);
      var before := BufferPeak(buffer, c - 1).value;
      RowPeakIsMaximum(before, buffer.data[c - 1], buffer.numSamples);
    }
  }

  /** Over finite samples the sum of squares, from a finite non-negative start,
      is finite, at least the start, and still equal to it exactly when every
      sample is zero. */
  lemma {:induction false} RowSquaresGrow(sum: real, row: seq<Float>, i: nat)
    requires i <= |row| && sum >= 0.0
    requires forall j :: 0 <= j < i ==> row[j].Finite?
    ensures RowSquares(Finite(sum), row, i).Finite?
    ensures RowSquares(Finite(sum), row, i).value >= sum
    ensures RowSquares(Finite(sum), row, i).value == sum <==> ZeroPrefix(row, i)
  {
    if i > 0 {
      RowSquaresGrow(sum, row, i - 1);
      AddSquare(RowSquares(Finite(sum), row, i - 1), row[i - 1]);
      ZeroPrefixStep(row, i);
    }
  }

  /** The first c channels hold only zeros. */
  ghost predicate SilentChannels(buffer: Buffer, c: nat)
    requires buffer.Valid() && c <= buffer.NumChannels()
  {
    forall k, i :: 0 <= k < c && 0 <= i < buffer.numSamples ==> buffer.data[k][i] == Zero
  }

  lemma SilentChannelsStep(buffer: Buffer, c: nat)
    requires buffer.Valid() && 0 < c <= buffer.NumChannels()
    ensures SilentChannels(buffer, c) <==> SilentChannels(buffer, c - 1) && ZeroPrefix(buffer.data[c - 1], buffer.numSamples)
  {
  }

  /** Every sample of the buffer is zero. */
  ghost predicate Silent(buffer: Buffer)
    requires buffer.Valid()
  {
    SilentChannels(buffer, buffer.NumChannels())
  }

  /** The sum of squares of a finite buffer is finite and non-negative, and
      zero exactly when every sample is zero. */
  lemma {:induction false} BufferSquaresZeroIffSilent(buffer: Buffer, c: nat)
    requires buffer.Valid() && buffer.AllFinite() && c <= buffer.NumChannels()
    ensures BufferSquares(buffer, c).Finite? && BufferSquares(buffer, c).value >= 0.0
    ensures BufferSquares(buffer, c).value == 0.0 <==> SilentChannels(buffer, c)
  {
    if c > 0 {
      BufferSquaresZeroIffSilent(buffer, c - 1);
      RowSquaresGrow(BufferSquares(buffer, c - 1).value, buffer.data[c - 1], buffer.numSamples);
      SilentChannelsStep(buffer, c);
    }
  }

  /** The peak of a finite buffer is zero exactly when every sample is zero. */
  lemma PeakZeroIffSilent(buffer: Buffer)
    requires buffer.Valid() && buffer.AllFinite()
    ensures BufferPeak(buffer, buffer.NumChannels()).Finite?
    ensures BufferPeak(buffer, buffer.NumChannels()).value == 0.0 <==> Silent(buffer)
  {
    var ch := buffer.NumChannels();
    BufferPeakIsMaximum(buffer, ch);
    var p := BufferPeak(buffer, ch).value;
    if p == 0.0 {
      forall k, i | 0 <= k < ch && 0 <= i < buffer.numSamples
        ensures buffer.data[k][i] == Zero
      {
        assert AbsReal(buffer.data[k][i].value) <= p;
      }
    } else {
      var k, i :| 0 <= k < ch && 0 <= i < buffer.numSamples && AbsReal(buffer.data[k][i].value) == p;
      assert buffer.data[k][i] != Zero;
    }
  }

  /** For a finite buffer, both levels take the Floor branch (the `gain > 0`
      test fails) exactly when every sample is zero (an empty buffer
      included); otherwise the peak is the largest |sample| and the mean
      square is positive. */
  lemma LevelsFloorIffSilent(buffer: Buffer)
    requires buffer.Valid() && buffer.AllFinite()
    ensures LevelsOf(buffer) == Silence <==> Silent(buffer)
    ensures !Silent(buffer) ==>
      && LevelsOf(buffer).peakDbfs.AmplitudeDb?
      && LevelsOf(buffer).rmsDbfs.PowerDb?
      && (forall c, i :: 0 <= c < buffer.NumChannels() && 0 <= i < buffer.numSamples ==>
            AbsReal(buffer.data[c][i].value) <= LevelsOf(buffer).peakDbfs.amplitude)
      && (exists c, i :: 0 <= c < buffer.NumChannels() && 0 <= i < buffer.numSamples &&
            AbsReal(buffer.data[c][i].value) == LevelsOf(buffer).peakDbfs.amplitude)
  {
    var ch := buffer.NumChannels();
    if ch > 0 && buffer.numSamples > 0 {
      BufferPeakIsMaximum(buffer, ch);
      PeakZeroIffSilent(buffer);
      BufferSquaresZeroIffSilent(buffer, ch);
      var s := BufferSquares(buffer, ch).value;
      var count := (ch * buffer.numSamples) as real;
      QuotientSign(s, count);
    }
  }

  /** s / n has the sign of s for a positive n. */
  lemma QuotientSign(s: real, n: real)
    requires s >= 0.0 && n > 0.0
    ensures s / n >= 0.0
    ensures s / n == 0.0 <==> s == 0.0
  {
    if s > 0.0 {
      assert s / n > 0.0;
    }
  }

  /** The level prints as -160 dBFS: the Floor branch, or a positive gain
      whose decibel value jmax clamps up to -160, that is a peak of at most
      1e-8 or a mean square of at most 1e-16. */
  predicate PrintsFloor(d: Dbfs)
  {
    match d
    case Floor => true
    case AmplitudeDb(a) => a <= 0.00000001
    case PowerDb(p) => p <= 0.0000000000000001
    case InfiniteDb => false
  }

  /** The peak of a finite buffer prints as -160 dBFS exactly when no sample
      exceeds 1e-8 in magnitude. */
  lemma PeakPrintsFloorIffQuiet(buffer: Buffer)
    requires buffer.Valid() && buffer.AllFinite()
    ensures PrintsFloor(LevelsOf(buffer).peakDbfs) <==>
      forall c, i :: 0 <= c < buffer.NumChannels() && 0 <= i < buffer.numSamples ==>
        AbsReal(buffer.data[c][i].value) <= 0.00000001
  {
    LevelsFloorIffSilent(buffer);
    var ch := buffer.NumChannels();
    if ch > 0 && buffer.numSamples > 0 {
      BufferPeakIsMaximum(buffer, ch);
    }
  }

  /** A single sample of 1e-9 is not silence, yet both of its levels print
      as -160 dBFS, the same as silence. */
  lemma QuietSampleReadsAsSilence()
    ensures LevelsOf(Buffer(1, [[Finite(0.000000001)]])) != Silence
    ensures PrintsFloor(LevelsOf(Buffer(1, [[Finite(0.000000001)]])).peakDbfs)
    ensures PrintsFloor(LevelsOf(Buffer(1, [[Finite(0.000000001)]])).rmsDbfs)
  {
    var b := Buffer(1, [[Finite(0.000000001)]]);
    assert BufferPeak(b, 1) == Finite(0.000000001);
    assert BufferSquares(b, 1) == Finite(0.000000000000000001);
  }

  // ---------------------------------------------------------------------------
  // NaN and infinite samples in computeLevels

  /** A value the running peak (or, without NaN, the running sum of squares)
      can hold: finite and non-negative, or +infinity. */
  predicate NonNegative(x: Float)
  {
    (x.Finite? && x.value >= 0.0) || x == Infinity(false)
  }

  /** `row` with each NaN sample read as 0. */
  function NaNAsZeroRow(row: seq<Float>): (r: seq<Float>)
    ensures |r| == |row|
    ensures forall j :: 0 <= j < |row| ==> r[j] == if row[j].NaN? then Zero else row[j]
  {
    seq(|row|, j requires 0 <= j < |row| => if row[j].NaN? then Zero else row[j])
  }

  /** `buffer` with each NaN sample read as 0. */
  function NaNAsZero(buffer: Buffer): (r: Buffer)
    requires buffer.Valid()
    ensures r.Valid() && SameShape(r, buffer)
    ensures forall c :: 0 <= c < buffer.NumChannels() ==> r.data[c] == NaNAsZeroRow(buffer.data[c])
  {
    Buffer(buffer.numSamples, seq(buffer.NumChannels(), c requires 0 <= c < buffer.NumChannels() => NaNAsZeroRow(buffer.data[c])))
  }

  /** Some sample of the first c channels is NaN. */
  ghost predicate HasNaN(buffer: Buffer, c: nat)
    requires buffer.Valid() && c <= buffer.NumChannels()
  {
    exists k, i :: 0 <= k < c && 0 <= i < buffer.numSamples && buffer.data[k][i].NaN?
  }

  /** Some sample of the first c channels is infinite. */
  ghost predicate HasInfinity(buffer: Buffer, c: nat)
    requires buffer.Valid() && c <= buffer.NumChannels()
  {
    exists k, i :: 0 <= k < c && 0 <= i < buffer.numSamples && buffer.data[k][i].Infinity?
  }

  /** The running peak skips NaN samples: it stays non-negative (or +infinity)
      and is the peak of the row with NaN read as 0. */
  lemma {:induction false} RowPeakIgnoresNaN(peak: Float, row: seq<Float>, i: nat)
    requires i <= |row| && NonNegative(peak)
    ensures NonNegative(RowPeak(peak, row, i))
    ensures RowPeak(peak, row, i) == RowPeak(peak, NaNAsZeroRow(row), i)
  {
    if i > 0 {
      RowPeakIgnoresNaN(peak, row, i - 1);
    }
  }

  lemma {:induction false} BufferPeakIgnoresNaN(buffer: Buffer, c: nat)
    requires buffer.Valid() && c <= buffer.NumChannels()
    ensures NonNegative(BufferPeak(buffer, c))
    ensures BufferPeak(buffer, c) == BufferPeak(NaNAsZero(buffer), c)
  {
    if c > 0 {
      BufferPeakIgnoresNaN(buffer, c - 1);
      RowPeakIgnoresNaN(BufferPeak(buffer, c - 1), buffer.data[c - 1], buffer.numSamples);
    }
  }

  /** Once an infinite sample has been seen the peak is +infinity for good. */
  lemma {:induction false} RowPeakInfinite(peak: Float, row: seq<Float>, i: nat)
    requires i <= |row| && NonNegative(peak)
    requires peak == Infinity(false) || exists j :: 0 <= j < i && row[j].Infinity?
    ensures RowPeak(peak, row, i) == Infinity(false)
  {
    if i > 0 {
      if peak == Infinity(false) || exists j :: 0 <= j < i - 1 && row[j].Infinity? {
        RowPeakInfinite(peak, row, i - 1);
      } else {
        RowPeakIgnoresNaN(peak, row, i - 1);
      }
    }
  }

  lemma {:induction false} BufferPeakInfinite(buffer: Buffer, c: nat)
    requires buffer.Valid() && c <= buffer.NumChannels() && HasInfinity(buffer, c)
    ensures BufferPeak(buffer, c) == Infinity(false)
  {
    var before := BufferPeak(buffer, c - 1);
    BufferPeakIgnoresNaN(buffer, c - 1);
    if HasInfinity(buffer, c - 1) {
      BufferPeakInfinite(buffer, c - 1);
    } else {
      var k, i :| 0 <= k < c && 0 <= i < buffer.numSamples && buffer.data[k][i].Infinity?;
      assert k == c - 1;
    }
    RowPeakInfinite(before, buffer.data[c - 1], buffer.numSamples);
  }

  /** A NaN sample, or a NaN start, makes the sum of squares NaN for good. */
  lemma {:induction false} RowSquaresNaN(sum: Float, row: seq<Float>, i: nat)
    requires i <= |row|
    requires sum.NaN? || exists j :: 0 <= j < i && row[j].NaN?
    ensures RowSquares(sum, row, i).NaN?
  {
    if i > 0 && (sum.NaN? || exists j :: 0 <= j < i - 1 && row[j].NaN?) {
      RowSquaresNaN(sum, row, i - 1);
    }
  }

  lemma {:induction false} BufferSquaresNaN(buffer: Buffer, c: nat)
    requires buffer.Valid() && c <= buffer.NumChannels() && HasNaN(buffer, c)
    ensures BufferSquares(buffer, c).NaN?
  {
    if HasNaN(buffer, c - 1) {
      BufferSquaresNaN(buffer, c - 1);
    } else {
      var k, i :| 0 <= k < c && 0 <= i < buffer.numSamples && buffer.data[k][i].NaN?;
      assert k == c - 1;
    }
    RowSquaresNaN(BufferSquares(buffer, c - 1), buffer.data[c - 1], buffer.numSamples);
  }

  /** Without NaN the sum of squares stays non-negative (or +infinity), and an
      infinite sample makes it +infinity for good. */
  lemma {:induction false} RowSquaresInfinite(sum: Float, row: seq<Float>, i: nat)
    requires i <= |row| && NonNegative(sum)
    requires forall j :: 0 <= j < i ==> !row[j].NaN?
    ensures NonNegative(RowSquares(sum, row, i))
    ensures sum == Infinity(false) || (exists j :: 0 <= j < i && row[j].Infinity?) ==>
      RowSquares(sum, row, i) == Infinity(false)
  {
    if i > 0 {
      RowSquaresInfinite(sum, row, i - 1);
      var v := row[i - 1];
      if v.Finite? {
        NonNegProduct(AbsReal(v.value), AbsReal(v.value));
        assert v.value * v.value == AbsReal(v.value) * AbsReal(v.value);
      }
    }
  }

  lemma {:induction false} BufferSquaresInfinite(buffer: Buffer, c: nat)
    requires buffer.Valid() && c <= buffer.NumChannels() && !HasNaN(buffer, c)
    ensures NonNegative(BufferSquares(buffer, c))
    ensures HasInfinity(buffer, c) ==> BufferSquares(buffer, c) == Infinity(false)
  {
    if c > 0 {
      assert !HasNaN(buffer, c - 1);
      BufferSquaresInfinite(buffer, c - 1);
      RowSquaresInfinite(BufferSquares(buffer, c - 1), buffer.data[c - 1], buffer.numSamples);
      if HasInfinity(buffer, c) && !HasInfinity(buffer, c - 1) {
        var k, i :| 0 <= k < c && 0 <= i < buffer.numSamples && buffer.data[k][i].Infinity?;
        assert k == c - 1;
      }
    }
  }

  /** How NaN and infinite samples reach the levels. The peak is that of the
      buffer with every NaN read as 0 (std::max skips a NaN), and an infinite
      sample makes it +infinity dB. A NaN sample makes the mean square NaN, which
      gainToDecibels puts on the -160 dBFS floor; without NaN, an infinite sample
      makes the rms +infinity dB. */
  lemma NonFiniteLevels(buffer: Buffer)
    requires buffer.Valid()
    ensures LevelsOf(buffer).peakDbfs == LevelsOf(NaNAsZero(buffer)).peakDbfs
    ensures HasInfinity(buffer, buffer.NumChannels()) ==> LevelsOf(buffer).peakDbfs == InfiniteDb
    ensures HasNaN(buffer, buffer.NumChannels()) ==> LevelsOf(buffer).rmsDbfs == Floor
    ensures HasInfinity(buffer, buffer.NumChannels()) && !HasNaN(buffer, buffer.NumChannels()) ==>
      LevelsOf(buffer).rmsDbfs == InfiniteDb
  {
    var ch := buffer.NumChannels();
    if ch > 0 && buffer.numSamples > 0 {
      BufferPeakIgnoresNaN(buffer, ch);
      if HasInfinity(buffer, ch) {
        BufferPeakInfinite(buffer, ch);
      }
      if HasNaN(buffer, ch) {
        BufferSquaresNaN(buffer, ch);
      } else {
        BufferSquaresInfinite(buffer, ch);
      }
    }
  }

  /** A lone NaN sample reads as silence, and a NaN beside 0.5 leaves a 0.5
      peak with the rms on the floor. */
  lemma NaNExamples()
    ensures LevelsOf(Buffer(1, [[NaN]])) == Silence
    ensures LevelsOf(Buffer(2, [[NaN, Finite(0.5)]])) == LevelMetrics(AmplitudeDb(0.5), Floor)
  {
    var b1 := Buffer(1, [[NaN]]);
    var b2 := Buffer(2, [[NaN, Finite(0.5)]]);
    assert b1.data[0][0].NaN? && b2.data[0][0].NaN?;
    NonFiniteLevels(b1);
    NonFiniteLevels(b2);
  }

  // ---------------------------------------------------------------------------
  // computeCorrelation

  /** dot / sqrt(energyA * energyB) when both energies are positive;
      Uncorrelated is the 0.0 the guards return. */
  datatype Correlation = Uncorrelated | Normalized(dot: real, energyA: real, energyB: real) | NonFiniteCorrelation

  /** The correlation of two mono signals: 0 for unequal lengths, an empty
      signal or a side with no energy; otherwise the normalised dot product. */
  function MonoCorrelation(monoA: seq<Float>, monoB: seq<Float>): (r: Correlation)
    ensures r.Normalized? ==> r.energyA > 0.0 && r.energyB > 0.0
  {
    if |monoA| != |monoB| || |monoA| == 0 then Uncorrelated
    else
      var n := |monoA|;
      var dot := Dot(monoA, monoB, 0, 0, n);
      var energyA := Dot(monoA, monoA, 0, 0, n);
      var energyB := Dot(monoB, monoB, 0, 0, n);
      if AtMostZero(energyA) || AtMostZero(energyB) then Uncorrelated
      else if !dot.Finite? || !energyA.Finite? || !energyB.Finite? then NonFiniteCorrelation
      else Normalized(dot.value, energyA.value, energyB.value)
  }

  /** computeCorrelation as a value: the correlation of the two mono downmixes. */
  function CorrelationOf(a: Buffer, b: Buffer): Correlation
    requires a.Valid() && b.Valid()
  {
    MonoCorrelation(MonoSum(a), MonoSum(b))
  }

  /** computeCorrelation: downmix both buffers, apply the guards, then
      accumulate the dot product and both energies in one pass. */
  method ComputeCorrelation(a: Buffer, b: Buffer) returns (correlation: Correlation)
    requires a.Valid() && b.Valid()
    ensures correlation == CorrelationOf(a, b)
  {
    var monoA := MakeMonoSum(a);
    var monoB := MakeMonoSum(b);
    if |monoA| != |monoB| || |monoA| == 0 {
      return Uncorrelated;
    }
    var dot, energyA, energyB := Zero, Zero, Zero;
    var i := 0;
    while i < |monoA|
      invariant 0 <= i <= |monoA|
      invariant dot == Dot(monoA, monoB, 0, 0, i)
      invariant energyA == Dot(monoA, monoA, 0, 0, i)
      invariant energyB == Dot(monoB, monoB, 0, 0, i)
    {
      var x := monoA[i];
      var y := monoB[i];
      dot := Add(dot, Mul(x, y));
      energyA := Add(energyA, Mul(x, x));
      energyB := Add(energyB, Mul(y, y));
      i := i + 1;
    }
    if AtMostZero(energyA) || AtMostZero(energyB) {
      return Uncorrelated;
    }
    if !dot.Finite? || !energyA.Finite? || !energyB.Finite? {
      return NonFiniteCorrelation;
    }
    correlation := Normalized(dot.value, energyA.value, energyB.value);
  }

  /** A finite energy comes from finite samples only. */
  lemma {:induction false} FiniteEnergyHasFiniteSamples(x: seq<Float>, n: nat)
    requires n <= |x|
    requires Dot(x, x, 0, 0, n).Finite?
    ensures FiniteRange(x, 0, n)
  {
    if n > 0 {
      FiniteEnergyHasFiniteSamples(x, n - 1);
    }
  }

  /** A reported correlation never exceeds 1 in magnitude:
      dot^2 <= energyA * energyB. */
  lemma CorrelationAtMostOne(monoA: seq<Float>, monoB: seq<Float>)
    ensures var r := MonoCorrelation(monoA, monoB);
      r.Normalized? ==> r.dot * r.dot <= r.energyA * r.energyB
  {
    var r := MonoCorrelation(monoA, monoB);
    if r.Normalized? {
      var n := |monoA|;
      FiniteEnergyHasFiniteSamples(monoA, n);
      FiniteEnergyHasFiniteSamples(monoB, n);
      CauchySchwarz(monoA, monoB, 0, 0, n);
    }
  }

  /** A finite signal with some non-zero sample is perfectly correlated with
      itself: the dot product equals both energies, so the value is 1. */
  lemma SelfCorrelationIsOne(mono: seq<Float>)
    requires forall i :: 0 <= i < |mono| ==> mono[i].Finite?
    requires !ZeroPrefix(mono, |mono|)
    ensures var r := MonoCorrelation(mono, mono);
      r.Normalized? && r.dot == r.energyA == r.energyB
  {
    EnergyZeroIffSilent(mono, |mono|);
  }

  /** Correlating with an all-zero signal of the same length reports 0. */
  lemma CorrelationWithSilenceIsZero(mono: seq<Float>, n: nat)
    requires |mono| == n
    ensures MonoCorrelation(mono, ZeroRow(n)) == Uncorrelated
  {
    if n > 0 {
      var z := ZeroRow(n);
      EnergyZeroIffSilent(z, n);
    }
  }

  /** The guards of computeCorrelation on finite signals: the guard's early
      0 (Uncorrelated) is returned exactly when the lengths differ, the signals
      are empty or one of them is all zeros; otherwise the result is the
      normalised dot product, which can itself be 0 for orthogonal signals. */
  lemma CorrelationGuards(monoA: seq<Float>, monoB: seq<Float>)
    requires forall i :: 0 <= i < |monoA| ==> monoA[i].Finite?
    requires forall i :: 0 <= i < |monoB| ==> monoB[i].Finite?
    ensures MonoCorrelation(monoA, monoB) == Uncorrelated <==>
      |monoA| != |monoB| || |monoA| == 0 || ZeroPrefix(monoA, |monoA|) || ZeroPrefix(monoB, |monoB|)
    ensures var r := MonoCorrelation(monoA, monoB);
      r != Uncorrelated ==>
        && r.Normalized?
        && Finite(r.dot) == Dot(monoA, monoB, 0, 0, |monoA|)
        && Finite(r.energyA) == Dot(monoA, monoA, 0, 0, |monoA|)
        && Finite(r.energyB) == Dot(monoB, monoB, 0, 0, |monoB|)
  {
    if |monoA| == |monoB| && |monoA| > 0 {
      var n := |monoA|;
      EnergyZeroIffSilent(monoA, n);
      EnergyZeroIffSilent(monoB, n);
      DotFinite(monoA, monoB, 0, 0, n);
    }
  }
}
