/** Latency detection by brute-force normalised cross-correlation
    (detectLatencyByCrossCorrelation, tools/vst3_harness/src/main.cpp).

    The source keeps the lag whose score |dot| / sqrt(dryEnergy * wetEnergy)
    is strictly greatest. For exact reals that score is non-negative, so it is
    ordered exactly as its square dot^2 / (dryEnergy * wetEnergy); the model
    compares squared scores and needs no square root. */
module Latency {
  import opened Wrappers
  import opened Samples

  /** A negative lag moves the dry start forward ... */
  function DryStart(lag: int): nat
  {
    if lag < 0 then -lag else 0
  }

  /** ... and a positive lag moves the wet start forward. */
  function WetStart(lag: int): nat
  {
    if lag > 0 then lag else 0
  }

  /** The number of sample pairs compared at `lag`; when positive, every index
      read, dryStart + i and wetStart + i for i < overlap, is in bounds. */
  function Overlap(drySize: nat, wetSize: nat, lag: int): (r: int)
    ensures r > 0 ==> DryStart(lag) + r <= drySize && WetStart(lag) + r <= wetSize
    ensures r > 0 <==> DryStart(lag) < drySize && WetStart(lag) < wetSize
  {
    Min(drySize - DryStart(lag), wetSize - WetStart(lag))
  }

  /** The (squared) score of one lag, or None when the source never selects it:
      no overlap, a side with zero energy, or a non-finite sum (a NaN score
      never compares greater). */
  function LagScore(dry: seq<Float>, wet: seq<Float>, lag: int): (r: Option<real>)
    ensures r.Some? ==> r.value >= 0.0
  {
    var overlap := Overlap(|dry|, |wet|, lag);
    if overlap <= 0 then None
    else
      var dot := Dot(dry, wet, DryStart(lag), WetStart(lag), overlap);
      var dryEnergy := Dot(dry, dry, DryStart(lag), DryStart(lag), overlap);
      var wetEnergy := Dot(wet, wet, WetStart(lag), WetStart(lag), overlap);
      if AtMostZero(dryEnergy) || AtMostZero(wetEnergy) then None
      else if !dot.Finite? || !dryEnergy.Finite? || !wetEnergy.Finite? then None
      else Some(SquaredScore(dot.value, dryEnergy.value, wetEnergy.value))
  }

  function SquaredScore(dot: real, dryEnergy: real, wetEnergy: real): (r: real)
    requires dryEnergy > 0.0 && wetEnergy > 0.0
    ensures r >= 0.0
  {
    PositiveProduct(dryEnergy, wetEnergy);
    dot * dot / (dryEnergy * wetEnergy)
  }

  lemma PositiveProduct(a: real, b: real)
    requires a > 0.0 && b > 0.0
    ensures a * b > 0.0
  {
  }

  /** A lag the search can select. */
  predicate Scorable(dry: seq<Float>, wet: seq<Float>, lag: int)
  {
    LagScore(dry, wet, lag).Some?
  }

  datatype Best = Best(lag: int, score: real)

  /** bestLag and bestScore once lags -maxLag .. upTo-1 have been scanned in
      ascending order, a lag replacing the best only on a strictly greater score. */
  function ScanUpTo(dry: seq<Float>, wet: seq<Float>, maxLag: int, upTo: int): (b: Best)
    ensures b.lag == 0 || -maxLag <= b.lag < upTo
    decreases upTo + maxLag
  {
    if upTo <= -maxLag then Best(0, -1.0)
    else
      var before := ScanUpTo(dry, wet, maxLag, upTo - 1);
      var score := LagScore(dry, wet, upTo - 1);
      if score.Some? && score.value > before.score then Best(upTo - 1, score.value) else before
  }

  /** The lag detectLatencyByCrossCorrelation returns. */
  function DetectedLag(dry: seq<Float>, wet: seq<Float>, maxLag: int): (lag: int)
    ensures maxLag >= 0 ==> -maxLag <= lag <= maxLag
  {
    ScanUpTo(dry, wet, maxLag, maxLag + 1).lag
  }

  /** No lag in [lo, hi) can be selected. */
  ghost predicate NoneScorable(dry: seq<Float>, wet: seq<Float>, lo: int, hi: int)
  {
    forall l :: lo <= l < hi ==> !Scorable(dry, wet, l)
  }

  /** `b` holds a lag of [lo, hi) of greatest score, and every smaller lag of
      the range scores strictly less. */
  ghost predicate IsFirstBest(dry: seq<Float>, wet: seq<Float>, lo: int, hi: int, b: Best)
  {
    && lo <= b.lag < hi
    && LagScore(dry, wet, b.lag) == Some(b.score)
    && (forall l :: lo <= l < hi && Scorable(dry, wet, l) ==> LagScore(dry, wet, l).value <= b.score)
    && (forall l :: lo <= l < b.lag && Scorable(dry, wet, l) ==> LagScore(dry, wet, l).value < b.score)
  }

  /** What the scan has established after lags -maxLag .. upTo-1: with no
      scorable lag yet it still holds (0, -1); otherwise it holds the first
      lag of greatest score. */
  lemma {:induction false} ScanFindsFirstBest(dry: seq<Float>, wet: seq<Float>, maxLag: int, upTo: int)
    ensures NoneScorable(dry, wet, -maxLag, upTo) ==> ScanUpTo(dry, wet, maxLag, upTo) == Best(0, -1.0)
    ensures !NoneScorable(dry, wet, -maxLag, upTo) ==> IsFirstBest(dry, wet, -maxLag, upTo, ScanUpTo(dry, wet, maxLag, upTo))
    decreases upTo + maxLag
  {
    if upTo > -maxLag {
      ScanFindsFirstBest(dry, wet, maxLag, upTo - 1);
      var before := ScanUpTo(dry, wet, maxLag, upTo - 1);
      var score := LagScore(dry, wet, upTo - 1);
      var b := ScanUpTo(dry, wet, maxLag, upTo);
      if NoneScorable(dry, wet, -maxLag, upTo - 1) {
        if score.Some? {
          assert Scorable(dry, wet, upTo - 1);
          assert b == Best(upTo - 1, score.value);
          assert IsFirstBest(dry, wet, -maxLag, upTo, b);
        } else {
          assert NoneScorable(dry, wet, -maxLag, upTo);
        }
      } else {
        assert !NoneScorable(dry, wet, -maxLag, upTo);
        if score.Some? && score.value > before.score {
          assert IsFirstBest(dry, wet, -maxLag, upTo, b);
        } else {
          assert b == before;
          assert IsFirstBest(dry, wet, -maxLag, upTo, b);
        }
      }
    }
  }

  /** The whole contract of the search: the result is 0 when no lag in
      [-maxLag, maxLag] has a positive overlap with non-zero energy on both sides;
      otherwise it is a lag in [-maxLag, maxLag] of greatest score, and every
      smaller lag scores strictly less (ties keep the first lag scanned). */
  lemma DetectedLagIsFirstBest(dry: seq<Float>, wet: seq<Float>, maxLag: int)
    ensures var r := DetectedLag(dry, wet, maxLag);
      if forall l :: -maxLag <= l <= maxLag ==> !Scorable(dry, wet, l) then r == 0
      else
        && -maxLag <= r <= maxLag
        && Scorable(dry, wet, r)
        && (forall l :: -maxLag <= l <= maxLag && Scorable(dry, wet, l) ==>
              LagScore(dry, wet, l).value <= LagScore(dry, wet, r).value)
        && (forall l :: -maxLag <= l < r && Scorable(dry, wet, l) ==>
              LagScore(dry, wet, l).value < LagScore(dry, wet, r).value)
  {
    ScanFindsFirstBest(dry, wet, maxLag, maxLag + 1);
    assert NoneScorable(dry, wet, -maxLag, maxLag + 1) <==> forall l :: -maxLag <= l <= maxLag ==> !Scorable(dry, wet, l);
  }

  /** The inner loop of detectLatencyByCrossCorrelation: the dot product and
      both energies over `overlap` samples from dryStart and wetStart. */
  method OverlapSums(dry: seq<Float>, wet: seq<Float>, dryStart: nat, wetStart: nat, overlap: nat)
    returns (dot: Float, dryEnergy: Float, wetEnergy: Float)
    requires dryStart + overlap <= |dry| && wetStart + overlap <= |wet|
    ensures dot == Dot(dry, wet, dryStart, wetStart, overlap)
    ensures dryEnergy == Dot(dry, dry, dryStart, dryStart, overlap)
    ensures wetEnergy == Dot(wet, wet, wetStart, wetStart, overlap)
  {
    dot, dryEnergy, wetEnergy := Zero, Zero, Zero;
    var i := 0;
    while i < overlap
      invariant 0 <= i <= overlap
      invariant dot == Dot(dry, wet, dryStart, wetStart, i)
      invariant dryEnergy == Dot(dry, dry, dryStart, dryStart, i)
      invariant wetEnergy == Dot(wet, wet, wetStart, wetStart, i)
    {
      var drySample := dry[dryStart + i];
      var wetSample := wet[wetStart + i];
      dot := Add(dot, Mul(drySample, wetSample));
      dryEnergy := Add(dryEnergy, Mul(drySample, drySample));
      wetEnergy := Add(wetEnergy, Mul(wetSample, wetSample));
      i := i + 1;
    }
  }

  /** detectLatencyByCrossCorrelation: scan every lag in [-maxLag, maxLag],
      accumulate the dot product and both energies over the overlap, and keep
      the lag whose score is strictly greater than the best so far. */
  method DetectLatencyByCrossCorrelation(dry: seq<Float>, wet: seq<Float>, maxLagSamples: int) returns (bestLag: int)
    ensures bestLag == DetectedLag(dry, wet, maxLagSamples)
    ensures maxLagSamples >= 0 ==> -maxLagSamples <= bestLag <= maxLagSamples
    ensures (forall l :: -maxLagSamples <= l <= maxLagSamples ==> !Scorable(dry, wet, l)) ==> bestLag == 0
  {
    bestLag := 0;
    var bestScore := -1.0;
    var drySize := |dry|;
    var wetSize := |wet|;

    var lag := -maxLagSamples;
    while lag <= maxLagSamples
      invariant -maxLagSamples <= lag
      invariant lag <= maxLagSamples + 1 || maxLagSamples < 0
      invariant maxLagSamples < 0 ==> lag == -maxLagSamples
      invariant Best(bestLag, bestScore) == ScanUpTo(dry, wet, maxLagSamples, lag)
      decreases maxLagSamples + 1 - lag
    {
      var dryStart := if lag < 0 then -lag else 0;
      var wetStart := if lag > 0 then lag else 0;
      var overlap := Min(drySize - dryStart, wetSize - wetStart);
      assert overlap == Overlap(drySize, wetSize, lag);

      if overlap > 0 {
        var dot, dryEnergy, wetEnergy := OverlapSums(dry, wet, dryStart, wetStart, overlap);
        assert dryStart == DryStart(lag) && wetStart == WetStart(lag);
        if !AtMostZero(dryEnergy) && !AtMostZero(wetEnergy) && dot.Finite? && dryEnergy.Finite? && wetEnergy.Finite? {
          var score := SquaredScore(dot.value, dryEnergy.value, wetEnergy.value);
          if score > bestScore {
            bestScore := score;
            bestLag := lag;
          }
        }
      }
      lag := lag + 1;
    }
    assert ScanUpTo(dry, wet, maxLagSamples, lag) == ScanUpTo(dry, wet, maxLagSamples, maxLagSamples + 1);
    DetectedLagIsFirstBest(dry, wet, maxLagSamples);
  }

  /** Identical constant signals score equally at every lag, so the first lag
      scanned, -maxLag, is returned rather than 0. */
  lemma ConstantSignalPicksMostNegativeLag(x: seq<Float>)
    requires x == [Finite(1.0), Finite(1.0)]
    ensures DetectedLag(x, x, 1) == -1
  {
    ConstantScores(x);
    var s0 := ScanUpTo(x, x, 1, -1);
    assert s0 == Best(0, -1.0);
    var s1 := ScanUpTo(x, x, 1, 0);
    assert s1 == Best(-1, 1.0);
    var s2 := ScanUpTo(x, x, 1, 1);
    assert s2 == s1;
    var s3 := ScanUpTo(x, x, 1, 2);
    assert s3 == s2;
  }

  lemma ConstantScores(x: seq<Float>)
    requires x == [Finite(1.0), Finite(1.0)]
    ensures LagScore(x, x, -1) == Some(1.0)
    ensures LagScore(x, x, 0) == Some(1.0)
    ensures LagScore(x, x, 1) == Some(1.0)
  {
    ConstantScoreShifted(x, -1);
    ConstantScoreShifted(x, 1);
    ConstantScoreAligned(x);
  }

  lemma ConstantScoreShifted(x: seq<Float>, lag: int)
    requires x == [Finite(1.0), Finite(1.0)] && (lag == -1 || lag == 1)
    ensures LagScore(x, x, lag) == Some(1.0)
  {
    assert Overlap(2, 2, lag) == 1;
    assert Dot(x, x, DryStart(lag), WetStart(lag), 1) == Finite(1.0);
    assert Dot(x, x, DryStart(lag), DryStart(lag), 1) == Finite(1.0);
    assert Dot(x, x, WetStart(lag), WetStart(lag), 1) == Finite(1.0);
  }

  lemma ConstantScoreAligned(x: seq<Float>)
    requires x == [Finite(1.0), Finite(1.0)]
    ensures LagScore(x, x, 0) == Some(1.0)
  {
    assert Overlap(2, 2, 0) == 2;
    assert Dot(x, x, 0, 0, 1) == Finite(1.0);
    assert Dot(x, x, 0, 0, 2) == Finite(2.0);
  }

}
