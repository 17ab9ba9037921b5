/** The anomaly detector of the AI service: `detectAnomalies`
    (src/services/aiService.js), a z-score filter over an emissions history. */
module Anomalies {
  import opened Carbon
  import opened Stats

  /** `Math.abs((data.emissions - mean) / stdDev)` as JavaScript evaluates it.
      Math.sqrt is not modelled, so a finite score is kept as its square. */
  datatype ZScore =
    | NotANumber        // 0 / 0, or a NaN mean or variance
    | Infinity          // a non-zero deviation divided by a zero deviation
    | Squared(sq: real) // the square of a finite absolute z-score

  /** An entry pushed by `detectAnomalies`: type 'emission_spike', the sample's
      date, the severity and the emissions the description reports. */
  datatype Anomaly = EmissionSpike(date: string, severity: Level, emissions: real)

  /** The threshold above which a sample is flagged. */
  const FlagThreshold: real := 2.0
  /** The threshold above which a flagged sample has severity 'high'. */
  const HighThreshold: real := 3.0

  /** The absolute z-score of the emissions y, given the mean and the square of
      the standard deviation. It is finite exactly when the mean is a number and
      the variance is positive, and then its square times the variance is the
      squared deviation; it is Infinity exactly when a non-zero deviation is
      divided by a zero standard deviation. */
  function AbsZScore(y: real, mean: Num, variance: Num): (z: ZScore)
    ensures z.Squared? <==> mean.Real? && variance.Real? && variance.value > 0.0
    ensures z.Squared? ==> z.sq >= 0.0 && z.sq * variance.value == Square(y - mean.value)
    ensures z.Infinity? <==> mean.Real? && variance == Real(0.0) && y != mean.value
  {
    if mean.NaN? || variance.NaN? || variance.value < 0.0 then NotANumber
    else if variance.value > 0.0 then Squared(Square(y - mean.value) / variance.value)
    else if y - mean.value == 0.0 then NotANumber
    else Infinity
  }

  /** `zScore > k` for a threshold k >= 0 (the squares are compared, so a
      negative k is not modelled): false for NaN, true for Infinity. */
  function Exceeds(z: ZScore, k: real): (b: bool)
    ensures z.NotANumber? ==> !b
    ensures z.Infinity? ==> b
  {
    match z
    case NotANumber => false
    case Infinity => true
    case Squared(q) => q > k * k
  }

  /** The entry `detectAnomalies` pushes for a flagged sample. */
  function Report(d: Sample, z: ZScore): (a: Anomaly)
    ensures a.date == d.date && a.emissions == d.emissions
    ensures a.severity == High <==> Exceeds(z, HighThreshold)
    ensures a.severity != Low
  {
    EmissionSpike(d.date, if Exceeds(z, HighThreshold) then High else Medium, d.emissions)
  }

  /** The entry for the sample at index i of s. */
  function ReportAt(s: seq<Sample>, i: nat, mean: Num, variance: Num): Anomaly
    requires i < |s|
  {
    Report(s[i], AbsZScore(s[i].emissions, mean, variance))
  }

  /** The sample at index i of s has an absolute z-score above 2. */
  predicate Flagged(s: seq<Sample>, i: nat, mean: Num, variance: Num)
    requires i < |s|
  {
    Exceeds(AbsZScore(s[i].emissions, mean, variance), FlagThreshold)
  }

  /** The entries of the `forEach` loop over s, left to right, with the mean
      and the variance fixed beforehand. */
  function Spikes(s: seq<Sample>, mean: Num, variance: Num): (r: seq<Anomaly>)
    ensures |r| <= |s|
    ensures forall a :: a in r ==> a.severity == Medium || a.severity == High
  {
    if s == [] then []
    else
      Spikes(s[..|s| - 1], mean, variance)
      + (if Flagged(s, |s| - 1, mean, variance) then [ReportAt(s, |s| - 1, mean, variance)] else [])
  }

  /** What `detectAnomalies` returns for the history s: one entry per flagged
      sample, none of severity 'low'. */
  function AnomaliesOf(s: seq<Sample>): (r: seq<Anomaly>)
    ensures |r| == |FlaggedIndices(s, Mean(s), Variance(s, Mean(s)))|
    ensures forall a :: a in r ==> a.severity != Low
  {
    SpikesFollowFlaggedIndices(s, Mean(s), Variance(s, Mean(s)));
    Spikes(s, Mean(s), Variance(s, Mean(s)))
  }

  /** `detectAnomalies`: computes the mean and the standard deviation once,
      then pushes an entry for every sample whose absolute z-score is above 2. */
  method DetectAnomalies(data: seq<Sample>) returns (anomalies: seq<Anomaly>)
    ensures anomalies == AnomaliesOf(data)
  {
    anomalies := [];
    var mean := Mean(data);
    var variance := Variance(data, mean);
    var i := 0;
    while i < |data|
      invariant 0 <= i <= |data|
      invariant anomalies == Spikes(data[..i], mean, variance)
    {
      var zScore := AbsZScore(data[i].emissions, mean, variance);
      if Exceeds(zScore, FlagThreshold) {
        anomalies := anomalies + [Report(data[i], zScore)];
      }
      assert data[..i + 1][..i] == data[..i];
      i := i + 1;
    }
    assert data[..i] == data;
  }

  // ---------------------------------------------------------------------------
  // Which samples are flagged, and in which order
  // ---------------------------------------------------------------------------

  /** The indices of the flagged samples of s, in increasing order. */
  function FlaggedIndices(s: seq<Sample>, mean: Num, variance: Num): (r: seq<nat>)
    ensures forall j :: 0 <= j < |r| ==> r[j] < |s|
  {
    if s == [] then []
    else
      FlaggedIndices(s[..|s| - 1], mean, variance)
      + (if Flagged(s, |s| - 1, mean, variance) then [|s| - 1] else [])
  }

  /** Flagging a sample depends on the sample alone, not on what follows it. */
  lemma {:induction false} FlaggedInPrefix(s: seq<Sample>, k: nat, i: nat, mean: Num, variance: Num)
    requires i < k <= |s|
    ensures Flagged(s[..k], i, mean, variance) == Flagged(s, i, mean, variance)
  {
    assert s[..k][i] == s[i];
  }

  /** FlaggedIndices is strictly increasing and holds exactly the indices of
      the flagged samples. */
  lemma {:induction false} FlaggedIndicesExact(s: seq<Sample>, mean: Num, variance: Num)
    ensures forall j1, j2 :: 0 <= j1 < j2 < |FlaggedIndices(s, mean, variance)| ==>
              FlaggedIndices(s, mean, variance)[j1] < FlaggedIndices(s, mean, variance)[j2]
    ensures forall i :: 0 <= i < |s| ==>
              (i in FlaggedIndices(s, mean, variance) <==> Flagged(s, i, mean, variance))
  {
    if s != [] {
      var pre := s[..|s| - 1];
      FlaggedIndicesExact(pre, mean, variance);
      forall i | 0 <= i < |pre|
        ensures Flagged(pre, i, mean, variance) == Flagged(s, i, mean, variance)
      {
        FlaggedInPrefix(s, |s| - 1, i, mean, variance);
      }
      var r0, r := FlaggedIndices(pre, mean, variance), FlaggedIndices(s, mean, variance);
      forall j1, j2 | 0 <= j1 < j2 < |r| ensures r[j1] < r[j2] {
        assert r[j1] == r0[j1];
        if j2 < |r0| {
          assert r[j2] == r0[j2];
        } else {
          assert r[j2] == |s| - 1;
        }
      }
    }
  }

  /** The entries are the reports of the flagged samples, one per flagged
      sample, in input order: entry j reports sample FlaggedIndices[j]. */
  lemma {:induction false} SpikesFollowFlaggedIndices(s: seq<Sample>, mean: Num, variance: Num)
    ensures |Spikes(s, mean, variance)| == |FlaggedIndices(s, mean, variance)|
    ensures forall j :: 0 <= j < |FlaggedIndices(s, mean, variance)| ==>
              Spikes(s, mean, variance)[j] == ReportAt(s, FlaggedIndices(s, mean, variance)[j], mean, variance)
  {
    if s != [] {
      var pre := s[..|s| - 1];
      SpikesFollowFlaggedIndices(pre, mean, variance);
      var r0, out0 := FlaggedIndices(pre, mean, variance), Spikes(pre, mean, variance);
      var r, out := FlaggedIndices(s, mean, variance), Spikes(s, mean, variance);
      forall j | 0 <= j < |r| ensures out[j] == ReportAt(s, r[j], mean, variance) {
        if j < |r0| {
          assert out[j] == out0[j] && r[j] == r0[j];
          assert pre[r0[j]] == s[r0[j]];
        } else {
          assert r[j] == |s| - 1;
        }
      }
    }
  }

  /** When no sample is flagged there is no entry. */
  lemma {:induction false} NoneFlaggedNoSpikes(s: seq<Sample>, mean: Num, variance: Num)
    requires forall i :: 0 <= i < |s| ==> !Flagged(s, i, mean, variance)
    ensures Spikes(s, mean, variance) == []
  {
    if s != [] {
      var pre := s[..|s| - 1];
      forall i | 0 <= i < |pre| ensures !Flagged(pre, i, mean, variance) {
        FlaggedInPrefix(s, |s| - 1, i, mean, variance);
      }
      NoneFlaggedNoSpikes(pre, mean, variance);
    }
  }

  /** When no sample scores above 3 every entry has severity 'medium'. */
  lemma {:induction false} NoneHighAllMedium(s: seq<Sample>, mean: Num, variance: Num)
    requires forall i :: 0 <= i < |s| ==> !Exceeds(AbsZScore(s[i].emissions, mean, variance), HighThreshold)
    ensures forall a :: a in Spikes(s, mean, variance) ==> a.severity == Medium
  {
    SpikesFollowFlaggedIndices(s, mean, variance);
    var r := FlaggedIndices(s, mean, variance);
    var out := Spikes(s, mean, variance);
    forall a | a in out ensures a.severity == Medium {
      var j :| 0 <= j < |out| && out[j] == a;
      assert out[j] == ReportAt(s, r[j], mean, variance);
    }
  }

  /** A score above a higher threshold is above every lower one: in particular
      every sample reported as 'high' (above 3) is a flagged one (above 2). */
  lemma {:induction false} ExceedsMonotone(z: ZScore, lower: real, higher: real)
    requires 0.0 <= lower <= higher && Exceeds(z, higher)
    ensures Exceeds(z, lower)
  {
    if z.Squared? {
      SquareMonotone(higher, lower);
      if lower < higher {
        assert higher * higher > lower * lower;
      }
    }
  }

  // ---------------------------------------------------------------------------
  // The threshold in terms of the standard deviation
  // ---------------------------------------------------------------------------

  /** |x|. */
  function Abs(x: real): (r: real)
    ensures r >= 0.0 && (r == x || r == -x)
  {
    if x < 0.0 then -x else x
  }

  /** For non-negative reals, comparing squares compares the values:
      x·x - y·y = (x - y)·(x + y). */
  lemma {:induction false} SquareMonotone(x: real, y: real)
    requires x >= 0.0 && y >= 0.0
    ensures x * x > y * y <==> x > y
  {
    assert x * x - y * y == (x - y) * (x + y);
    if x > y {
      PositiveProduct(x - y, x + y);
    } else {
      NonNegativeProduct(y - x, x + y);
      assert y * y - x * x == (y - x) * (x + y);
    }
  }

  /** Only 0 has square 0. */
  lemma {:induction false} ZeroSquare(x: real)
    requires x * x == 0.0
    ensures x == 0.0
  {
    if x != 0.0 {
      PositiveSquare(x);
    }
  }

  /** Scaling by a positive v keeps a strict comparison. */
  lemma {:induction false} DivideComparison(p: real, v: real, c: real)
    requires v > 0.0
    ensures p / v > c <==> p > c * v
  {
    assert (p / v) * v == p;
    if p / v > c {
      assert (p / v) * v > c * v;
    } else {
      assert (p / v) * v <= c * v;
    }
  }

  /** `|(y - mean) / stdDev| > k` holds, under JavaScript's rules for 0 / 0 and
      x / 0, exactly when the deviation |y - mean| is more than k standard
      deviations, for every threshold k >= 0 and every standard deviation
      sigma >= 0 whose square is the variance. */
  lemma {:induction false} ExceedsIffBeyondDeviations(y: real, m: real, v: real, sigma: real, k: real)
    requires sigma >= 0.0 && sigma * sigma == v && k >= 0.0
    ensures Exceeds(AbsZScore(y, Real(m), Real(v)), k) <==> Abs(y - m) > k * sigma
  {
    var d := Abs(y - m);
    assert Square(y - m) == d * d;
    if v > 0.0 {
      DivideComparison(d * d, v, k * k);
      assert (k * k) * v == (k * sigma) * (k * sigma);
      assert k * sigma >= 0.0;
      SquareMonotone(d, k * sigma);
    } else {
      ZeroSquare(sigma);
    }
  }

  // ---------------------------------------------------------------------------
  // Histories with no anomaly
  // ---------------------------------------------------------------------------

  /** A sample whose squared deviation is at most c times the variance, for
      c <= k², does not score above k. */
  lemma {:induction false} BoundedDeviationNotExceeding(y: real, m: real, v: real, c: real, k: real)
    requires v >= 0.0 && Square(y - m) <= c * v && c <= k * k
    ensures !Exceeds(AbsZScore(y, Real(m), Real(v)), k)
  {
    if v > 0.0 {
      assert c * v <= (k * k) * v;
      DivideComparison(Square(y - m), v, k * k);
    } else {
      ZeroFactor(c, v);
      ZeroSquare(y - m);
    }
  }

  /** Every sample of a history of n samples lies within sqrt(n - 1) standard
      deviations of the mean, so it does not score above k when n - 1 <= k². */
  lemma {:induction false} NoSampleExceeds(s: seq<Sample>, k: real)
    requires |s| > 0 && ((|s| - 1) as real) <= k * k
    ensures forall i :: 0 <= i < |s| ==> !Exceeds(AbsZScore(s[i].emissions, Mean(s), Variance(s, Mean(s))), k)
  {
    var n, mu := |s| as real, Mean(s).value;
    var v := Variance(s, Mean(s)).value;
    LengthTimesMean(s, n, mu);
    LengthTimesVariance(s, n, mu, v);
    forall i | 0 <= i < |s|
      ensures !Exceeds(AbsZScore(s[i].emissions, Mean(s), Variance(s, Mean(s))), k)
    {
      DeviationBound(s, i, n, mu, v);
      BoundedDeviationNotExceeding(s[i].emissions, mu, v, n - 1.0, k);
    }
  }

  /** A history of at most five samples never has an anomaly: no sample can be
      more than two standard deviations away from the mean. */
  lemma {:induction false} ShortHistoryHasNoAnomalies(s: seq<Sample>)
    requires |s| <= 5
    ensures AnomaliesOf(s) == []
  {
    if |s| > 0 {
      NoSampleExceeds(s, FlagThreshold);
      NoneFlaggedNoSpikes(s, Mean(s), Variance(s, Mean(s)));
    }
  }

  /** A history of at most ten samples never has a 'high' anomaly. */
  lemma {:induction false} ModerateHistoryHasNoHighAnomalies(s: seq<Sample>)
    requires |s| <= 10
    ensures forall a :: a in AnomaliesOf(s) ==> a.severity == Medium
  {
    if |s| > 0 {
      NoSampleExceeds(s, HighThreshold);
      NoneHighAllMedium(s, Mean(s), Variance(s, Mean(s)));
    }
  }

  /** A sample equal to the mean scores 0 or NaN, never above a threshold. */
  lemma {:induction false} SampleAtMeanNotExceeding(y: real, m: real, v: real, k: real)
    requires v >= 0.0 && y == m && k >= 0.0
    ensures !Exceeds(AbsZScore(y, Real(m), Real(v)), k)
  {
    BoundedDeviationNotExceeding(y, m, v, 0.0, k);
  }

  /** A constant history, the empty one included, has no anomaly: its mean is
      the constant, so every z-score is 0 / 0. */
  lemma {:induction false} ConstantHistoryHasNoAnomalies(s: seq<Sample>, c: real)
    requires IsConstant(s, c)
    ensures AnomaliesOf(s) == []
  {
    if |s| > 0 {
      MeanOfConstant(s, c);
      forall i | 0 <= i < |s| ensures !Flagged(s, i, Mean(s), Variance(s, Mean(s))) {
        SampleAtMeanNotExceeding(s[i].emissions, c, Variance(s, Mean(s)).value, FlagThreshold);
      }
      NoneFlaggedNoSpikes(s, Mean(s), Variance(s, Mean(s)));
    }
  }

  /** The Infinity case never arises: a zero standard deviation means every
      sample equals the mean, so no non-zero deviation is divided by 0. */
  lemma {:induction false} NoInfiniteScore(s: seq<Sample>, i: nat)
    requires i < |s|
    ensures AbsZScore(s[i].emissions, Mean(s), Variance(s, Mean(s))) != Infinity
  {
    var mu, v := Mean(s).value, Variance(s, Mean(s)).value;
    if v == 0.0 {
      ZeroFactor(|s| as real, v);
      ZeroSquaredDeviations(s, mu);
      assert s[i].emissions == mu;
    }
  }

  /** Four months of about 100 tonnes followed by a jump to 500 is not reported:
      the jump scores just under 2 (its squared score is about 3.9997). */
  lemma FiveMonthJumpNotReported()
    ensures AnomaliesOf([Sample("2024-01", 100.0), Sample("2024-02", 102.0), Sample("2024-03", 98.0),
                       Sample("2024-04", 101.0), Sample("2024-05", 500.0)]) == []
  {
    ShortHistoryHasNoAnomalies([Sample("2024-01", 100.0), Sample("2024-02", 102.0), Sample("2024-03", 98.0),
                                Sample("2024-04", 101.0), Sample("2024-05", 500.0)]);
  }

  /** When only the last sample is flagged, the one entry is its report. */
  lemma {:induction false} OnlyLastFlagged(s: seq<Sample>, mean: Num, variance: Num)
    requires |s| > 0 && Flagged(s, |s| - 1, mean, variance)
    requires forall i :: 0 <= i < |s| - 1 ==> !Flagged(s, i, mean, variance)
    ensures Spikes(s, mean, variance) == [ReportAt(s, |s| - 1, mean, variance)]
  {
    var pre := s[..|s| - 1];
    forall i | 0 <= i < |pre| ensures !Flagged(pre, i, mean, variance) {
      FlaggedInPrefix(s, |s| - 1, i, mean, variance);
    }
    NoneFlaggedNoSpikes(pre, mean, variance);
  }

  /** Five months at 0 and a sixth at 10: the mean is 5/3 and the variance
      125/9, so the sixth month scores sqrt 5 (above 2, not above 3) and is
      reported as 'medium'; the others score sqrt(1/5). */
  lemma {:induction false} SixthMonthJumpReported()
    ensures AnomaliesOf([Sample("a", 0.0), Sample("b", 0.0), Sample("c", 0.0),
                         Sample("d", 0.0), Sample("e", 0.0), Sample("f", 10.0)])
            == [EmissionSpike("f", Medium, 10.0)]
  {
    var s := [Sample("a", 0.0), Sample("b", 0.0), Sample("c", 0.0),
              Sample("d", 0.0), Sample("e", 0.0), Sample("f", 10.0)];
    var pre := s[..5];
    assert IsConstant(pre, 0.0);
    SumOfConstant(pre, 0.0);
    assert Mean(s) == Real(10.0 / 6.0);
    SquaredDeviationSumOfConstant(pre, 0.0, 10.0 / 6.0, 100.0 / 36.0);
    assert SquaredDeviationSum(s, 10.0 / 6.0) == 5.0 * (100.0 / 36.0) + Square(10.0 - 10.0 / 6.0);
    assert Variance(s, Mean(s)) == Real(125.0 / 9.0);
    forall i | 0 <= i < 5 ensures !Flagged(s, i, Mean(s), Variance(s, Mean(s))) {
      assert s[i].emissions == 0.0;
    }
    OnlyLastFlagged(s, Mean(s), Variance(s, Mean(s)));
  }

  /** Ten months at 0 and an eleventh at 10: the mean is 10/11 and the variance
      1000/121, so the eleventh month scores sqrt 10 (above 3) and is reported
      as 'high'; the others score sqrt(1/10). */
  lemma {:induction false} EleventhMonthJumpReportedHigh()
    ensures AnomaliesOf([Sample("2024-01", 0.0), Sample("2024-02", 0.0), Sample("2024-03", 0.0),
                         Sample("2024-04", 0.0), Sample("2024-05", 0.0), Sample("2024-06", 0.0),
                         Sample("2024-07", 0.0), Sample("2024-08", 0.0), Sample("2024-09", 0.0),
                         Sample("2024-10", 0.0), Sample("2024-11", 10.0)])
            == [EmissionSpike("2024-11", High, 10.0)]
  {
    var s := [Sample("2024-01", 0.0), Sample("2024-02", 0.0), Sample("2024-03", 0.0),
              Sample("2024-04", 0.0), Sample("2024-05", 0.0), Sample("2024-06", 0.0),
              Sample("2024-07", 0.0), Sample("2024-08", 0.0), Sample("2024-09", 0.0),
              Sample("2024-10", 0.0), Sample("2024-11", 10.0)];
    var pre := s[..10];
    assert IsConstant(pre, 0.0);
    SumOfConstant(pre, 0.0);
    assert Mean(s) == Real(10.0 / 11.0);
    SquaredDeviationSumOfConstant(pre, 0.0, 10.0 / 11.0, 100.0 / 121.0);
    assert SquaredDeviationSum(s, 10.0 / 11.0) == 10.0 * (100.0 / 121.0) + Square(10.0 - 10.0 / 11.0);
    assert Variance(s, Mean(s)) == Real(1000.0 / 121.0);
    forall i | 0 <= i < 10 ensures !Flagged(s, i, Mean(s), Variance(s, Mean(s))) {
      assert s[i].emissions == 0.0;
    }
    OnlyLastFlagged(s, Mean(s), Variance(s, Mean(s)));
  }
}
