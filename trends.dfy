/** The trend fitter and the forecaster of the AI service: `calculateTrends`
    (an ordinary-least-squares line over the sample index), `extrapolate` and
    `predictFutureEmissions` (src/services/aiService.js). */
module Trends {
  import opened Carbon
  import opened Stats

  /** `{ slope, intercept }` as returned by `calculateTrends`. */
  datatype TrendLine = TrendLine(slope: real, intercept: real)

  /** The object built by `predictFutureEmissions`. */
  datatype Predictions = Predictions(nextMonth: real, nextQuarter: real, nextYear: real)

  // ---------------------------------------------------------------------------
  // The four folds of calculateTrends. The x value of a sample is its index.
  // ---------------------------------------------------------------------------

  /** `sumX`: Σ i over the indices 0 .. k-1 of a history of k samples. */
  function IndexSum(k: nat): real
  {
    if k == 0 then 0.0 else IndexSum(k - 1) + (k - 1) as real
  }

  /** `sumXX`: Σ i·i over the indices 0 .. k-1. */
  function IndexSquareSum(k: nat): real
  {
    if k == 0 then 0.0 else IndexSquareSum(k - 1) + ((k - 1) as real) * ((k - 1) as real)
  }

  /** `sumXY`: Σ i·y_i, left to right. (`sumY` is Stats.Sum.) */
  function CrossSum(s: seq<Sample>): real
  {
    if s == [] then 0.0 else CrossSum(s[..|s| - 1]) + ((|s| - 1) as real) * s[|s| - 1].emissions
  }

  /** One step of IndexSumClosedForm over plain reals. */
  lemma {:induction false} IndexSumStep(m: real, prev: real, next: real)
    requires 2.0 * prev == m * (m - 1.0) && next == prev + m
    ensures 2.0 * next == (m + 1.0) * m
  {
  }

  /** Σ_{i<k} i = k(k-1)/2. */
  lemma {:induction false} IndexSumClosedForm(k: nat)
    ensures 2.0 * IndexSum(k) == (k as real) * ((k as real) - 1.0)
  {
    if k > 0 {
      IndexSumClosedForm(k - 1);
      IndexSumStep((k - 1) as real, IndexSum(k - 1), IndexSum(k));
    }
  }

  /** One step of IndexSquareSumClosedForm over plain reals. */
  lemma {:induction false} IndexSquareSumStep(m: real, prev: real, next: real)
    requires 6.0 * prev == m * (m - 1.0) * (2.0 * m - 1.0) && next == prev + m * m
    ensures 6.0 * next == (m + 1.0) * m * (2.0 * m + 1.0)
  {
  }

  /** Σ_{i<k} i² = k(k-1)(2k-1)/6. */
  lemma {:induction false} IndexSquareSumClosedForm(k: nat)
    ensures 6.0 * IndexSquareSum(k) == (k as real) * ((k as real) - 1.0) * (2.0 * (k as real) - 1.0)
  {
    if k > 0 {
      IndexSquareSumClosedForm(k - 1);
      IndexSquareSumStep((k - 1) as real, IndexSquareSum(k - 1), IndexSquareSum(k));
    }
  }

  /** The arithmetic of DenominatorPositive: with 2·sx = n(n-1) and
      6·sxx = n(n-1)(2n-1), 12·(n·sxx - sx²) = n²(n-1)(n+1). */
  lemma {:induction false} DenominatorArithmetic(n: real, sx: real, sxx: real, a: real)
    requires n >= 2.0 && a == n * (n - 1.0)
    requires 2.0 * sx == a && 6.0 * sxx == a * (2.0 * n - 1.0)
    ensures n * sxx - sx * sx > 0.0
  {
    assert 12.0 * (n * sxx - sx * sx) == 2.0 * n * (a * (2.0 * n - 1.0)) - 3.0 * (a * a);
    assert 2.0 * n * (a * (2.0 * n - 1.0)) - 3.0 * (a * a) == a * (n * (n + 1.0));
    PositiveProduct(n, n - 1.0);
    PositiveProduct(n, n + 1.0);
    PositiveProduct(a, n * (n + 1.0));
  }

  /** For two or more samples the denominator `n*sumXX - sumX*sumX` of the slope
      is strictly positive: the indices 0 .. n-1 are not all equal. */
  lemma {:induction false} DenominatorPositive(k: nat, n: real, sx: real, sxx: real)
    requires k >= 2 && n == k as real && sx == IndexSum(k) && sxx == IndexSquareSum(k)
    ensures n * sxx - sx * sx > 0.0
  {
    IndexSumClosedForm(k);
    IndexSquareSumClosedForm(k);
    DenominatorArithmetic(n, sx, sxx, n * (n - 1.0));
  }

  // ---------------------------------------------------------------------------
  // calculateTrends
  // ---------------------------------------------------------------------------

  /** The division step of calculateTrends from the four sums. The line it gives
      satisfies both normal equations of least squares:
      Σ (y_i - (a·i + b)) = 0 and Σ i·(y_i - (a·i + b)) = 0. */
  function Fit(n: real, sx: real, sy: real, sxy: real, sxx: real): (r: TrendLine)
    requires n > 0.0 && n * sxx - sx * sx != 0.0
    ensures sy - r.slope * sx - n * r.intercept == 0.0
    ensures sxy - r.slope * sxx - r.intercept * sx == 0.0
  {
    var slope := (n * sxy - sx * sy) / (n * sxx - sx * sx);
    FitSolvesNormalEquations(n, sx, sy, sxy, sxx, slope, (sy - slope * sx) / n);
    TrendLine(slope, (sy - slope * sx) / n)
  }

  /** The arithmetic behind Fit's contract. */
  lemma {:induction false} FitSolvesNormalEquations(n: real, sx: real, sy: real, sxy: real, sxx: real,
                                                    a: real, b: real)
    requires n > 0.0 && n * sxx - sx * sx != 0.0
    requires a == (n * sxy - sx * sy) / (n * sxx - sx * sx) && b == (sy - a * sx) / n
    ensures sy - a * sx - n * b == 0.0
    ensures sxy - a * sxx - b * sx == 0.0
  {
    assert a * (n * sxx - sx * sx) == n * sxy - sx * sy;
    assert n * b == sy - a * sx;
    assert n * (sxy - a * sxx - b * sx) == (n * sxy - sx * sy) - a * (n * sxx - sx * sx);
    ZeroFactorCancel(n, sxy - a * sxx - b * sx);
  }

  /** Fit's contract as a fact about its arguments. */
  lemma {:induction false} FitNormal(n: real, sx: real, sy: real, sxy: real, sxx: real)
    requires n > 0.0 && n * sxx - sx * sx > 0.0
    ensures sy - Fit(n, sx, sy, sxy, sxx).slope * sx - n * Fit(n, sx, sy, sxy, sxx).intercept == 0.0
    ensures sxy - Fit(n, sx, sy, sxy, sxx).slope * sxx - Fit(n, sx, sy, sxy, sxx).intercept * sx == 0.0
  {
  }

  /** A product with a non-zero factor is zero only when the other factor is. */
  lemma {:induction false} ZeroFactorCancel(n: real, x: real)
    requires n != 0.0 && n * x == 0.0
    ensures x == 0.0
  {
  }

  /** `calculateTrends`: slope and intercept 0 for fewer than two samples,
      otherwise the least-squares line through the points (i, y_i). */
  function Trend(s: seq<Sample>): (r: TrendLine)
    ensures |s| < 2 ==> r == TrendLine(0.0, 0.0)
  {
    if |s| < 2 then TrendLine(0.0, 0.0)
    else
      DenominatorPositive(|s|, |s| as real, IndexSum(|s|), IndexSquareSum(|s|));
      Fit(|s| as real, IndexSum(|s|), Sum(s), CrossSum(s), IndexSquareSum(|s|))
  }

  // ---------------------------------------------------------------------------
  // What the fitted line means: residuals and the normal equations
  // ---------------------------------------------------------------------------

  /** The vertical distance of the point (x, y) above the line t. */
  function Residual(y: real, x: real, t: TrendLine): real
  {
    y - (t.slope * x + t.intercept)
  }

  /** Σ (y_i - t(i)). */
  function ResidualSum(s: seq<Sample>, t: TrendLine): real
  {
    if s == [] then 0.0
    else ResidualSum(s[..|s| - 1], t) + Residual(s[|s| - 1].emissions, (|s| - 1) as real, t)
  }

  /** Σ i·(y_i - t(i)). */
  function WeightedResidualSum(s: seq<Sample>, t: TrendLine): real
  {
    if s == [] then 0.0
    else WeightedResidualSum(s[..|s| - 1], t)
         + ((|s| - 1) as real) * Residual(s[|s| - 1].emissions, (|s| - 1) as real, t)
  }

  /** One step of ResidualSumExpands over plain reals: the sample y at index k
      has residual e. */
  lemma {:induction false} PlainResidualStep(k: real, n: real, a: real, b: real, y: real, e: real,
                                             rs: real, rs2: real, sx: real, sx2: real, sy: real, sy2: real)
    requires rs == sy - a * sx - k * b
    requires e == y - (a * k + b) && n == k + 1.0
    requires rs2 == rs + e && sx2 == sx + k && sy2 == sy + y
    ensures rs2 == sy2 - a * sx2 - n * b
  {
  }

  /** Σ (y_i - (a·i + b)) = sumY - a·sumX - n·b, where n is the length of s and
      a, b are the coefficients of t. The sums are passed as plain reals so that
      the arithmetic stays among atoms. */
  lemma {:induction false} ResidualSumExpands(s: seq<Sample>, t: TrendLine, n: real, a: real, b: real,
                                              rs: real, sx: real, sy: real)
    requires n == |s| as real && a == t.slope && b == t.intercept
    requires rs == ResidualSum(s, t) && sx == IndexSum(|s|) && sy == Sum(s)
    ensures rs == sy - a * sx - n * b
  {
    if s == [] {
      ZeroFactor(a, sx);
      ZeroFactor(b, n);
      assert n * b == b * n;
    } else {
      var pre := s[..|s| - 1];
      var y := s[|s| - 1].emissions;
      var k := (|s| - 1) as real;
      var e := y - (a * k + b);
      assert e == Residual(y, k, t);
      var rs0, sx0, sy0 := ResidualSum(pre, t), IndexSum(|pre|), Sum(pre);
      ResidualSumExpands(pre, t, k, a, b, rs0, sx0, sy0);
      PlainResidualStep(k, n, a, b, y, e, rs0, rs, sx0, sx, sy0, sy);
    }
  }

  /** One step of WeightedResidualSumExpands over plain reals. */
  lemma {:induction false} WeightedResidualStep(k: real, a: real, b: real, y: real, e: real,
                                                ws: real, ws2: real, sx: real, sx2: real,
                                                sxy: real, sxy2: real, sxx: real, sxx2: real)
    requires ws == sxy - a * sxx - b * sx
    requires e == y - (a * k + b)
    requires ws2 == ws + k * e && sx2 == sx + k && sxy2 == sxy + k * y && sxx2 == sxx + k * k
    ensures ws2 == sxy2 - a * sxx2 - b * sx2
  {
  }

  /** Σ i·(y_i - (a·i + b)) = sumXY - a·sumXX - b·sumX. */
  lemma {:induction false} WeightedResidualSumExpands(s: seq<Sample>, t: TrendLine, a: real, b: real,
                                                      ws: real, sx: real, sxy: real, sxx: real)
    requires a == t.slope && b == t.intercept
    requires ws == WeightedResidualSum(s, t) && sx == IndexSum(|s|)
    requires sxy == CrossSum(s) && sxx == IndexSquareSum(|s|)
    ensures ws == sxy - a * sxx - b * sx
  {
    if s == [] {
      ZeroFactor(a, sxx);
      ZeroFactor(b, sx);
    } else {
      var pre := s[..|s| - 1];
      var y := s[|s| - 1].emissions;
      var k := (|s| - 1) as real;
      var e := y - (a * k + b);
      assert e == Residual(y, k, t);
      var ws0, sx0, sxy0, sxx0 := WeightedResidualSum(pre, t), IndexSum(|pre|), CrossSum(pre), IndexSquareSum(|pre|);
      WeightedResidualSumExpands(pre, t, a, b, ws0, sx0, sxy0, sxx0);
      WeightedResidualStep(k, a, b, y, e, ws0, ws, sx0, sx, sxy0, sxy, sxx0, sxx);
    }
  }


  /** The arithmetic behind NormalEquationsDetermineTrend: two lines that both
      solve the normal equations of the same sums are equal, because the
      determinant n·sumXX - sumX² is not zero. */
  lemma {:induction false} NormalEquationsUnique(n: real, sx: real, sy: real, sxy: real, sxx: real,
                                                 a1: real, b1: real, a2: real, b2: real)
    requires n > 0.0 && n * sxx - sx * sx != 0.0
    requires sy - a1 * sx - n * b1 == 0.0 && sxy - a1 * sxx - b1 * sx == 0.0
    requires sy - a2 * sx - n * b2 == 0.0 && sxy - a2 * sxx - b2 * sx == 0.0
    ensures a1 == a2 && b1 == b2
  {
    var da, db := a1 - a2, b1 - b2;
    assert da * sx + n * db == 0.0;
    assert da * sxx + db * sx == 0.0;
    assert da * (n * sxx - sx * sx) == n * (da * sxx + db * sx) - sx * (da * sx + n * db);
    ZeroFactorCancel(n * sxx - sx * sx, da);
    ZeroFactorCancel(n, db);
  }

  /** The residuals of t sum to zero exactly when t solves the first normal
      equation sumY = a·sumX + n·b of the sums of s. */
  lemma {:induction false} FirstNormalEquation(s: seq<Sample>, t: TrendLine, n: real, sx: real, sy: real)
    requires n == |s| as real && sx == IndexSum(|s|) && sy == Sum(s)
    ensures ResidualSum(s, t) == 0.0 <==> sy - t.slope * sx - n * t.intercept == 0.0
  {
    ResidualSumExpands(s, t, n, t.slope, t.intercept, ResidualSum(s, t), sx, sy);
  }

  /** The index-weighted residuals of t sum to zero exactly when t solves the
      second normal equation sumXY = a·sumXX + b·sumX of the sums of s. */
  lemma {:induction false} SecondNormalEquation(s: seq<Sample>, t: TrendLine, sx: real, sxy: real, sxx: real)
    requires sx == IndexSum(|s|) && sxy == CrossSum(s) && sxx == IndexSquareSum(|s|)
    ensures WeightedResidualSum(s, t) == 0.0 <==> sxy - t.slope * sxx - t.intercept * sx == 0.0
  {
    WeightedResidualSumExpands(s, t, t.slope, t.intercept, WeightedResidualSum(s, t), sx, sxy, sxx);
  }

  /** Over the sums alone: a line solves both normal equations if and only if
      it is the line Fit computes. */
  lemma {:induction false} FitIffNormalEquations(n: real, sx: real, sy: real, sxy: real, sxx: real, u: TrendLine)
    requires n > 0.0 && n * sxx - sx * sx > 0.0
    ensures u == Fit(n, sx, sy, sxy, sxx)
            <==> sy - u.slope * sx - n * u.intercept == 0.0 && sxy - u.slope * sxx - u.intercept * sx == 0.0
  {
    FitNormal(n, sx, sy, sxy, sxx);
    var t := Fit(n, sx, sy, sxy, sxx);
    if sy - u.slope * sx - n * u.intercept == 0.0 && sxy - u.slope * sxx - u.intercept * sx == 0.0 {
      NormalEquationsUnique(n, sx, sy, sxy, sxx, u.slope, u.intercept, t.slope, t.intercept);
    }
  }

  /** For two or more samples a line is the result of `calculateTrends` if and
      only if it solves the normal equations of least squares: its residuals,
      plain and weighted by the index, both sum to zero. */
  lemma {:induction false} TrendIffNormalEquations(s: seq<Sample>, u: TrendLine)
    requires |s| >= 2
    ensures u == Trend(s) <==> ResidualSum(s, u) == 0.0 && WeightedResidualSum(s, u) == 0.0
  {
    var n, sx, sy, sxy, sxx := |s| as real, IndexSum(|s|), Sum(s), CrossSum(s), IndexSquareSum(|s|);
    DenominatorPositive(|s|, n, sx, sxx);
    FirstNormalEquation(s, u, n, sx, sy);
    SecondNormalEquation(s, u, sx, sxy, sxx);
    FitIffNormalEquations(n, sx, sy, sxy, sxx, u);
  }

  // ---------------------------------------------------------------------------
  // Histories that lie on a line
  // ---------------------------------------------------------------------------

  /** Every sample lies on the line y = a·i + b. */
  predicate IsLine(s: seq<Sample>, a: real, b: real)
  {
    forall i :: 0 <= i < |s| ==> s[i].emissions == a * (i as real) + b
  }

  /** A line through every sample has no residual, plain or weighted. */
  lemma {:induction false} LineHasNoResiduals(s: seq<Sample>, a: real, b: real)
    requires IsLine(s, a, b)
    ensures ResidualSum(s, TrendLine(a, b)) == 0.0 && WeightedResidualSum(s, TrendLine(a, b)) == 0.0
  {
    if s != [] {
      var pre := s[..|s| - 1];
      assert IsLine(pre, a, b) by {
        forall i | 0 <= i < |pre| ensures pre[i].emissions == a * (i as real) + b {
          assert pre[i] == s[i];
        }
      }
      LineHasNoResiduals(pre, a, b);
      var e := Residual(s[|s| - 1].emissions, (|s| - 1) as real, TrendLine(a, b));
      assert e == 0.0;
      ZeroFactor((|s| - 1) as real, e);
    }
  }

  /** For an exactly linear history y_i = a·i + b of two or more samples,
      `calculateTrends` recovers slope a and intercept b. */
  lemma {:induction false} TrendOfExactLine(s: seq<Sample>, a: real, b: real)
    requires |s| >= 2 && IsLine(s, a, b)
    ensures Trend(s) == TrendLine(a, b)
  {
    LineHasNoResiduals(s, a, b);
    TrendIffNormalEquations(s, TrendLine(a, b));
  }

  /** For a constant history c of two or more samples the trend is flat at c. */
  lemma {:induction false} TrendOfConstant(s: seq<Sample>, c: real)
    requires |s| >= 2 && IsConstant(s, c)
    ensures Trend(s) == TrendLine(0.0, c)
  {
    assert IsLine(s, 0.0, c) by {
      forall i | 0 <= i < |s| ensures s[i].emissions == 0.0 * (i as real) + c {
      }
    }
    TrendOfExactLine(s, 0.0, c);
  }

  // ---------------------------------------------------------------------------
  // extrapolate and predictFutureEmissions
  // ---------------------------------------------------------------------------

  /** `Math.max(0, v)`: the larger of 0 and v. */
  function ClampAtZero(v: real): (r: real)
    ensures r >= 0.0 && r >= v
    ensures r == 0.0 || r == v
    ensures r == v <==> v >= 0.0
  {
    if v > 0.0 then v else 0.0
  }

  /** The clamp keeps the order of its arguments. */
  lemma {:induction false} ClampKeepsOrder(v1: real, v2: real)
    requires v1 <= v2
    ensures ClampAtZero(v1) <= ClampAtZero(v2)
  {
  }

  /** `extrapolate`: the value of the line at x = months, clamped at 0. */
  function Extrapolate(t: TrendLine, months: real): (r: real)
    ensures r >= 0.0 && r >= t.slope * months + t.intercept
    ensures r == 0.0 || r == t.slope * months + t.intercept
    ensures r == t.slope * months + t.intercept <==> t.slope * months + t.intercept >= 0.0
  {
    ClampAtZero(t.slope * months + t.intercept)
  }

  /** Multiplying by a non-negative factor keeps an inequality. */
  lemma {:induction false} ScaleByNonNegative(a: real, b: real, c: real)
    requires a >= 0.0 && b <= c
    ensures a * b <= a * c
  {
    assert a * c - a * b == a * (c - b);
    NonNegativeProduct(a, c - b);
  }

  /** Multiplying by a non-positive factor reverses an inequality. */
  lemma {:induction false} ScaleByNonPositive(a: real, b: real, c: real)
    requires a <= 0.0 && b <= c
    ensures a * c <= a * b
  {
    assert a * b - a * c == (-a) * (c - b);
    NonNegativeProduct(-a, c - b);
  }

  /** Along a rising or flat line the clamped value does not decrease with the
      horizon. */
  lemma {:induction false} ExtrapolateMonotone(t: TrendLine, m1: real, m2: real)
    requires t.slope >= 0.0 && m1 <= m2
    ensures Extrapolate(t, m1) <= Extrapolate(t, m2)
  {
    ScaleByNonNegative(t.slope, m1, m2);
    assert t.slope * m1 + t.intercept <= t.slope * m2 + t.intercept;
    ClampKeepsOrder(t.slope * m1 + t.intercept, t.slope * m2 + t.intercept);
  }

  /** Along a falling or flat line the clamped value does not increase with the
      horizon. */
  lemma {:induction false} ExtrapolateAntitone(t: TrendLine, m1: real, m2: real)
    requires t.slope <= 0.0 && m1 <= m2
    ensures Extrapolate(t, m2) <= Extrapolate(t, m1)
  {
    ScaleByNonPositive(t.slope, m1, m2);
    assert t.slope * m2 + t.intercept <= t.slope * m1 + t.intercept;
    ClampKeepsOrder(t.slope * m2 + t.intercept, t.slope * m1 + t.intercept);
  }

  /** The horizons of `predictFutureEmissions`, in months. */
  const NextMonth: real := 1.0
  const NextQuarter: real := 3.0
  const NextYear: real := 12.0

  /** `predictFutureEmissions`: the trend of the history, extrapolated at the
      horizons 1, 3 and 12. Every forecast is non-negative; with fewer than
      two samples the trend is flat at 0 and so is every forecast. */
  function PredictFutureEmissions(s: seq<Sample>): (p: Predictions)
    ensures p.nextMonth >= 0.0 && p.nextQuarter >= 0.0 && p.nextYear >= 0.0
    ensures |s| < 2 ==> p == Predictions(0.0, 0.0, 0.0)
  {
    var t := Trend(s);
    Predictions(Extrapolate(t, NextMonth), Extrapolate(t, NextQuarter), Extrapolate(t, NextYear))
  }

  /** The three forecasts follow the direction of the trend: ordered upwards
      when its slope is not negative, downwards when it is not positive. */
  lemma {:induction false} ForecastsFollowSlope(s: seq<Sample>)
    ensures Trend(s).slope >= 0.0 ==>
              PredictFutureEmissions(s).nextMonth <= PredictFutureEmissions(s).nextQuarter <= PredictFutureEmissions(s).nextYear
    ensures Trend(s).slope <= 0.0 ==>
              PredictFutureEmissions(s).nextYear <= PredictFutureEmissions(s).nextQuarter <= PredictFutureEmissions(s).nextMonth
  {
    var t := Trend(s);
    if t.slope >= 0.0 {
      ExtrapolateMonotone(t, NextMonth, NextQuarter);
      ExtrapolateMonotone(t, NextQuarter, NextYear);
    }
    if t.slope <= 0.0 {
      ExtrapolateAntitone(t, NextMonth, NextQuarter);
      ExtrapolateAntitone(t, NextQuarter, NextYear);
    }
  }

  /** As written, the horizons are x values of the fit, and x counts from the
      first sample: on an exactly linear history the "next month" forecast is
      the second sample of the history, not the month after the last one. */
  lemma {:induction false} NextMonthIsSecondSample(s: seq<Sample>, a: real, b: real)
    requires |s| >= 2 && IsLine(s, a, b) && s[1].emissions >= 0.0
    ensures PredictFutureEmissions(s).nextMonth == s[1].emissions
  {
    TrendOfExactLine(s, a, b);
    assert s[1].emissions == a * 1.0 + b;
  }

  /** A four-month history rising by 10 a month, 100 to 130, is forecast at
      110 for the next month instead of 140. */
  lemma HorizonCounterexample()
    ensures var s := [Sample("2024-01", 100.0), Sample("2024-02", 110.0),
                      Sample("2024-03", 120.0), Sample("2024-04", 130.0)];
            PredictFutureEmissions(s).nextMonth == 110.0
            && s[|s| - 1].emissions + Trend(s).slope == 140.0
  {
    var s := [Sample("2024-01", 100.0), Sample("2024-02", 110.0),
              Sample("2024-03", 120.0), Sample("2024-04", 130.0)];
    assert IsLine(s, 10.0, 100.0) by {
      forall i | 0 <= i < |s| ensures s[i].emissions == 10.0 * (i as real) + 100.0 {
        assert i == 0 || i == 1 || i == 2 || i == 3;
      }
    }
    NextMonthIsSecondSample(s, 10.0, 100.0);
    TrendOfExactLine(s, 10.0, 100.0);
  }

  /** The forecast as evidently intended: the horizons counted from the last
      sample, that is the line evaluated at x = (n - 1) + h. */
  function PredictAfterLatest(s: seq<Sample>): (p: Predictions)
    ensures p.nextMonth >= 0.0 && p.nextQuarter >= 0.0 && p.nextYear >= 0.0
    ensures |s| < 2 ==> p == Predictions(0.0, 0.0, 0.0)
  {
    var t := Trend(s);
    var last := (|s| - 1) as real;
    Predictions(Extrapolate(t, last + NextMonth), Extrapolate(t, last + NextQuarter),
                Extrapolate(t, last + NextYear))
  }

  /** On an exactly linear history the corrected forecast continues the line
      past the last sample: h months ahead it is the last value plus h slopes,
      whenever that is not negative. */
  lemma {:induction false} PredictAfterLatestContinuesLine(s: seq<Sample>, a: real, b: real)
    requires |s| >= 2 && IsLine(s, a, b)
    ensures var y := s[|s| - 1].emissions;
            var p := PredictAfterLatest(s);
            (y + a * NextMonth >= 0.0 ==> p.nextMonth == y + a * NextMonth)
            && (y + a * NextQuarter >= 0.0 ==> p.nextQuarter == y + a * NextQuarter)
            && (y + a * NextYear >= 0.0 ==> p.nextYear == y + a * NextYear)
  {
    TrendOfExactLine(s, a, b);
    var t, last, y := TrendLine(a, b), (|s| - 1) as real, s[|s| - 1].emissions;
    assert y == a * last + b;
    if y + a * NextMonth >= 0.0 {
      ForecastOnLine(t, last, NextMonth, y);
    }
    if y + a * NextQuarter >= 0.0 {
      ForecastOnLine(t, last, NextQuarter, y);
    }
    if y + a * NextYear >= 0.0 {
      ForecastOnLine(t, last, NextYear, y);
    }
  }

  /** h months after a point (x, y) of the line t, the clamped value is y plus
      h slopes, whenever that is not negative. */
  lemma {:induction false} ForecastOnLine(t: TrendLine, x: real, h: real, y: real)
    requires y == t.slope * x + t.intercept && y + t.slope * h >= 0.0
    ensures Extrapolate(t, x + h) == y + t.slope * h
  {
    assert t.slope * (x + h) + t.intercept == y + t.slope * h;
  }
}
