/** The descriptive statistics of the AI service: `calculateMean` and
    `calculateStandardDeviation`, both `reduce` folds over the history. */
module Stats {
  import opened Carbon

  /** `Math.pow(x, 2)`. */
  function Square(x: real): (r: real)
    ensures r >= 0.0
  {
    x * x
  }

  /** The fold `reduce((sum, item) => sum + item.emissions, 0)`, left to right. */
  function Sum(s: seq<Sample>): real
  {
    if s == [] then 0.0 else Sum(s[..|s| - 1]) + s[|s| - 1].emissions
  }

  /** The fold `reduce((sum, item) => sum + Math.pow(item.emissions - m, 2), 0)`;
      a sum of squares, so never negative. */
  function SquaredDeviationSum(s: seq<Sample>, m: real): (r: real)
    ensures r >= 0.0
  {
    if s == [] then 0.0
    else SquaredDeviationSum(s[..|s| - 1], m) + Square(s[|s| - 1].emissions - m)
  }

  /** `calculateMean`: the sum divided by the length; on an empty history that is
      0 / 0, i.e. NaN. Otherwise the result times the length gives back the sum. */
  function Mean(s: seq<Sample>): (r: Num)
    ensures r.Real? <==> |s| > 0
    ensures r.Real? ==> (|s| as real) * r.value == Sum(s)
  {
    if |s| == 0 then NaN else Real(Sum(s) / (|s| as real))
  }

  /** The square of `calculateStandardDeviation(data, mean)`, i.e. the population
      variance around the given mean. Math.sqrt is not modelled: callers compare
      squares instead. An empty history (0 / 0) or a NaN mean gives NaN. */
  function Variance(s: seq<Sample>, mean: Num): (r: Num)
    ensures r.Real? <==> |s| > 0 && mean.Real?
    ensures r.Real? ==> r.value >= 0.0
    ensures r.Real? ==> (|s| as real) * r.value == SquaredDeviationSum(s, mean.value)
  {
    if |s| == 0 || mean.NaN? then NaN
    else Real(SquaredDeviationSum(s, mean.value) / (|s| as real))
  }

  /** Every sample of `s` has emissions `c`. */
  predicate IsConstant(s: seq<Sample>, c: real)
  {
    forall i :: 0 <= i < |s| ==> s[i].emissions == c
  }

  /** The product of two positive reals is positive. */
  lemma {:induction false} PositiveProduct(a: real, b: real)
    requires a > 0.0 && b > 0.0
    ensures a * b > 0.0
  {
  }

  /** The product of two non-negative reals is non-negative. */
  lemma {:induction false} NonNegativeProduct(a: real, b: real)
    requires a >= 0.0 && b >= 0.0
    ensures a * b >= 0.0
  {
  }

  /** Dividing both sides of an inequality by a positive factor. */
  lemma {:induction false} CancelPositiveFactor(n: real, a: real, b: real)
    requires n > 0.0 && n * a <= n * b
    ensures a <= b
  {
  }

  /** The square of a non-zero real is positive. */
  lemma {:induction false} PositiveSquare(x: real)
    requires x != 0.0
    ensures Square(x) > 0.0
  {
    calc {
      Square(x);
      x * x;
    >  { assert x * x > 0.0 * x; }
      0.0 * x;
    }
  }

  /** The sum of a constant history is its length times the constant. */
  lemma {:induction false} SumOfConstant(s: seq<Sample>, c: real)
    requires IsConstant(s, c)
    ensures Sum(s) == (|s| as real) * c
  {
    if s != [] {
      SumOfConstant(s[..|s| - 1], c);
    }
  }

  /** In a constant history c every squared deviation from m is q = (c - m)², so
      their sum is the length times q. */
  lemma {:induction false} SquaredDeviationSumOfConstant(s: seq<Sample>, c: real, m: real, q: real)
    requires IsConstant(s, c) && q == Square(c - m)
    ensures SquaredDeviationSum(s, m) == (|s| as real) * q
  {
    if s != [] {
      SquaredDeviationSumOfConstant(s[..|s| - 1], c, m, q);
    }
  }

  /** The mean of a non-empty constant history is that constant. */
  lemma {:induction false} MeanOfConstant(s: seq<Sample>, c: real)
    requires |s| > 0 && IsConstant(s, c)
    ensures Mean(s) == Real(c)
  {
    SumOfConstant(s, c);
  }

  /** Sums respect bounds on every sample. */
  lemma {:induction false} SumWithinBounds(s: seq<Sample>, lo: real, hi: real)
    requires forall i :: 0 <= i < |s| ==> lo <= s[i].emissions <= hi
    ensures (|s| as real) * lo <= Sum(s) <= (|s| as real) * hi
  {
    if s != [] {
      SumWithinBounds(s[..|s| - 1], lo, hi);
    }
  }

  /** The mean lies between any lower and upper bound of the samples. */
  lemma {:induction false} MeanWithinBounds(s: seq<Sample>, lo: real, hi: real)
    requires |s| > 0
    requires forall i :: 0 <= i < |s| ==> lo <= s[i].emissions <= hi
    ensures lo <= Mean(s).value <= hi
  {
    SumWithinBounds(s, lo, hi);
    var n := |s| as real;
    var m := Mean(s).value;
    CancelPositiveFactor(n, lo, m);
    CancelPositiveFactor(n, m, hi);
  }

  /** The squared deviations sum to zero exactly when every sample equals `m`. */
  lemma {:induction false} ZeroSquaredDeviations(s: seq<Sample>, m: real)
    ensures SquaredDeviationSum(s, m) == 0.0 <==> IsConstant(s, m)
  {
    if s != [] {
      var p := s[..|s| - 1];
      var d := s[|s| - 1].emissions - m;
      ZeroSquaredDeviations(p, m);
      if d != 0.0 {
        PositiveSquare(d);
      }
      assert forall i :: 0 <= i < |p| ==> p[i] == s[i];
    }
  }

  /** The variance around the history's own mean is zero exactly when the history
      is constant (the mean is then that constant). */
  lemma {:induction false} VarianceZeroIffConstant(s: seq<Sample>)
    requires |s| > 0
    ensures Variance(s, Mean(s)) == Real(0.0) <==> IsConstant(s, Mean(s).value)
  {
    ZeroSquaredDeviations(s, Mean(s).value);
  }

  /** (p·(y - m) + q)², one term of the helper sum below. */
  function ShiftedSquare(y: real, m: real, p: real, q: real): (r: real)
    ensures r >= 0.0
  {
    Square(p * (y - m) + q)
  }

  /** Σ (p·(y_i - m) + q)², the helper sum of the deviation bound below. */
  function ShiftedSquareSum(s: seq<Sample>, m: real, p: real, q: real): (r: real)
    ensures r >= 0.0
  {
    if s == [] then 0.0
    else ShiftedSquareSum(s[..|s| - 1], m, p, q) + ShiftedSquare(s[|s| - 1].emissions, m, p, q)
  }

  /** A sum of squares is at least each of its terms. */
  lemma {:induction false} ShiftedSquareSumAtLeastTerm(s: seq<Sample>, m: real, p: real, q: real, j: nat)
    requires j < |s|
    ensures ShiftedSquare(s[j].emissions, m, p, q) <= ShiftedSquareSum(s, m, p, q)
  {
    var pre := s[..|s| - 1];
    if j < |s| - 1 {
      assert pre[j] == s[j];
      ShiftedSquareSumAtLeastTerm(pre, m, p, q, j);
    }
  }

  /** One step of ShiftedSquareSumExpands, as a polynomial identity over plain reals. */
  lemma {:induction false} ExpandStep(a: real, a2: real, b: real, b2: real, c: real, c2: real, k: real, n: real,
                   m: real, p: real, q: real, y: real, pp: real, pq: real, qq: real)
    requires pp == p * p && pq == 2.0 * p * q && qq == q * q
    requires a == pp * b + pq * (c - k * m) + k * qq
    requires a2 == a + ShiftedSquare(y, m, p, q)
    requires b2 == b + Square(y - m)
    requires c2 == c + y
    requires n == k + 1.0
    ensures a2 == pp * b2 + pq * (c2 - n * m) + n * qq
  {
  }

  /** Expanding the squares: Σ (p·d_i + q)² = p²·Σ d_i² + 2pq·Σ d_i + n·q², where
      n is the length of `s`, d_i = y_i - m, and pp, pq, qq stand for p², 2pq, q².
      The three sums are returned as values so that callers reason about plain reals. */
  lemma {:induction false} ShiftedSquareSumExpands(s: seq<Sample>, n: real, m: real, p: real, q: real,
                                                   pp: real, pq: real, qq: real)
    returns (total: real, sq: real, sum: real)
    requires n == |s| as real
    requires pp == p * p && pq == 2.0 * p * q && qq == q * q
    ensures total == ShiftedSquareSum(s, m, p, q) && sq == SquaredDeviationSum(s, m) && sum == Sum(s)
    ensures total == pp * sq + pq * (sum - n * m) + n * qq
  {
    if s == [] {
      total, sq, sum := 0.0, 0.0, 0.0;
      ZeroFactor(pp, sq);
      ZeroFactor(m, n);
      ZeroFactor(qq, n);
    } else {
      var pre := s[..|s| - 1];
      var y := s[|s| - 1].emissions;
      var a, b, c := ShiftedSquareSumExpands(pre, n - 1.0, m, p, q, pp, pq, qq);
      total, sq, sum := a + ShiftedSquare(y, m, p, q), b + Square(y - m), c + y;
      ExpandStep(a, total, b, sq, c, sum, n - 1.0, n, m, p, q, y, pp, pq, qq);
    }
  }

  /** Dividing by a positive factor: from n·a <= (n - 1)·(n·v) follows a <= (n - 1)·v. */
  lemma {:induction false} DivideByLength(n: real, a: real, v: real, sq: real)
    requires n > 0.0 && n * a <= (n - 1.0) * sq && n * v == sq
    ensures a <= (n - 1.0) * v
  {
    assert n * ((n - 1.0) * v) == (n - 1.0) * sq;
    CancelPositiveFactor(n, a, (n - 1.0) * v);
  }

  /** A product with a zero factor is zero. */
  lemma {:induction false} ZeroFactor(a: real, z: real)
    requires z == 0.0
    ensures a * z == 0.0
  {
  }

  /** The term of sample j in the helper sum: with p = n - 1 and q = y - m,
      (p·(y - m) + q)² = n²·q². */
  lemma {:induction false} ShiftedSquareOfOwnDeviation(n: real, y: real, m: real, p: real, q: real, qq: real)
    requires p == n - 1.0 && q == y - m && qq == q * q
    ensures ShiftedSquare(y, m, p, q) == n * n * qq
  {
    assert p * (y - m) + q == n * q;
  }

  /** Cancelling the common factor p = n - 1 > 0 in n²·q² <= p²·sq + n·q². */
  lemma {:induction false} CancelShift(n: real, p: real, pp: real, sq: real, qq: real, total: real)
    requires p == n - 1.0 && p > 0.0 && pp == p * p
    requires total == pp * sq + n * qq && n * n * qq <= total
    ensures n * qq <= p * sq
  {
    assert p * (n * qq) == n * n * qq - n * qq;
    CancelPositiveFactor(p, n * qq, p * sq);
  }

  /** The arithmetic of Samuelson's inequality: with p = n - 1 and q = y - m, the
      expansion, the bound by the term of y, and Σ (y_i - m) = 0 give
      n·(y - m)² <= (n - 1)·sq, that is (y - m)² <= (n - 1)·v for sq = n·v. */
  lemma {:induction false} SamuelsonStep(n: real, sq: real, v: real, y: real, m: real, sum: real, total: real,
                                         p: real, q: real, pp: real, pq: real, qq: real)
    requires n > 1.0 && n * m == sum && n * v == sq && p == n - 1.0 && q == y - m
    requires pp == p * p && pq == 2.0 * p * q && qq == q * q
    requires total == pp * sq + pq * (sum - n * m) + n * qq
    requires ShiftedSquare(y, m, p, q) <= total
    ensures Square(y - m) <= (n - 1.0) * v
  {
    ZeroFactor(pq, sum - n * m);
    ShiftedSquareOfOwnDeviation(n, y, m, p, q, qq);
    CancelShift(n, p, pp, sq, qq, total);
    assert Square(y - m) == qq;
    DivideByLength(n, qq, v, sq);
  }

  /** The history's length times its mean is its sum. */
  lemma {:induction false} LengthTimesMean(s: seq<Sample>, n: real, mu: real)
    requires |s| > 0 && n == |s| as real && mu == Mean(s).value
    ensures n * mu == Sum(s)
  {
  }

  /** The history's length times its variance is its sum of squared deviations. */
  lemma {:induction false} LengthTimesVariance(s: seq<Sample>, n: real, mu: real, v: real)
    requires |s| > 0 && n == |s| as real && mu == Mean(s).value && v == Variance(s, Mean(s)).value
    ensures n * v == SquaredDeviationSum(s, mu)
  {
  }

  /** DeviationBound for a history of at least two samples. */
  lemma {:induction false} ManySampleDeviationBound(s: seq<Sample>, j: nat, n: real, mu: real, v: real)
    requires 1 < |s| && j < |s| && n == |s| as real
    requires n * mu == Sum(s) && n * v == SquaredDeviationSum(s, mu)
    ensures Square(s[j].emissions - mu) <= (n - 1.0) * v
  {
    var p := n - 1.0;
    var q := s[j].emissions - mu;
    var pp, pq, qq := p * p, 2.0 * p * q, q * q;
    var total, sq, sum := ShiftedSquareSumExpands(s, n, mu, p, q, pp, pq, qq);
    ShiftedSquareSumAtLeastTerm(s, mu, p, q, j);
    SamuelsonStep(n, sq, v, s[j].emissions, mu, sum, total, p, q, pp, pq, qq);
  }

  /** DeviationBound for a one-sample history, which lies on its mean. */
  lemma {:induction false} SingletonDeviationBound(s: seq<Sample>, j: nat, n: real, mu: real, v: real)
    requires |s| == 1 && j < |s| && n == |s| as real
    requires n * mu == Sum(s) && n * v == SquaredDeviationSum(s, mu)
    ensures Square(s[j].emissions - mu) <= (n - 1.0) * v
  {
    assert s[..0] == [];
    assert Sum(s) == s[0].emissions;
    assert n == 1.0;
    assert s[j].emissions - mu == 0.0;
    assert Square(s[j].emissions - mu) == 0.0;
  }

  /** Samuelson's inequality: no sample lies further than sqrt(n - 1) population
      standard deviations from the mean. For μ = Σ y_i / n and σ² = Σ (y_i - μ)² / n,
      every sample satisfies (y_j - μ)² <= (n - 1)·σ². */
  lemma {:induction false} DeviationBound(s: seq<Sample>, j: nat, n: real, mu: real, v: real)
    requires j < |s| && n == |s| as real
    requires n * mu == Sum(s) && n * v == SquaredDeviationSum(s, mu)
    ensures Square(s[j].emissions - mu) <= (n - 1.0) * v
  {
    if |s| == 1 {
      SingletonDeviationBound(s, j, n, mu, v);
    } else {
      ManySampleDeviationBound(s, j, n, mu, v);
    }
  }
}
