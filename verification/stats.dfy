/** `statistics.mean` and `statistics.stdev` on exact reals. The standard
    deviation itself is never computed: every comparison the classifier makes
    with it is restated on the sample variance, its square. */
module Stats {

  function Sum(xs: seq<real>): real {
    if |xs| == 0 then 0.0 else Sum(xs[..|xs| - 1]) + xs[|xs| - 1]
  }

  /** `statistics.mean`, defined for at least one reading. */
  function Mean(xs: seq<real>): real
    requires |xs| > 0
  {
    Sum(xs) / |xs| as real
  }

  /** The sum of squared distances of the readings from `m`. */
  function SquaredDeviations(xs: seq<real>, m: real): (r: real)
    ensures r >= 0.0
  {
    if |xs| == 0 then 0.0
    else
      var d := xs[|xs| - 1] - m;
      SquaredDeviations(xs[..|xs| - 1], m) + d * d
  }

  /** The sample variance, whose square root is `statistics.stdev`; both
      need at least two readings. */
  function Variance(xs: seq<real>): (v: real)
    requires |xs| >= 2
    ensures v >= 0.0
  {
    SquaredDeviations(xs, Mean(xs)) / (|xs| - 1) as real
  }

  /** "The standard deviation is below `k`", stated on the variance. */
  predicate StdevBelow(variance: real, k: real) {
    k > 0.0 && variance < k * k
  }

  /** For any non-negative `s` whose square is the variance, `s < k` is
      exactly `StdevBelow(variance, k)`; so the classifier may compare the
      variance with squared thresholds instead of taking a square root. */
  lemma StdevBelowIsExact(s: real, variance: real, k: real)
    requires s >= 0.0 && s * s == variance
    ensures s < k <==> StdevBelow(variance, k)
  {
    if s < k {
      SquareStrict(s, k);
    } else if k > 0.0 {
      SquareMonotone(k, s);
    }
  }

  lemma SquareNonNegative(x: real)
    ensures x * x >= 0.0
  {
  }

  lemma SquareMonotone(s: real, k: real)
    requires 0.0 <= s <= k
    ensures s * s <= k * k
  {
  }

  lemma DifferenceOfSquares(s: real, k: real)
    ensures (k - s) * (k + s) == k * k - s * s
  {
  }

  lemma ProductZero(x: real, y: real)
    requires x * y == 0.0
    ensures x == 0.0 || y == 0.0
  {
  }

  lemma SquareZero(x: real)
    requires x * x == 0.0
    ensures x == 0.0
  {
    ProductZero(x, x);
  }

  /** Squaring is strictly monotone on the non-negative reals. */
  lemma SquareStrict(s: real, k: real)
    requires 0.0 <= s < k
    ensures s * s < k * k
  {
    SquareMonotone(s, k);
    if s * s == k * k {
      DifferenceOfSquares(s, k);
      ProductZero(k - s, k + s);
    }
  }

  lemma {:induction false} SumBounds(xs: seq<real>, lo: real, hi: real)
    requires forall i :: 0 <= i < |xs| ==> lo <= xs[i] <= hi
    ensures |xs| as real * lo <= Sum(xs) <= |xs| as real * hi
    decreases |xs|
  {
    if |xs| > 0 {
      var n := |xs| as real;
      SumBounds(xs[..|xs| - 1], lo, hi);
      assert |xs[..|xs| - 1]| as real == n - 1.0;
      assert n * lo == (n - 1.0) * lo + lo;
      assert n * hi == (n - 1.0) * hi + hi;
    }
  }

  /** The mean lies between any lower and upper bound of the readings. */
  lemma MeanBounds(xs: seq<real>, lo: real, hi: real)
    requires |xs| > 0
    requires forall i :: 0 <= i < |xs| ==> lo <= xs[i] <= hi
    ensures lo <= Mean(xs) <= hi
  {
    SumBounds(xs, lo, hi);
    var n := |xs| as real;
    assert Sum(xs) / n >= (n * lo) / n;
    assert Sum(xs) / n <= (n * hi) / n;
  }

  lemma {:induction false} NoDeviationMeansAllEqual(xs: seq<real>, m: real)
    requires SquaredDeviations(xs, m) == 0.0
    ensures forall i :: 0 <= i < |xs| ==> xs[i] == m
    decreases |xs|
  {
    if |xs| > 0 {
      var d := xs[|xs| - 1] - m;
      var rest := SquaredDeviations(xs[..|xs| - 1], m);
      assert SquaredDeviations(xs, m) == rest + d * d;
      assert rest >= 0.0;
      NoDeviationMeansAllEqual(xs[..|xs| - 1], m);
      SquareNonNegative(d);
      assert d * d == 0.0;
      SquareZero(d);
      assert forall i :: 0 <= i < |xs| - 1 ==> xs[i] == xs[..|xs| - 1][i];
    }
  }

  lemma {:induction false} AllEqualHasNoDeviation(xs: seq<real>, m: real)
    requires forall i :: 0 <= i < |xs| ==> xs[i] == m
    ensures SquaredDeviations(xs, m) == 0.0
    decreases |xs|
  {
    if |xs| > 0 {
      AllEqualHasNoDeviation(xs[..|xs| - 1], m);
    }
  }

  /** The variance is zero exactly when every reading is the same. */
  lemma VarianceZeroIffConstant(xs: seq<real>)
    requires |xs| >= 2
    ensures Variance(xs) == 0.0 <==> forall i :: 0 <= i < |xs| ==> xs[i] == xs[0]
  {
    var n := (|xs| - 1) as real;
    if Variance(xs) == 0.0 {
      assert SquaredDeviations(xs, Mean(xs)) == Variance(xs) * n;
      NoDeviationMeansAllEqual(xs, Mean(xs));
    }
    if forall i :: 0 <= i < |xs| ==> xs[i] == xs[0] {
      MeanBounds(xs, xs[0], xs[0]);
      AllEqualHasNoDeviation(xs, xs[0]);
    }
  }
}
