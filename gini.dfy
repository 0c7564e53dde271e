/** The bias-corrected Gini coefficient of a list of descriptive quality scores, one
    score (a mean or a median, say) per demographic group. 0 means perfect equality. */
module GiniMeasure {
  import opened Outcomes
  import opened Sequences

  /** y ↦ |a − y| */
  function DistanceFrom(a: real): (f: real -> real)
    ensures forall y :: f(y) == Abs(a - y)
  {
    y => Abs(a - y)
  }

  /** Σ_j |a − ys[j]|: one row of the table of pairwise absolute differences */
  function RowDistance(a: real, ys: seq<real>): real
  {
    SumBy(ys, DistanceFrom(a))
  }

  function RowsOf(ys: seq<real>): (f: real -> real)
    ensures forall a :: f(a) == RowDistance(a, ys)
  {
    a => RowDistance(a, ys)
  }

  /** Σ_i Σ_j |x[i] − x[j]| over all ordered pairs (i, j), the pairs with i = j included */
  function Numerator(x: seq<real>): real
  {
    SumBy(x, RowsOf(x))
  }

  /** 2 · n² · mean(x), which is 2 · n · sum(x) */
  function Denominator(x: seq<real>): (d: real)
    requires x != []
    ensures d == 2.0 * |x| as real * Sum(x)
  {
    var n := |x| as real;
    assert n * (Sum(x) / n) == Sum(x);
    2.0 * (|x| * |x|) as real * Mean(x)
  }

  /** The raw coefficient times the small-sample correction n / (n − 1) simplifies to
      numerator / (2 · (n − 1) · sum(x)). */
  lemma {:induction false} CorrectedRatio(numerator: real, sum: real, n: int)
    requires n > 1 && sum != 0.0
    ensures (numerator / (2.0 * n as real * sum)) * (n as real / (n - 1) as real)
            == numerator / (2.0 * (n - 1) as real * sum)
  {
    var m, m1 := n as real, (n - 1) as real;
    var a, b := 2.0 * m * sum, 2.0 * m1 * sum;
    assert (numerator / a) * (m / m1) == (numerator * m) / (a * m1);
    assert a * m1 == b * m;
    assert (numerator * m) / (b * m) == numerator / b;
  }

  /** Rejects fewer than two scores and a zero denominator; otherwise the bias-corrected
      coefficient, here in its simplified closed form. */
  function GiniCoefficient(x: seq<real>): (r: Result<real>)
    ensures |x| <= 1 ==> r == Err(ValueError)
    ensures |x| > 1 && Sum(x) == 0.0 ==> r == Err(ZeroDivisionError)
    ensures |x| > 1 && Sum(x) != 0.0 ==>
              r == Ok(Numerator(x) / (2.0 * (|x| - 1) as real * Sum(x)))
  {
    var n := |x|;
    if n <= 1 then Err(ValueError)
    else
      var numerator := Numerator(x);
      var denominator := Denominator(x);
      assert denominator / (2.0 * n as real) == Sum(x);
      if denominator == 0.0 then Err(ZeroDivisionError)
      else
        var gc := numerator / denominator;
        var correction := n as real / (n - 1) as real;
        CorrectedRatio(numerator, Sum(x), n);
        var coefficient := gc * correction;
        assert coefficient == Numerator(x) / (2.0 * (|x| - 1) as real * Sum(x));
        Ok(coefficient)
  }

  lemma {:induction false} RowDistanceNonNegative(a: real, ys: seq<real>)
    ensures 0.0 <= RowDistance(a, ys)
  {
    SumByNonNegative(ys, DistanceFrom(a));
  }

  /** Every term |x[i] − x[j]| is non-negative, so the numerator is. */
  lemma {:induction false} NumeratorNonNegative(x: seq<real>)
    ensures 0.0 <= Numerator(x)
  {
    forall i | 0 <= i < |x|
      ensures 0.0 <= RowsOf(x)(x[i])
    {
      RowDistanceNonNegative(x[i], x);
    }
    SumByNonNegative(x, RowsOf(x));
  }

  /** Equal scores have no pairwise differences: the coefficient is 0, unless they are
      all 0 and the denominator vanishes. */
  lemma {:induction false} GiniAllEqual(x: seq<real>, c: real)
    requires |x| > 1
    requires forall i :: 0 <= i < |x| ==> x[i] == c
    ensures Numerator(x) == 0.0
    ensures GiniCoefficient(x) == if c == 0.0 then Err(ZeroDivisionError) else Ok(0.0)
  {
    SumByAffine(x, DistanceFrom(c), 0.0, 0.0);
    assert RowDistance(c, x) == 0.0;
    SumByAffine(x, RowsOf(x), 0.0, 0.0);
    SumBounds(x, c, c);
    assert Sum(x) == |x| as real * c;
  }

  /** Reordering the scores does not change any row of differences. */
  lemma {:induction false} RowDistancePermutation(a: real, x: seq<real>, y: seq<real>)
    requires multiset(x) == multiset(y)
    ensures RowDistance(a, x) == RowDistance(a, y)
  {
    SumByPermutation(x, y, DistanceFrom(a));
  }

  /** The numerator ranges over all pairs, so it does not depend on the order of x. */
  lemma {:induction false} NumeratorPermutation(x: seq<real>, y: seq<real>)
    requires multiset(x) == multiset(y)
    ensures Numerator(x) == Numerator(y)
  {
    SumByPermutation(x, y, RowsOf(x));
    forall i | 0 <= i < |y|
      ensures RowsOf(x)(y[i]) == RowsOf(y)(y[i])
    {
      RowDistancePermutation(y[i], x, y);
    }
    SumByMonotone(y, RowsOf(x), RowsOf(y));
    SumByMonotone(y, RowsOf(y), RowsOf(x));
  }

  /** The coefficient does not depend on the order of the scores. */
  lemma {:induction false} GiniPermutation(x: seq<real>, y: seq<real>)
    requires multiset(x) == multiset(y)
    ensures GiniCoefficient(x) == GiniCoefficient(y)
  {
    assert |x| == |y| by {
      assert |x| == |multiset(x)| && |y| == |multiset(y)|;
    }
    SumByPermutation(x, y, Identity());
    assert Sum(x) == Sum(y);
    NumeratorPermutation(x, y);
    if |x| > 1 && Sum(x) != 0.0 {
      var dx, dy := 2.0 * (|x| - 1) as real * Sum(x), 2.0 * (|y| - 1) as real * Sum(y);
      assert GiniCoefficient(x) == Ok(Numerator(x) / dx);
      assert GiniCoefficient(y) == Ok(Numerator(y) / dy);
      assert dx == dy;
    }
  }

  /** Against non-negative scores, one row sums to at most |ys| · a + sum(ys),
      since |a − y| <= a + y. */
  lemma {:induction false} RowDistanceBound(a: real, ys: seq<real>)
    requires 0.0 <= a
    requires forall j :: 0 <= j < |ys| ==> 0.0 <= ys[j]
    ensures RowDistance(a, ys) <= |ys| as real * a + Sum(ys)
  {
    SumByMonotone(ys, DistanceFrom(a), Affine(1.0, a));
    SumAffine(ys, 1.0, a);
  }

  /** The row of ys[k] has a zero on the diagonal, which saves 2 · ys[k] on the bound. */
  lemma {:induction false} DiagonalRowBound(ys: seq<real>, k: int)
    requires 0 <= k < |ys|
    requires forall j :: 0 <= j < |ys| ==> 0.0 <= ys[j]
    ensures RowDistance(ys[k], ys) <= (|ys| as real - 2.0) * ys[k] + Sum(ys)
  {
    var a, rest := ys[k], ys[..k] + ys[k + 1..];
    SumByRemove(ys, k, DistanceFrom(a));
    SumByRemove(ys, k, Identity());
    assert forall j :: 0 <= j < |rest| ==> 0.0 <= rest[j] by {
      forall j | 0 <= j < |rest|
        ensures 0.0 <= rest[j]
      {
        if j < k {
          assert rest[j] == ys[j];
        } else {
          assert rest[j] == ys[j + 1];
        }
      }
    }
    RowDistanceBound(a, rest);
    DiagonalStep(|ys|, |rest|, a, RowDistance(a, rest), Sum(rest), Sum(ys));
  }

  /** The arithmetic closing the diagonal row bound */
  lemma DiagonalStep(n: int, m: int, a: real, row: real, restSum: real, sum: real)
    requires m + 1 == n && sum == restSum + a
    requires row <= m as real * a + restSum
    ensures row <= (n as real - 2.0) * a + sum
  {
    assert m as real * a == (n as real - 2.0) * a + a;
  }

  /** For non-negative scores the numerator is at most 2 · (n − 1) · sum(x). */
  lemma {:induction false} NumeratorBound(x: seq<real>)
    requires forall i :: 0 <= i < |x| ==> 0.0 <= x[i]
    ensures Numerator(x) <= 2.0 * (|x| - 1) as real * Sum(x)
  {
    var n, s := |x| as real, Sum(x);
    forall i | 0 <= i < |x|
      ensures RowsOf(x)(x[i]) <= Affine(n - 2.0, s)(x[i])
    {
      DiagonalRowBound(x, i);
    }
    SumByMonotone(x, RowsOf(x), Affine(n - 2.0, s));
    SumAffine(x, n - 2.0, s);
    DoubleRows(|x|, s);
  }

  /** The arithmetic closing the numerator bound */
  lemma DoubleRows(k: int, s: real)
    ensures (k as real - 2.0) * s + k as real * s == 2.0 * (k - 1) as real * s
  {
  }

  /** For non-negative scores the coefficient lies in [0, 1], so 1 − GC is the
      "higher is better" fairness ratio in [0, 1]. */
  lemma {:induction false} GiniUnitInterval(x: seq<real>)
    requires forall i :: 0 <= i < |x| ==> 0.0 <= x[i]
    ensures GiniCoefficient(x).Ok? ==> 0.0 <= GiniCoefficient(x).value <= 1.0
  {
    if |x| > 1 && Sum(x) != 0.0 {
      NumeratorNonNegative(x);
      NumeratorBound(x);
      SumByNonNegative(x, Identity());
      var d := 2.0 * (|x| - 1) as real * Sum(x);
      assert 0.0 < d;
      assert Numerator(x) / d <= d / d;
    }
  }

  /** Group means 35, 95 and 89: the rows of differences sum to 114, 66 and 60, so the
      numerator is 240; with sum 219 the coefficient is 240 / (2 · 2 · 219) = 20/73. */
  lemma {:induction false} GiniExample(x: seq<real>)
    requires x == [35.0, 95.0, 89.0]
    ensures GiniCoefficient(x) == Ok(20.0 / 73.0)
  {
    assert RowDistance(35.0, x) == 114.0 by {
      SumByThree(35.0, 95.0, 89.0, DistanceFrom(35.0));
    }
    assert RowDistance(95.0, x) == 66.0 by {
      SumByThree(35.0, 95.0, 89.0, DistanceFrom(95.0));
    }
    assert RowDistance(89.0, x) == 60.0 by {
      SumByThree(35.0, 95.0, 89.0, DistanceFrom(89.0));
    }
    assert Numerator(x) == 240.0 by {
      SumByThree(35.0, 95.0, 89.0, RowsOf(x));
    }
    assert Sum(x) == 219.0 by {
      SumThree(35.0, 95.0, 89.0);
    }
  }
}
