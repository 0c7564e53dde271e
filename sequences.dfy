/** Arithmetic over finite sequences shared by the fairness measures: sums (plain and
    of a function of each element), means, dot products, element-wise division, and
    the least and greatest element of a sequence. All values are exact reals,
    so no rounding is modelled. */
module Sequences {

  function Abs(x: real): (r: real)
    ensures 0.0 <= r && (r == x || r == -x)
  {
    if x < 0.0 then -x else x
  }

  /** f(s[0]) + f(s[1]) + ... + f(s[|s| - 1]) */
  function SumBy(s: seq<real>, f: real -> real): real
  {
    if s == [] then 0.0 else f(s[0]) + SumBy(s[1..], f)
  }

  function Identity(): (f: real -> real)
    ensures forall v :: f(v) == v
  {
    v => v
  }

  /** v ↦ c · v + d */
  function Affine(c: real, d: real): (f: real -> real)
    ensures forall v :: f(v) == c * v + d
  {
    v => c * v + d
  }

  /** s[0] + ... + s[|s| - 1], what Python's sum and numpy's sum compute on exact values */
  function Sum(s: seq<real>): real
  {
    SumBy(s, Identity())
  }

  /** numpy's mean of a non-empty array */
  function Mean(s: seq<real>): real
    requires s != []
  {
    Sum(s) / |s| as real
  }

  lemma {:induction false} SumByAppend(a: seq<real>, b: seq<real>, f: real -> real)
    ensures SumBy(a + b, f) == SumBy(a, f) + SumBy(b, f)
  {
    if a == [] {
      assert a + b == b;
    } else {
      assert (a + b)[1..] == a[1..] + b;
      SumByAppend(a[1..], b, f);
    }
  }

  /** Taking s[k] out of a sum leaves the sum of the rest. */
  lemma {:induction false} SumByRemove(s: seq<real>, k: int, f: real -> real)
    requires 0 <= k < |s|
    ensures SumBy(s, f) == f(s[k]) + SumBy(s[..k] + s[k + 1..], f)
  {
    var left, right := s[..k], s[k + 1..];
    assert s == left + ([s[k]] + right);
    assert ([s[k]] + right)[1..] == right;
    SumByAppend(left, [s[k]] + right, f);
    SumByAppend(left, right, f);
  }

  /** Removing one occurrence of an element from two equal multisets of sequences. */
  lemma {:induction false} MultisetRemove(a: seq<real>, b: seq<real>, k: int)
    requires multiset(a) == multiset(b) && a != [] && 0 <= k < |b| && b[k] == a[0]
    ensures multiset(a[1..]) == multiset(b[..k] + b[k + 1..])
  {
    assert a == [a[0]] + a[1..];
    assert b == b[..k] + [b[k]] + b[k + 1..];
    assert multiset(a[1..]) == multiset(a) - multiset{a[0]};
    assert multiset(b[..k] + b[k + 1..]) == multiset(b) - multiset{b[k]};
  }

  /** A sum over a sequence does not depend on the order of its elements. */
  lemma {:induction false} SumByPermutation(a: seq<real>, b: seq<real>, f: real -> real)
    requires multiset(a) == multiset(b)
    ensures SumBy(a, f) == SumBy(b, f)
    decreases |a|
  {
    if a == [] {
      assert |b| == |multiset(b)| == 0;
    } else {
      assert a[0] in multiset(b);
      var k :| 0 <= k < |b| && b[k] == a[0];
      MultisetRemove(a, b, k);
      SumByRemove(b, k, f);
      SumByPermutation(a[1..], b[..k] + b[k + 1..], f);
    }
  }

  lemma {:induction false} SumByMonotone(s: seq<real>, f: real -> real, g: real -> real)
    requires forall i :: 0 <= i < |s| ==> f(s[i]) <= g(s[i])
    ensures SumBy(s, f) <= SumBy(s, g)
  {
    if s != [] {
      SumByMonotone(s[1..], f, g);
    }
  }

  lemma {:induction false} SumByNonNegative(s: seq<real>, f: real -> real)
    requires forall i :: 0 <= i < |s| ==> 0.0 <= f(s[i])
    ensures 0.0 <= SumBy(s, f)
  {
    if s != [] {
      SumByNonNegative(s[1..], f);
    }
  }

  /** Summing c * v + d over the elements v gives c times their sum plus |s| times d. */
  lemma {:induction false} SumByAffine(s: seq<real>, f: real -> real, c: real, d: real)
    requires forall i :: 0 <= i < |s| ==> f(s[i]) == c * s[i] + d
    ensures SumBy(s, f) == c * Sum(s) + |s| as real * d
  {
    if s != [] {
      SumByAffine(s[1..], f, c, d);
      assert Sum(s) == s[0] + Sum(s[1..]);
      assert c * Sum(s) == c * s[0] + c * Sum(s[1..]);
    }
  }

  /** Summing an affine map c · v + d over s */
  lemma {:induction false} SumAffine(s: seq<real>, c: real, d: real)
    ensures SumBy(s, Affine(c, d)) == c * Sum(s) + |s| as real * d
  {
    SumByAffine(s, Affine(c, d), c, d);
  }

  /** A sum of values that all lie in [lo, hi] lies in [|s| * lo, |s| * hi]. */
  lemma {:induction false} SumBounds(s: seq<real>, lo: real, hi: real)
    requires forall i :: 0 <= i < |s| ==> lo <= s[i] <= hi
    ensures |s| as real * lo <= Sum(s) <= |s| as real * hi
  {
    if s != [] {
      SumBounds(s[1..], lo, hi);
      assert Sum(s) == s[0] + Sum(s[1..]);
    }
  }

  /** A mean of values that all lie in [lo, hi] lies in [lo, hi]. */
  lemma {:induction false} MeanBounds(s: seq<real>, lo: real, hi: real)
    requires s != []
    requires forall i :: 0 <= i < |s| ==> lo <= s[i] <= hi
    ensures lo <= Mean(s) <= hi
  {
    SumBounds(s, lo, hi);
    var n := |s| as real;
    assert Mean(s) * n == Sum(s);
  }

  /** Adding w to one element adds w to the sum. */
  lemma {:induction false} SumUpdate(s: seq<real>, k: int, w: real)
    requires 0 <= k < |s|
    ensures Sum(s[k := s[k] + w]) == Sum(s) + w
  {
    var t := s[k := s[k] + w];
    assert Sum(t) == t[0] + Sum(t[1..]);
    assert Sum(s) == s[0] + Sum(s[1..]);
    if k == 0 {
      assert t[1..] == s[1..];
    } else {
      assert t[1..] == s[1..][k - 1 := s[k] + w];
      SumUpdate(s[1..], k - 1, w);
    }
  }

  /** numpy's element-wise division of an array by a scalar */
  function DivideBy(s: seq<real>, d: real): (r: seq<real>)
    requires d != 0.0
    ensures |r| == |s|
  {
    seq(|s|, i requires 0 <= i < |s| => s[i] / d)
  }

  lemma {:induction false} SumDivide(s: seq<real>, d: real)
    requires d != 0.0
    ensures Sum(DivideBy(s, d)) == Sum(s) / d
  {
    var t := DivideBy(s, d);
    if s != [] {
      assert t[1..] == DivideBy(s[1..], d);
      SumDivide(s[1..], d);
      assert Sum(t) == t[0] + Sum(t[1..]);
      assert Sum(s) == s[0] + Sum(s[1..]);
      assert s[0] / d + Sum(s[1..]) / d == (s[0] + Sum(s[1..])) / d;
    }
  }

  /** numpy's dot product of two vectors of the same length */
  function Dot(a: seq<real>, b: seq<real>): real
    requires |a| == |b|
  {
    if a == [] then 0.0 else a[0] * b[0] + Dot(a[1..], b[1..])
  }

  lemma {:induction false} DotZero(a: seq<real>, b: seq<real>)
    requires |a| == |b|
    requires forall i :: 0 <= i < |b| ==> b[i] == 0.0
    ensures Dot(a, b) == 0.0
  {
    if a != [] {
      DotZero(a[1..], b[1..]);
    }
  }

  /** Adding w to b[k] adds a[k] * w to the dot product. */
  lemma {:induction false} DotUpdate(a: seq<real>, b: seq<real>, k: int, w: real)
    requires |a| == |b| && 0 <= k < |b|
    ensures Dot(a, b[k := b[k] + w]) == Dot(a, b) + a[k] * w
  {
    var t := b[k := b[k] + w];
    if k == 0 {
      assert t[1..] == b[1..];
      assert a[0] * t[0] == a[0] * b[0] + a[0] * w;
    } else {
      assert t[1..] == b[1..][k - 1 := b[k] + w];
      DotUpdate(a[1..], b[1..], k - 1, w);
    }
  }

  lemma {:induction false} DotDivide(a: seq<real>, b: seq<real>, d: real)
    requires |a| == |b| && d != 0.0
    ensures Dot(a, DivideBy(b, d)) == Dot(a, b) / d
  {
    if a != [] {
      var t := DivideBy(b, d);
      DivideByTail(b, d);
      DotDivide(a[1..], b[1..], d);
      DivideStep(a[0], b[0], d, Dot(a[1..], b[1..]), t[0], Dot(a[1..], t[1..]), Dot(a, t), Dot(a, b));
    }
  }

  /** The head and the tail of an element-wise division */
  lemma DivideByTail(b: seq<real>, d: real)
    requires b != [] && d != 0.0
    ensures DivideBy(b, d)[0] == b[0] / d
    ensures DivideBy(b, d)[1..] == DivideBy(b[1..], d)
  {
  }

  /** One step of dividing a dot product by d */
  lemma DivideStep(a0: real, b0: real, d: real, rest: real, t0: real, restT: real, dotT: real, dot: real)
    requires d != 0.0 && t0 == b0 / d && restT == rest / d
    requires dotT == a0 * t0 + restT && dot == a0 * b0 + rest
    ensures dotT == dot / d
  {
    assert a0 * (b0 / d) == (a0 * b0) / d;
  }

  /** Appending one pair of entries adds their product to the dot product. */
  lemma {:induction false} DotAppend(a: seq<real>, b: seq<real>, x: real, y: real)
    requires |a| == |b|
    ensures Dot(a + [x], b + [y]) == Dot(a, b) + x * y
  {
    if a == [] {
      assert a + [x] == [x] && b + [y] == [y];
    } else {
      assert (a + [x])[1..] == a[1..] + [x];
      assert (b + [y])[1..] == b[1..] + [y];
      DotAppend(a[1..], b[1..], x, y);
    }
  }

  /** Adding w to entry v of b where a has the value x, in a dot product equal to
      Dot(c, d), matches appending x and w to c and d. */
  lemma {:induction false} DotUpdateAppend(a: seq<real>, b: seq<real>, v: int, w: real,
                                           c: seq<real>, d: seq<real>, x: real)
    requires |a| == |b| && 0 <= v < |a| && |c| == |d|
    requires Dot(a, b) == Dot(c, d) && a[v] == x
    ensures Dot(a, b[v := b[v] + w]) == Dot(c + [x], d + [w])
  {
    DotUpdate(a, b, v, w);
    DotAppend(c, d, x, w);
  }

  /** A sum of non-negative values is positive exactly when one of them is. */
  lemma {:induction false} SumPositive(s: seq<real>)
    requires forall i :: 0 <= i < |s| ==> 0.0 <= s[i]
    ensures 0.0 <= Sum(s)
    ensures 0.0 < Sum(s) <==> exists i :: 0 <= i < |s| && 0.0 < s[i]
  {
    if s != [] {
      SumPositive(s[1..]);
      assert Sum(s) == s[0] + Sum(s[1..]);
      if exists i :: 0 <= i < |s[1..]| && 0.0 < s[1..][i] {
        var i :| 0 <= i < |s[1..]| && 0.0 < s[1..][i];
        assert 0.0 < s[i + 1];
      }
      if exists i :: 0 <= i < |s| && 0.0 < s[i] {
        var i :| 0 <= i < |s| && 0.0 < s[i];
        if 0 < i {
          assert 0.0 < s[1..][i - 1];
        }
      }
    }
  }

  /** One step of a weighted lower bound: lo · (w0 + s) <= a0 · w0 + d when
      lo · s <= d, w0 >= 0 and lo <= a0 wherever w0 > 0. */
  lemma LowerStep(a0: real, w0: real, lo: real, s: real, d: real, total: real, dot: real)
    requires 0.0 <= w0 && (0.0 < w0 ==> lo <= a0) && lo * s <= d
    requires total == w0 + s && dot == a0 * w0 + d
    ensures lo * total <= dot
  {
    assert lo * total == lo * w0 + lo * s;
    if 0.0 < w0 {
      assert lo * w0 <= a0 * w0;
    }
  }

  /** One step of a weighted upper bound, symmetric to LowerStep */
  lemma UpperStep(a0: real, w0: real, hi: real, s: real, d: real, total: real, dot: real)
    requires 0.0 <= w0 && (0.0 < w0 ==> a0 <= hi) && d <= hi * s
    requires total == w0 + s && dot == a0 * w0 + d
    ensures dot <= hi * total
  {
    assert hi * total == hi * w0 + hi * s;
    if 0.0 < w0 {
      assert a0 * w0 <= hi * w0;
    }
  }

  /** The first entry of a non-empty sum */
  lemma SumHead(s: seq<real>)
    requires s != []
    ensures Sum(s) == s[0] + Sum(s[1..])
  {
  }

  /** A dot product with non-negative weights w is at least lo times the total weight
      when every entry with a positive weight is at least lo. */
  lemma {:induction false} DotLowerBound(a: seq<real>, w: seq<real>, lo: real)
    requires |a| == |w|
    requires forall i :: 0 <= i < |w| ==> 0.0 <= w[i] && (0.0 < w[i] ==> lo <= a[i])
    ensures lo * Sum(w) <= Dot(a, w)
  {
    if a != [] {
      DotLowerBound(a[1..], w[1..], lo);
      SumHead(w);
      LowerStep(a[0], w[0], lo, Sum(w[1..]), Dot(a[1..], w[1..]), Sum(w), Dot(a, w));
    }
  }

  /** A dot product with non-negative weights w is at most hi times the total weight
      when every entry with a positive weight is at most hi. */
  lemma {:induction false} DotUpperBound(a: seq<real>, w: seq<real>, hi: real)
    requires |a| == |w|
    requires forall i :: 0 <= i < |w| ==> 0.0 <= w[i] && (0.0 < w[i] ==> a[i] <= hi)
    ensures Dot(a, w) <= hi * Sum(w)
  {
    if a != [] {
      DotUpperBound(a[1..], w[1..], hi);
      SumHead(w);
      UpperStep(a[0], w[0], hi, Sum(w[1..]), Dot(a[1..], w[1..]), Sum(w), Dot(a, w));
    }
  }

  /** m / w lies in [lo, hi] when lo · w <= m <= hi · w and w is positive. */
  lemma {:induction false} QuotientBounds(m: real, w: real, lo: real, hi: real)
    requires 0.0 < w && lo * w <= m <= hi * w
    ensures lo <= m / w <= hi
  {
    assert lo == lo * w / w && hi == hi * w / w;
  }

  /** A mean of the entries of a weighted by non-negative weights w lies within any
      bounds on the entries that carry a positive weight. */
  lemma {:induction false} WeightedMeanBounds(a: seq<real>, w: seq<real>, lo: real, hi: real)
    requires |a| == |w| && 0.0 < Sum(w)
    requires forall i :: 0 <= i < |w| ==> 0.0 <= w[i] && (0.0 < w[i] ==> lo <= a[i] <= hi)
    ensures lo <= Dot(a, w) / Sum(w) <= hi
  {
    assert lo * Sum(w) <= Dot(a, w) by {
      DotLowerBound(a, w, lo);
    }
    assert Dot(a, w) <= hi * Sum(w) by {
      DotUpperBound(a, w, hi);
    }
    QuotientBounds(Dot(a, w), Sum(w), lo, hi);
  }

  /** SumBy over a two-element sequence, for worked examples */
  lemma {:induction false} SumByTwo(x: real, y: real, f: real -> real)
    ensures SumBy([x, y], f) == f(x) + f(y)
  {
    assert [y][1..] == [];
    assert SumBy([y], f) == f(y) + SumBy([], f);
    assert [x, y][1..] == [y];
  }

  /** SumBy over a three-element sequence, for worked examples */
  lemma {:induction false} SumByThree(x: real, y: real, z: real, f: real -> real)
    ensures SumBy([x, y, z], f) == f(x) + f(y) + f(z)
  {
    SumByTwo(y, z, f);
    assert [x, y, z][1..] == [y, z];
  }

  /** The sum of four consecutive pieces, for worked examples */
  lemma {:induction false} SumFour(a: seq<real>, b: seq<real>, c: seq<real>, d: seq<real>)
    ensures Sum(a + b + c + d) == Sum(a) + Sum(b) + Sum(c) + Sum(d)
  {
    SumByAppend(a + b + c, d, Identity());
    SumByAppend(a + b, c, Identity());
    SumByAppend(a, b, Identity());
  }

  /** The sum of a three-element sequence, for worked examples */
  lemma {:induction false} SumThree(x: real, y: real, z: real)
    ensures Sum([x, y, z]) == x + y + z
  {
    SumByThree(x, y, z, Identity());
  }

  /** The dot product of two three-element sequences, for worked examples */
  lemma {:induction false} DotThree(a0: real, a1: real, a2: real, w0: real, w1: real, w2: real)
    ensures Dot([a0, a1, a2], [w0, w1, w2]) == a0 * w0 + a1 * w1 + a2 * w2
  {
    assert [a2][1..] == [] && [w2][1..] == [];
    assert Dot([a2], [w2]) == a2 * w2;
    assert [a1, a2][1..] == [a2] && [w1, w2][1..] == [w2];
    assert Dot([a1, a2], [w1, w2]) == a1 * w1 + a2 * w2;
    assert [a0, a1, a2][1..] == [a1, a2] && [w0, w1, w2][1..] == [w1, w2];
  }

  /** Python's min of a non-empty sequence of integers */
  function Smallest(s: seq<int>): int
    requires s != []
  {
    if |s| == 1 then s[0]
    else
      var m := Smallest(s[1..]);
      if s[0] <= m then s[0] else m
  }

  /** Python's max of a non-empty sequence of integers */
  function Largest(s: seq<int>): int
    requires s != []
  {
    if |s| == 1 then s[0]
    else
      var m := Largest(s[1..]);
      if s[0] >= m then s[0] else m
  }

  /** The minimum is an element, and no element is below it. */
  lemma {:induction false} SmallestIs(s: seq<int>)
    requires s != []
    ensures Smallest(s) in s
    ensures forall i :: 0 <= i < |s| ==> Smallest(s) <= s[i]
  {
    if |s| > 1 {
      SmallestIs(s[1..]);
      assert forall i :: 1 <= i < |s| ==> s[i] == s[1..][i - 1];
    }
  }

  /** The maximum is an element, and no element is above it. */
  lemma {:induction false} LargestIs(s: seq<int>)
    requires s != []
    ensures Largest(s) in s
    ensures forall i :: 0 <= i < |s| ==> s[i] <= Largest(s)
  {
    if |s| > 1 {
      LargestIs(s[1..]);
      assert forall i :: 1 <= i < |s| ==> s[i] == s[1..][i - 1];
    }
  }

  /** An element no other element is below is the minimum. */
  lemma {:induction false} SmallestOf(s: seq<int>, m: int)
    requires m in s && forall x :: x in s ==> m <= x
    ensures Smallest(s) == m
  {
    SmallestIs(s);
  }

  /** An element no other element is above is the maximum. */
  lemma {:induction false} LargestOf(s: seq<int>, m: int)
    requires m in s && forall x :: x in s ==> x <= m
    ensures Largest(s) == m
  {
    LargestIs(s);
  }

  /** Python's min of a non-empty list of reals */
  function SmallestReal(s: seq<real>): real
    requires s != []
  {
    if |s| == 1 then s[0]
    else
      var m := SmallestReal(s[1..]);
      if s[0] <= m then s[0] else m
  }

  /** Python's max of a non-empty list of reals */
  function LargestReal(s: seq<real>): real
    requires s != []
  {
    if |s| == 1 then s[0]
    else
      var m := LargestReal(s[1..]);
      if s[0] >= m then s[0] else m
  }

  /** The minimum is an element, and no element is below it. */
  lemma {:induction false} SmallestRealIs(s: seq<real>)
    requires s != []
    ensures SmallestReal(s) in s
    ensures forall i :: 0 <= i < |s| ==> SmallestReal(s) <= s[i]
  {
    if |s| > 1 {
      SmallestRealIs(s[1..]);
      assert forall i :: 1 <= i < |s| ==> s[i] == s[1..][i - 1];
    }
  }

  /** The maximum is an element, and no element is above it. */
  lemma {:induction false} LargestRealIs(s: seq<real>)
    requires s != []
    ensures LargestReal(s) in s
    ensures forall i :: 0 <= i < |s| ==> s[i] <= LargestReal(s)
  {
    if |s| > 1 {
      LargestRealIs(s[1..]);
      assert forall i :: 1 <= i < |s| ==> s[i] == s[1..][i - 1];
    }
  }

  /** When s[i] is the least and s[j] the greatest element, max − min is s[j] − s[i]. */
  lemma {:induction false} SpreadOfExtremes(s: seq<real>, i: int, j: int)
    requires 0 <= i < |s| && 0 <= j < |s|
    requires forall k :: 0 <= k < |s| ==> s[i] <= s[k] <= s[j]
    ensures LargestReal(s) - SmallestReal(s) == s[j] - s[i]
  {
    SmallestRealIs(s);
    LargestRealIs(s);
  }

  /** A part of a positive whole is a share in [0, 1]. */
  lemma QuotientUnit(part: real, whole: real)
    requires 0.0 <= part <= whole && 0.0 < whole
    ensures 0.0 <= part / whole <= 1.0
    ensures part / whole * whole == part
  {
    var q := part / whole;
    assert q * whole == part;
    assert (1.0 - q) * whole == whole - part;
  }

  lemma QuotientMonotone(a: real, b: real, d: real)
    requires a <= b && 0.0 < d
    ensures a / d <= b / d
  {
  }

}
