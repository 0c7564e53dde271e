/** The helpers of the Mean-Discard-Gap: the share of a group's scores that a discard
    threshold removes, the spread (max − min) of a list of such shares, and the guard
    that quality scores are integer-typed. */
module MdgUtils {
  import opened Outcomes
  import opened Sequences

  /** What a Python value is at run time: a numpy array or a plain list. */
  datatype Kind = NdArray | PyList

  /** The element type numpy gives the values: an integer dtype or a floating one. */
  datatype DType = IntegerDType | FloatDType

  /** A container of values as a helper receives it. For a plain list, `dtype` is the
      element type numpy infers when it converts the list to an array. The values
      themselves are exact. */
  datatype Container<T> = Container(kind: Kind, dtype: DType, items: seq<T>)

  /** How many scores lie strictly below the threshold t */
  function CountBelow(s: seq<int>, t: int): (n: nat)
    ensures n <= |s|
  {
    if s == [] then 0
    else (if s[0] < t then 1 else 0) + CountBelow(s[1..], t)
  }

  /** No score is discarded exactly when none lies below t, and all are exactly when
      all do. */
  lemma {:induction false} CountBelowExtremes(s: seq<int>, t: int)
    ensures CountBelow(s, t) == 0 <==> forall i :: 0 <= i < |s| ==> t <= s[i]
    ensures CountBelow(s, t) == |s| <==> forall i :: 0 <= i < |s| ==> s[i] < t
  {
    if s != [] {
      CountBelowExtremes(s[1..], t);
      assert forall i :: 1 <= i < |s| ==> s[i] == s[1..][i - 1];
    }
  }

  /** The share of a non-empty group that the threshold t discards */
  function DiscardRatio(s: seq<int>, t: int): (r: real)
    requires s != []
    ensures 0.0 <= r <= 1.0
    ensures r * |s| as real == CountBelow(s, t) as real
  {
    var count, n := CountBelow(s, t) as real, |s| as real;
    QuotientUnit(count, n);
    count / n
  }

  /** The discard percentage of one group: a value that is no numpy array is rejected;
      for an empty array numpy's count / length is 0 / 0, NaN. */
  function DiscardPercentage(c: Container<int>, t: int): (r: Result<real>)
    ensures c.kind != NdArray <==> r == Err(TypeError)
    ensures c.kind == NdArray && c.items == [] <==> r == Err(NotANumber)
    ensures r.Ok? ==> 0.0 <= r.value <= 1.0
  {
    if c.kind != NdArray then Err(TypeError)
    else if c.items == [] then Err(NotANumber)
    else Ok(DiscardRatio(c.items, t))
  }

  /** Raising the threshold discards at least as many scores. */
  lemma {:induction false} CountBelowMonotone(s: seq<int>, t: int, u: int)
    requires t <= u
    ensures CountBelow(s, t) <= CountBelow(s, u)
  {
    if s != [] {
      CountBelowMonotone(s[1..], t, u);
    }
  }

  /** The discard ratio is non-decreasing in the threshold. */
  lemma {:induction false} DiscardRatioMonotone(s: seq<int>, t: int, u: int)
    requires s != [] && t <= u
    ensures DiscardRatio(s, t) <= DiscardRatio(s, u)
  {
    CountBelowMonotone(s, t, u);
    QuotientMonotone(CountBelow(s, t) as real, CountBelow(s, u) as real, |s| as real);
  }

  /** A threshold at or below the lowest score discards nothing; one above the highest
      score discards everything. */
  lemma {:induction false} DiscardRatioExtremes(s: seq<int>, t: int)
    requires s != []
    ensures t <= Smallest(s) ==> DiscardRatio(s, t) == 0.0
    ensures Largest(s) < t ==> DiscardRatio(s, t) == 1.0
  {
    SmallestIs(s);
    LargestIs(s);
    CountBelowExtremes(s, t);
  }

  /** When the first k scores lie below t and the others do not, t discards exactly k. */
  lemma {:induction false} CountBelowSplit(s: seq<int>, t: int, k: int)
    requires 0 <= k <= |s|
    requires forall i :: 0 <= i < k ==> s[i] < t
    requires forall i :: k <= i < |s| ==> t <= s[i]
    ensures CountBelow(s, t) == k
  {
    if k == 0 {
      CountBelowExtremes(s, t);
    } else {
      assert forall i :: 0 <= i < |s| - 1 ==> s[1..][i] == s[i + 1];
      CountBelowSplit(s[1..], t, k - 1);
    }
  }

  /** Scores in non-decreasing order */
  predicate Sorted(s: seq<int>)
  {
    forall i, j :: 0 <= i <= j < |s| ==> s[i] <= s[j]
  }

  /** In sorted scores, t discards exactly the scores before the first one that is not
      below t. */
  lemma {:induction false} CountBelowSorted(s: seq<int>, t: int, k: int)
    requires Sorted(s) && 0 <= k <= |s|
    requires 0 < k ==> s[k - 1] < t
    requires k < |s| ==> t <= s[k]
    ensures CountBelow(s, t) == k
  {
    CountBelowSplit(s, t, k);
  }

  /** The spread of a list of values: anything but a plain list is rejected, and so is an
      empty list, which has no max or min. */
  function MinMaxDistance(c: Container<real>): (r: Result<real>)
    ensures c.kind != PyList <==> r == Err(TypeError)
    ensures c.kind == PyList && c.items == [] <==> r == Err(ValueError)
    ensures r.Ok? ==> 0.0 <= r.value
  {
    if c.kind != PyList then Err(TypeError)
    else if c.items == [] then Err(ValueError)
    else
      SmallestRealIs(c.items);
      LargestRealIs(c.items);
      Ok(LargestReal(c.items) - SmallestReal(c.items))
  }

  /** The spread is 0 exactly when all values are equal. */
  lemma {:induction false} MinMaxDistanceZero(c: Container<real>)
    requires c.kind == PyList && c.items != []
    ensures MinMaxDistance(c) == Ok(0.0) <==>
              forall i, j :: 0 <= i < |c.items| && 0 <= j < |c.items| ==> c.items[i] == c.items[j]
  {
    var s := c.items;
    SmallestRealIs(s);
    LargestRealIs(s);
    if forall i, j :: 0 <= i < |s| && 0 <= j < |s| ==> s[i] == s[j] {
      var lo, hi := SmallestReal(s), LargestReal(s);
      var a, b :| 0 <= a < |s| && 0 <= b < |s| && s[a] == lo && s[b] == hi;
    }
  }

  /** Values that are shares in [0, 1] have a spread in [0, 1]. */
  lemma {:induction false} MinMaxDistanceUnit(c: Container<real>)
    requires forall i :: 0 <= i < |c.items| ==> 0.0 <= c.items[i] <= 1.0
    ensures MinMaxDistance(c).Ok? ==> MinMaxDistance(c).value <= 1.0
  {
    if c.kind == PyList && c.items != [] {
      var s := c.items;
      SmallestRealIs(s);
      LargestRealIs(s);
      var a, b :| 0 <= a < |s| && 0 <= b < |s| && s[a] == SmallestReal(s) && s[b] == LargestReal(s);
    }
  }

  /** The integer-dtype guard: a plain list has no dtype at all; an array passes exactly
      when its dtype is an integer one. */
  function EnforceIntegerQualityScores(c: Container<int>): (r: Check)
    ensures r == Pass <==> c.kind == NdArray && c.dtype == IntegerDType
    ensures c.kind == PyList ==> r == Fail(AttributeError)
    ensures c.kind == NdArray && c.dtype == FloatDType ==> r == Fail(TypeError)
  {
    match c.kind
    case PyList => Fail(AttributeError)
    case NdArray => if c.dtype == IntegerDType then Pass else Fail(TypeError)
  }
}
