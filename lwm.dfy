/** The Low-Weighted-Mean (LWM) score of one demographic group: a mean of the group's
    integer quality scores in which each score is weighted by its inverted min-max
    normalisation against all groups' scores, so that low scores weigh most. The
    weights are accumulated in a 101-slot array, one slot per possible score 0..100,
    which is then normalised and dotted with the score grid. */
module LwmMeasure {
  import opened Outcomes
  import opened Sequences
  import GiniMeasure

  const UpperLimit: int := 100
  const PossibleScores: int := UpperLimit + 1

  /** numpy accepts q as an index of the accumulator when −101 <= q <= 100 */
  predicate IsIndex(q: int)
  {
    -PossibleScores <= q < PossibleScores
  }

  predicate AllIndices(qs: seq<int>)
  {
    forall i :: 0 <= i < |qs| ==> IsIndex(qs[i])
  }

  /** The slot numpy updates for index q: a negative index counts from the end. */
  function Slot(q: int): (v: nat)
    requires IsIndex(q)
    ensures v < PossibleScores
    ensures 0 <= q ==> v == q
    ensures q < 0 ==> v == q + PossibleScores
  {
    if q < 0 then q + PossibleScores else q
  }

  /** The inverted min-max normalisation 1 − (q − lo) / (hi − lo) of a score q against
      the least score lo and the greatest score hi of all groups. */
  function Weight(q: int, lo: int, hi: int): (w: real)
    requires lo != hi
    ensures lo <= q <= hi ==> 0.0 <= w <= 1.0
    ensures q == lo ==> w == 1.0
    ensures q == hi ==> w == 0.0
    ensures lo < q < hi ==> 0.0 < w < 1.0
  {
    1.0 - (q - lo) as real / (hi - lo) as real
  }

  /** The lower the score, the larger its weight. */
  lemma {:induction false} WeightDecreasing(q1: int, q2: int, lo: int, hi: int)
    requires lo < hi && q1 <= q2
    ensures Weight(q1, lo, hi) >= Weight(q2, lo, hi)
  {
    var d := (hi - lo) as real;
    assert (q1 - lo) as real / d <= (q2 - lo) as real / d;
  }

  /** The weight of each score of qs, in order. Against the range [lo, hi] of all
      scores, each weight is non-negative and positive exactly for a score below hi. */
  function Weights(qs: seq<int>, lo: int, hi: int): (ws: seq<real>)
    requires lo != hi
    ensures |ws| == |qs|
    ensures forall i :: 0 <= i < |qs| && lo < hi && lo <= qs[i] <= hi ==>
              0.0 <= ws[i] && (0.0 < ws[i] <==> qs[i] < hi)
    decreases |qs|
  {
    if qs == [] then []
    else
      var n := |qs| - 1;
      Weights(qs[..n], lo, hi) + [Weight(qs[n], lo, hi)]
  }

  /** Entry i of the weights is the weight of score qs[i]. */
  lemma {:induction false} WeightsAt(qs: seq<int>, lo: int, hi: int, i: int)
    requires lo != hi && 0 <= i < |qs|
    ensures Weights(qs, lo, hi)[i] == Weight(qs[i], lo, hi)
    decreases |qs|
  {
    var n := |qs| - 1;
    if i < n {
      WeightsAt(qs[..n], lo, hi, i);
    }
  }

  /** The slot index of each score of qs, as a real */
  function SlotValues(qs: seq<int>): (vs: seq<real>)
    requires AllIndices(qs)
    ensures |vs| == |qs|
    ensures forall i :: 0 <= i < |qs| ==> vs[i] == Slot(qs[i]) as real
  {
    seq(|qs|, i requires 0 <= i < |qs| => Slot(qs[i]) as real)
  }

  /** The accumulator as numpy creates it: 101 zeros */
  function Zeros(): (e: seq<real>)
    ensures |e| == PossibleScores
    ensures forall v :: 0 <= v < |e| ==> e[v] == 0.0
  {
    seq(PossibleScores, _ => 0.0)
  }

  /** The accumulator after the scores qs, with weights ws, have been processed in
      order, starting from all zeros: each score adds its weight to its own slot. */
  function Embedding(qs: seq<int>, ws: seq<real>): (e: seq<real>)
    requires AllIndices(qs) && |ws| == |qs|
    ensures |e| == PossibleScores
    decreases |qs|
  {
    if qs == [] then Zeros()
    else
      var n := |qs| - 1;
      var e := Embedding(qs[..n], ws[..n]);
      e[Slot(qs[n]) := e[Slot(qs[n])] + ws[n]]
  }

  /** The total weight of the scores landing in slot v */
  function SlotWeight(qs: seq<int>, ws: seq<real>, v: int): real
    requires AllIndices(qs) && |ws| == |qs|
    decreases |qs|
  {
    if qs == [] then 0.0
    else
      var n := |qs| - 1;
      SlotWeight(qs[..n], ws[..n], v) + (if Slot(qs[n]) == v then ws[n] else 0.0)
  }

  /** 100 · v / 100 for every possible score v */
  function Grid(): (g: seq<real>)
    ensures |g| == PossibleScores
  {
    seq(PossibleScores, v => UpperLimit as real * (v as real / UpperLimit as real))
  }

  /** The LWM score of Qdi (one group) against QD (all groups' scores): the mean of the
      slots the scores land in, each weighted by the score's weight. Errors, in the
      order they arise: min/max of an empty QD; a zero score range, met at the first
      score; a score that is no index; a zero total weight, numpy's 0/0 (an empty
      group included). */
  function LowWeightedMean(qdi: seq<int>, qd: seq<int>): Result<real>
  {
    if qd == [] then Err(ValueError)
    else
      var lo, hi := Smallest(qd), Largest(qd);
      if qdi != [] && lo == hi then Err(ZeroDivisionError)
      else if !AllIndices(qdi) then Err(IndexError)
      else if qdi == [] then Err(NotANumber)
      else
        var ws := Weights(qdi, lo, hi);
        if Sum(ws) == 0.0 then Err(NotANumber)
        else Ok(Dot(SlotValues(qdi), ws) / Sum(ws))
  }

  lemma {:induction false} GridIsScore(v: int)
    requires 0 <= v < PossibleScores
    ensures Grid()[v] == v as real
  {
  }

  /** Slot v of the accumulator holds the weights of exactly the scores that land in it:
      a score changes its own slot and no other. */
  lemma {:induction false} EmbeddingSlot(qs: seq<int>, ws: seq<real>, v: int)
    requires AllIndices(qs) && |ws| == |qs|
    requires 0 <= v < PossibleScores
    ensures Embedding(qs, ws)[v] == SlotWeight(qs, ws, v)
    decreases |qs|
  {
    if qs != [] {
      var n := |qs| - 1;
      EmbeddingSlot(qs[..n], ws[..n], v);
    }
  }

  /** Splits the last weight off a sum. */
  lemma {:induction false} SumLast(ws: seq<real>)
    requires ws != []
    ensures Sum(ws) == Sum(ws[..|ws| - 1]) + ws[|ws| - 1]
  {
    var n := |ws| - 1;
    assert ws == ws[..n] + [ws[n]];
    SumByAppend(ws[..n], [ws[n]], Identity());
  }

  /** The slots add up to the total weight of the scores. */
  lemma {:induction false} EmbeddingTotal(qs: seq<int>, ws: seq<real>)
    requires AllIndices(qs) && |ws| == |qs|
    ensures Sum(Embedding(qs, ws)) == Sum(ws)
    decreases |qs|
  {
    if qs == [] {
      SumBounds(Zeros(), 0.0, 0.0);
    } else {
      var n := |qs| - 1;
      EmbeddingTotal(qs[..n], ws[..n]);
      SumUpdate(Embedding(qs[..n], ws[..n]), Slot(qs[n]), ws[n]);
      SumLast(ws);
    }
  }

  /** The last score adds its weight to its own slot of the accumulator built from
      the scores before it. */
  lemma {:induction false} EmbeddingLast(qs: seq<int>, ws: seq<real>, n: int)
    requires AllIndices(qs) && |ws| == |qs| && n == |qs| - 1 >= 0
    ensures Embedding(qs, ws)
            == Embedding(qs[..n], ws[..n])[Slot(qs[n]) := Embedding(qs[..n], ws[..n])[Slot(qs[n])] + ws[n]]
  {
  }

  /** The slot values and weights of qs split into those of the scores before the
      last one and the last one's. */
  lemma {:induction false} SlotValuesLast(qs: seq<int>, ws: seq<real>, n: int)
    requires AllIndices(qs) && |ws| == |qs| && n == |qs| - 1 >= 0
    ensures Dot(SlotValues(qs), ws)
            == Dot(SlotValues(qs[..n]) + [Slot(qs[n]) as real], ws[..n] + [ws[n]])
  {
    assert SlotValues(qs) == SlotValues(qs[..n]) + [Slot(qs[n]) as real];
    assert ws == ws[..n] + [ws[n]];
  }

  /** The accumulator dotted with the grid is the weighted sum of the slots the scores
      land in. */
  lemma {:induction false} EmbeddingMoment(qs: seq<int>, ws: seq<real>)
    requires AllIndices(qs) && |ws| == |qs|
    ensures Dot(Grid(), Embedding(qs, ws)) == Dot(SlotValues(qs), ws)
    decreases |qs|
  {
    if qs == [] {
      DotZero(Grid(), Zeros());
    } else {
      var n := |qs| - 1;
      var v := Slot(qs[n]);
      EmbeddingLast(qs, ws, n);
      EmbeddingMoment(qs[..n], ws[..n]);
      GridIsScore(v);
      DotUpdateAppend(Grid(), Embedding(qs[..n], ws[..n]), v, ws[n], SlotValues(qs[..n]), ws[..n], v as real);
      SlotValuesLast(qs, ws, n);
    }
  }

  /** After normalisation the slots sum to 1. */
  lemma {:induction false} NormalizedSumsToOne(e: seq<real>)
    requires Sum(e) != 0.0
    ensures Sum(DivideBy(e, Sum(e))) == 1.0
  {
    var total := Sum(e);
    SumDivide(e, total);
    assert total / total == 1.0;
  }

  /** Processing score qs[i] adds its weight to its own slot of the accumulator built
      from the scores before it. */
  lemma {:induction false} EmbeddingStep(qs: seq<int>, lo: int, hi: int, i: int)
    requires 0 <= i < |qs| && lo != hi && AllIndices(qs[..i]) && IsIndex(qs[i])
    ensures AllIndices(qs[..i + 1])
    ensures var e := if i == 0 then Zeros() else Embedding(qs[..i], Weights(qs[..i], lo, hi));
            Embedding(qs[..i + 1], Weights(qs[..i + 1], lo, hi))
            == e[Slot(qs[i]) := e[Slot(qs[i])] + Weight(qs[i], lo, hi)]
  {
    assert qs[..i + 1][..i] == qs[..i];
  }

  /** Builds the accumulator in place, normalises it and takes its dot product with
      the score grid. */
  method LowWeightedMeanScore(qdi: seq<int>, qd: seq<int>) returns (r: Result<real>)
    ensures r == LowWeightedMean(qdi, qd)
  {
    var embedding := new real[PossibleScores](_ => 0.0);
    if qd == [] {
      return Err(ValueError);
    }
    var lo, hi := Smallest(qd), Largest(qd);
    for i := 0 to |qdi|
      invariant AllIndices(qdi[..i])
      invariant i == 0 ==> embedding[..] == Zeros()
      invariant i > 0 ==> lo != hi && embedding[..] == Embedding(qdi[..i], Weights(qdi[..i], lo, hi))
    {
      var q := qdi[i];
      if hi == lo {
        return Err(ZeroDivisionError);
      }
      var weight := Weight(q, lo, hi);
      if !IsIndex(q) {
        return Err(IndexError);
      }
      ghost var before := embedding[..];
      embedding[Slot(q)] := embedding[Slot(q)] + weight;
      assert embedding[..] == before[Slot(q) := before[Slot(q)] + weight];
      EmbeddingStep(qdi, lo, hi, i);
    }
    assert qdi[..|qdi|] == qdi;
    var slots := embedding[..];
    assert |slots| == PossibleScores;
    var total := Sum(slots);
    if qdi == [] {
      // every slot is still zero: numpy's 0 / 0
      return Err(NotANumber);
    }
    assert lo != hi && slots == Embedding(qdi, Weights(qdi, lo, hi));
    EmbeddingTotal(qdi, Weights(qdi, lo, hi));
    if total == 0.0 {
      return Err(NotANumber);
    }
    var normalized := DivideBy(slots, total);
    r := Ok(Dot(Grid(), normalized));
    DotDivide(Grid(), slots, total);
    EmbeddingMoment(qdi, Weights(qdi, lo, hi));
  }

  /** Qdi is part of the union QD and its scores are the indices 0..100. */
  predicate WithinUnion(qdi: seq<int>, qd: seq<int>)
  {
    forall i :: 0 <= i < |qdi| ==> 0 <= qdi[i] <= UpperLimit && qdi[i] in qd
  }

  /** Every score of a group within the union lies in [min QD, max QD]. */
  lemma {:induction false} WithinUnionRange(qdi: seq<int>, qd: seq<int>)
    requires qd != [] && WithinUnion(qdi, qd)
    ensures forall i :: 0 <= i < |qdi| ==> Smallest(qd) <= qdi[i] <= Largest(qd)
  {
    SmallestIs(qd);
    LargestIs(qd);
    forall i | 0 <= i < |qdi|
      ensures Smallest(qd) <= qdi[i] <= Largest(qd)
    {
      var j :| 0 <= j < |qd| && qd[j] == qdi[i];
    }
  }

  /** Every weight of a score in [lo, hi] is non-negative, and a positive weight goes
      with a score below hi, which b and c bound. */
  lemma {:induction false} WeightedSlotsSigns(qdi: seq<int>, lo: int, hi: int, b: real, c: real)
    requires lo < hi
    requires forall i :: 0 <= i < |qdi| ==> 0 <= qdi[i] <= UpperLimit && lo <= qdi[i] <= hi
    requires forall i :: 0 <= i < |qdi| && qdi[i] < hi ==> b <= qdi[i] as real <= c
    ensures AllIndices(qdi)
    ensures forall i :: 0 <= i < |qdi| ==>
              0.0 <= Weights(qdi, lo, hi)[i] &&
              (0.0 < Weights(qdi, lo, hi)[i] ==> b <= SlotValues(qdi)[i] <= c)
  {
  }

  /** The LWM score lies between the least and the greatest of the group's scores that
      received a positive weight (every score but the maximum of QD): any b and c that
      bound those scores bound the result. */
  lemma {:induction false} LwmWithinWeightedScores(qdi: seq<int>, qd: seq<int>, b: real, c: real)
    requires qd != [] && WithinUnion(qdi, qd)
    requires forall i :: 0 <= i < |qdi| && qdi[i] < Largest(qd) ==> b <= qdi[i] as real <= c
    ensures LowWeightedMean(qdi, qd).Ok? ==>
              b <= LowWeightedMean(qdi, qd).value <= c
  {
    var lo, hi := Smallest(qd), Largest(qd);
    if LowWeightedMean(qdi, qd).Ok? && lo < hi {
      WithinUnionRange(qdi, qd);
      var vs, ws := SlotValues(qdi), Weights(qdi, lo, hi);
      WeightedSlotsSigns(qdi, lo, hi, b, c);
      SumPositive(ws);
      WeightedMeanBounds(vs, ws, b, c);
    }
  }

  /** For a group within the union, the score is defined exactly when some group score
      lies below the maximum of QD; otherwise every weight is zero. */
  lemma {:induction false} LwmDefined(qdi: seq<int>, qd: seq<int>)
    requires qd != [] && WithinUnion(qdi, qd)
    ensures LowWeightedMean(qdi, qd).Ok? <==> exists i :: 0 <= i < |qdi| && qdi[i] < Largest(qd)
  {
    var lo, hi := Smallest(qd), Largest(qd);
    WithinUnionRange(qdi, qd);
    if lo < hi {
      var ws := Weights(qdi, lo, hi);
      SumPositive(ws);
      if exists i :: 0 <= i < |qdi| && qdi[i] < hi {
        var i :| 0 <= i < |qdi| && qdi[i] < hi;
        assert 0.0 < ws[i];
      }
    }
  }

  lemma {:induction false} UnionExtremes(qd: seq<int>)
    requires qd == [1, 2, 3, 4, 5, 6]
    ensures Smallest(qd) == 1 && Largest(qd) == 6
  {
    SmallestIs(qd);
    LargestIs(qd);
    assert qd[0] == 1 && qd[5] == 6;
  }

  /** The weights of the scores 1..6 against the range [1, 6] */
  lemma UnionWeights()
    ensures Weight(1, 1, 6) == 1.0 && Weight(2, 1, 6) == 4.0 / 5.0 && Weight(3, 1, 6) == 3.0 / 5.0
    ensures Weight(4, 1, 6) == 2.0 / 5.0 && Weight(5, 1, 6) == 1.0 / 5.0 && Weight(6, 1, 6) == 0.0
  {
  }

  /** The weights of a three-score group */
  lemma {:induction false} WeightsThree(q0: int, q1: int, q2: int, lo: int, hi: int)
    requires lo != hi
    ensures Weights([q0, q1, q2], lo, hi)
            == [Weight(q0, lo, hi), Weight(q1, lo, hi), Weight(q2, lo, hi)]
  {
    assert [q0][..0] == [];
    assert Weights([q0], lo, hi) == [Weight(q0, lo, hi)];
    assert [q0, q1][..1] == [q0];
    assert Weights([q0, q1], lo, hi) == [Weight(q0, lo, hi), Weight(q1, lo, hi)];
    assert [q0, q1, q2][..2] == [q0, q1];
  }

  /** The slot values of a three-score group of scores 0..100 */
  lemma {:induction false} SlotValuesThree(q0: int, q1: int, q2: int)
    requires 0 <= q0 <= UpperLimit && 0 <= q1 <= UpperLimit && 0 <= q2 <= UpperLimit
    ensures AllIndices([q0, q1, q2])
    ensures SlotValues([q0, q1, q2]) == [q0 as real, q1 as real, q2 as real]
  {
  }

  /** A defined LWM score is the weighted mean of the group's slots. */
  lemma {:induction false} LwmValue(qdi: seq<int>, qd: seq<int>, lo: int, hi: int)
    requires qd != [] && lo == Smallest(qd) && hi == Largest(qd) && lo != hi
    requires qdi != [] && AllIndices(qdi) && Sum(Weights(qdi, lo, hi)) != 0.0
    ensures LowWeightedMean(qdi, qd)
            == Ok(Dot(SlotValues(qdi), Weights(qdi, lo, hi)) / Sum(Weights(qdi, lo, hi)))
  {
  }

  /** Group [1, 2, 3] against the union [1, 2, 3, 4, 5, 6]: the weights are 1, 4/5 and
      3/5, the weighted sum 22/5 and the total weight 12/5, so the score is 11/6. */
  lemma {:induction false} LwmLowGroupExample(qdi: seq<int>, qd: seq<int>)
    requires qdi == [1, 2, 3] && qd == [1, 2, 3, 4, 5, 6]
    ensures LowWeightedMean(qdi, qd) == Ok(11.0 / 6.0)
  {
    var ws := [1.0, 4.0 / 5.0, 3.0 / 5.0];
    assert Weights(qdi, 1, 6) == ws by {
      UnionWeights();
      WeightsThree(1, 2, 3, 1, 6);
    }
    assert SlotValues(qdi) == [1.0, 2.0, 3.0] by {
      SlotValuesThree(1, 2, 3);
    }
    assert Sum(ws) == 12.0 / 5.0 by {
      SumThree(1.0, 4.0 / 5.0, 3.0 / 5.0);
    }
    assert Dot([1.0, 2.0, 3.0], ws) == 22.0 / 5.0 by {
      DotThree(1.0, 2.0, 3.0, 1.0, 4.0 / 5.0, 3.0 / 5.0);
    }
    UnionExtremes(qd);
    LwmValue(qdi, qd, 1, 6);
  }

  /** Group [4, 5, 6] against the same union: the weights are 2/5, 1/5 and 0, the
      weighted sum 13/5 and the total weight 3/5, so the score is 13/3. */
  lemma {:induction false} LwmHighGroupExample(qdi: seq<int>, qd: seq<int>)
    requires qdi == [4, 5, 6] && qd == [1, 2, 3, 4, 5, 6]
    ensures LowWeightedMean(qdi, qd) == Ok(13.0 / 3.0)
  {
    var ws := [2.0 / 5.0, 1.0 / 5.0, 0.0];
    assert Weights(qdi, 1, 6) == ws by {
      UnionWeights();
      WeightsThree(4, 5, 6, 1, 6);
    }
    assert SlotValues(qdi) == [4.0, 5.0, 6.0] by {
      SlotValuesThree(4, 5, 6);
    }
    assert Sum(ws) == 3.0 / 5.0 by {
      SumThree(2.0 / 5.0, 1.0 / 5.0, 0.0);
    }
    assert Dot([4.0, 5.0, 6.0], ws) == 13.0 / 5.0 by {
      DotThree(4.0, 5.0, 6.0, 2.0 / 5.0, 1.0 / 5.0, 0.0);
    }
    UnionExtremes(qd);
    LwmValue(qdi, qd, 1, 6);
  }

  /** The two LWM scores above as input to the Gini coefficient: 15/37, so the
      LWM-GC fairness ratio 1 − GC is 22/37. */
  lemma {:induction false} LwmGiniExample(x: seq<real>)
    requires x == [11.0 / 6.0, 13.0 / 3.0]
    ensures GiniMeasure.GiniCoefficient(x) == Ok(15.0 / 37.0)
  {
    assert GiniMeasure.RowDistance(11.0 / 6.0, x) == 5.0 / 2.0 by {
      SumByTwo(11.0 / 6.0, 13.0 / 3.0, GiniMeasure.DistanceFrom(11.0 / 6.0));
    }
    assert GiniMeasure.RowDistance(13.0 / 3.0, x) == 5.0 / 2.0 by {
      SumByTwo(11.0 / 6.0, 13.0 / 3.0, GiniMeasure.DistanceFrom(13.0 / 3.0));
    }
    assert GiniMeasure.Numerator(x) == 5.0 by {
      SumByTwo(11.0 / 6.0, 13.0 / 3.0, GiniMeasure.RowsOf(x));
    }
    assert Sum(x) == 37.0 / 6.0 by {
      SumByTwo(11.0 / 6.0, 13.0 / 3.0, Identity());
    }
  }
}
