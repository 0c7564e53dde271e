/** The Mean-Discard-Gap of a list of demographic groups of integer quality scores.
    For every integer discard threshold above the lowest score up to the highest one,
    it takes each group's share of scores below the threshold and records the spread
    (max − min) of those shares; the measure is the mean of the recorded spreads.
    0 means every threshold discards the same share of every group. */
module MdgMeasure {
  import opened Outcomes
  import opened Sequences
  import opened MdgUtils

  /** The dtype numpy gives a group when it turns it into an array: an empty plain list
      becomes a float array. */
  function ArrayType(g: Container<int>): DType
  {
    if g.kind == PyList && g.items == [] then FloatDType else g.dtype
  }

  /** The dtype of the concatenation: floating as soon as one group is floating */
  function ConcatenatedType(groups: seq<Container<int>>): DType
  {
    if exists i :: 0 <= i < |groups| && ArrayType(groups[i]) == FloatDType then FloatDType
    else IntegerDType
  }

  /** All scores of all groups, group after group */
  function Concatenate(groups: seq<Container<int>>): seq<int>
  {
    if groups == [] then [] else groups[0].items + Concatenate(groups[1..])
  }

  /** The comprehension over the groups at one threshold, in group order. A group that
      is no array raises a TypeError wherever it sits, while an empty array only yields
      NaN, so a TypeError of any group takes precedence. */
  function DiscardPercentages(groups: seq<Container<int>>, t: int): Result<seq<real>>
  {
    if groups == [] then Ok([])
    else
      var head, tail := DiscardPercentage(groups[0], t), DiscardPercentages(groups[1..], t);
      if head == Err(TypeError) || tail == Err(TypeError) then Err(TypeError)
      else if head.Err? then Err(head.error)
      else if tail.Err? then tail
      else Ok([head.value] + tail.value)
  }

  /** One discard percentage per group, in group order; a TypeError exactly when some
      group is no array, and success exactly when every group's percentage succeeds. */
  lemma {:induction false} DiscardPercentagesSpec(groups: seq<Container<int>>, t: int)
    ensures var r := DiscardPercentages(groups, t);
            && (r == Err(TypeError) <==> exists i :: 0 <= i < |groups| && groups[i].kind != NdArray)
            && (r.Err? ==> r.error == TypeError || r.error == NotANumber)
            && (r.Ok? <==> forall i :: 0 <= i < |groups| ==> DiscardPercentage(groups[i], t).Ok?)
            && (r.Ok? ==> |r.value| == |groups|)
            && (r.Ok? ==> forall i :: 0 <= i < |groups| ==> DiscardPercentage(groups[i], t) == Ok(r.value[i]))
  {
    if groups != [] {
      DiscardPercentagesSpec(groups[1..], t);
      assert forall i :: 1 <= i < |groups| ==> groups[i] == groups[1..][i - 1];
    }
  }

  /** The spread of the discard percentages at threshold t */
  function SpreadAt(groups: seq<Container<int>>, t: int): Result<real>
  {
    match DiscardPercentages(groups, t)
    case Err(e) => Err(e)
    case Ok(ps) => MinMaxDistance(Container(PyList, FloatDType, ps))
  }

  /** Every spread is a difference of two shares, so it lies in [0, 1]. */
  lemma {:induction false} SpreadUnit(groups: seq<Container<int>>, t: int)
    ensures SpreadAt(groups, t).Ok? ==> 0.0 <= SpreadAt(groups, t).value <= 1.0
  {
    DiscardPercentagesSpec(groups, t);
    var r := DiscardPercentages(groups, t);
    if r.Ok? {
      MinMaxDistanceUnit(Container(PyList, FloatDType, r.value));
    }
  }

  /** When every group is a non-empty array, the spread at t is the gap between the
      share of the group t discards most of and the share of the one it discards least of. */
  lemma {:induction false} SpreadOfExtremeGroups(groups: seq<Container<int>>, t: int, i: int, j: int)
    requires 0 <= i < |groups| && 0 <= j < |groups|
    requires forall g :: 0 <= g < |groups| ==> groups[g].kind == NdArray && groups[g].items != []
    requires forall g :: 0 <= g < |groups| ==>
               DiscardRatio(groups[i].items, t) <= DiscardRatio(groups[g].items, t) <= DiscardRatio(groups[j].items, t)
    ensures SpreadAt(groups, t) == Ok(DiscardRatio(groups[j].items, t) - DiscardRatio(groups[i].items, t))
  {
    DiscardPercentagesSpec(groups, t);
    var ps := DiscardPercentages(groups, t).value;
    assert forall g :: 0 <= g < |ps| ==> ps[g] == DiscardRatio(groups[g].items, t);
    SpreadOfExtremes(ps, i, j);
  }

  /** t ↦ the spread at threshold t */
  function SpreadsOf(groups: seq<Container<int>>): (f: int -> Result<real>)
    ensures forall t :: f(t) == SpreadAt(groups, t)
  {
    t => SpreadAt(groups, t)
  }

  /** The results of a step at the thresholds lo + 1, ..., lo + n, in increasing order;
      the first threshold that fails ends the sweep with its error. */
  function Sweep(f: int -> Result<real>, lo: int, n: nat): (r: Result<seq<real>>)
    ensures r.Ok? ==> |r.value| == n
    decreases n
  {
    if n == 0 then Ok([])
    else
      match Sweep(f, lo, n - 1)
      case Err(e) => Err(e)
      case Ok(ds) =>
        match f(lo + n)
        case Err(e) => Err(e)
        case Ok(d) => Ok(ds + [d])
  }

  /** The sweep succeeds exactly when every threshold does. */
  lemma {:induction false} SweepOk(f: int -> Result<real>, lo: int, n: nat)
    ensures Sweep(f, lo, n).Ok? <==> forall t :: lo < t <= lo + n ==> f(t).Ok?
  {
    if n > 0 {
      SweepOk(f, lo, n - 1);
    }
  }

  /** A successful sweep holds the result at threshold lo + 1 + k in position k. */
  lemma {:induction false} SweepValues(f: int -> Result<real>, lo: int, n: nat)
    requires Sweep(f, lo, n).Ok?
    ensures forall k :: 0 <= k < n ==> f(lo + 1 + k) == Ok(Sweep(f, lo, n).value[k])
  {
    if n > 0 {
      SweepValues(f, lo, n - 1);
    }
  }

  /** One more threshold t that succeeds extends the sweep by its result. */
  lemma {:induction false} SweepStep(f: int -> Result<real>, lo: int, t: int, ds: seq<real>, d: real)
    requires lo < t && Sweep(f, lo, t - lo - 1) == Ok(ds) && f(t) == Ok(d)
    ensures Sweep(f, lo, t - lo) == Ok(ds + [d])
  {
  }

  /** Once a threshold t fails, the sweep fails with its error however far it goes on. */
  lemma {:induction false} SweepFail(f: int -> Result<real>, lo: int, t: int, n: nat)
    requires lo < t <= lo + n && Sweep(f, lo, t - lo - 1).Ok? && f(t).Err?
    ensures Sweep(f, lo, n) == Err(f(t).error)
    decreases n
  {
    if n > t - lo {
      SweepFail(f, lo, t, n - 1);
    }
  }

  /** mean_discard_gap: the concatenation of no groups is rejected; the integer-type
      check on the concatenation comes before anything else; an empty concatenation has
      no min; when every score is equal no threshold is swept and the mean of nothing
      is NaN. */
  function MeanDiscardGapOf(groups: seq<Container<int>>): (r: Result<real>)
  {
    if groups == [] then Err(ValueError)
    else
      var all := Concatenate(groups);
      var check := EnforceIntegerQualityScores(Container(NdArray, ConcatenatedType(groups), all));
      if check.Fail? then Err(check.error)
      else if all == [] then Err(ValueError)
      else
        var lo, hi := Smallest(all), Largest(all);
        assert lo <= all[0] <= hi;
        MeanOfSweep(SpreadsOf(groups), lo, hi)
  }

  /** The mean of the results over the thresholds lo + 1, ..., hi: the first failure
      is the result, and no threshold at all gives the NaN of an empty mean. */
  function MeanOfSweep(f: int -> Result<real>, lo: int, hi: int): Result<real>
    requires lo <= hi
  {
    match Sweep(f, lo, hi - lo)
    case Err(e) => Err(e)
    case Ok(ds) => if ds == [] then Err(NotANumber) else Ok(Mean(ds))
  }

  /** Once the checks pass, the measure is the mean over the sweep between the lowest
      and the highest score. */
  lemma {:induction false} MdgIsMeanOfSweep(groups: seq<Container<int>>)
    requires groups != [] && ConcatenatedType(groups) == IntegerDType && Concatenate(groups) != []
    ensures Smallest(Concatenate(groups)) <= Largest(Concatenate(groups))
    ensures MeanDiscardGapOf(groups) ==
              MeanOfSweep(SpreadsOf(groups), Smallest(Concatenate(groups)), Largest(Concatenate(groups)))
  {
    var all := Concatenate(groups);
    assert Smallest(all) <= all[0] <= Largest(all);
  }

  /** A failure at the first of at least one threshold is the result. */
  lemma {:induction false} MeanOfSweepFirstFails(f: int -> Result<real>, lo: int, hi: int)
    requires lo < hi && f(lo + 1).Err?
    ensures MeanOfSweep(f, lo, hi) == Err(f(lo + 1).error)
  {
    SweepFail(f, lo, lo + 1, hi - lo);
  }

  /** The threshold loop: one spread per threshold lo + 1, ..., hi, appended in order.
      Its body, the comprehension of discard percentages and their min-max distance,
      is the pure SpreadAt. */
  method SweepThresholds(groups: seq<Container<int>>, lo: int, hi: int) returns (r: Result<seq<real>>)
    requires lo <= hi
    ensures r == Sweep(SpreadsOf(groups), lo, hi - lo)
  {
    var distances := [];
    for threshold := lo + 1 to hi + 1
      invariant Sweep(SpreadsOf(groups), lo, threshold - lo - 1) == Ok(distances)
    {
      var distance := SpreadAt(groups, threshold);
      if distance.Err? {
        SweepFail(SpreadsOf(groups), lo, threshold, hi - lo);
        return Err(distance.error);
      }
      SweepStep(SpreadsOf(groups), lo, threshold, distances, distance.value);
      distances := distances + [distance.value];
    }
    return Ok(distances);
  }

  /** mean_discard_gap: concatenate, check the dtype, take the score range, sweep the
      thresholds and average the spreads. */
  method MeanDiscardGap(groups: seq<Container<int>>) returns (r: Result<real>)
    ensures r == MeanDiscardGapOf(groups)
  {
    if groups == [] {
      return Err(ValueError);
    }
    var all := Concatenate(groups);
    var check := EnforceIntegerQualityScores(Container(NdArray, ConcatenatedType(groups), all));
    if check.Fail? {
      return Err(check.error);
    }
    if all == [] {
      return Err(ValueError);
    }
    var lo, hi := Smallest(all), Largest(all);
    assert lo <= all[0] <= hi;
    var distances := SweepThresholds(groups, lo, hi);
    if distances.Err? {
      return Err(distances.error);
    }
    if distances.value == [] {
      return Err(NotANumber);
    }
    return Ok(Mean(distances.value));
  }

  /** Results given in threshold order make up the sweep over that many thresholds. */
  lemma {:induction false} SweepOfValues(f: int -> Result<real>, lo: int, ds: seq<real>)
    requires forall k :: 0 <= k < |ds| ==> f(lo + 1 + k) == Ok(ds[k])
    ensures Sweep(f, lo, |ds|) == Ok(ds)
  {
    if ds != [] {
      var n := |ds| - 1;
      SweepOfValues(f, lo, ds[..n]);
      assert ds[..n] + [ds[n]] == ds;
    }
  }

  /** Bounds that hold at every successful threshold hold for every recorded result. */
  lemma {:induction false} SweepBounded(f: int -> Result<real>, lo: int, n: nat, a: real, b: real)
    requires forall t :: lo < t <= lo + n && f(t).Ok? ==> a <= f(t).value <= b
    requires Sweep(f, lo, n).Ok?
    ensures forall k :: 0 <= k < n ==> a <= Sweep(f, lo, n).value[k] <= b
  {
    SweepValues(f, lo, n);
    forall k | 0 <= k < n
      ensures a <= Sweep(f, lo, n).value[k] <= b
    {
      assert f(lo + 1 + k).Ok?;
    }
  }

  /** A successful measure has passed every check before the sweep, spans at least two
      distinct scores, and is the mean of a successful sweep between them. */
  lemma {:induction false} MdgSweep(groups: seq<Container<int>>) returns (lo: int, hi: int)
    requires MeanDiscardGapOf(groups).Ok?
    ensures groups != [] && ConcatenatedType(groups) == IntegerDType && Concatenate(groups) != []
    ensures lo == Smallest(Concatenate(groups)) && hi == Largest(Concatenate(groups)) && lo < hi
    ensures Sweep(SpreadsOf(groups), lo, hi - lo).Ok?
    ensures MeanDiscardGapOf(groups) == MeanOfSweep(SpreadsOf(groups), lo, hi)
  {
    var all := Concatenate(groups);
    lo, hi := Smallest(all), Largest(all);
    assert lo <= all[0] <= hi;
  }

  /** Bounds that hold at every threshold hold for the mean over the thresholds. */
  lemma {:induction false} MeanOfSweepBounded(f: int -> Result<real>, lo: int, hi: int, a: real, b: real)
    requires lo <= hi
    requires forall t :: f(t).Ok? ==> a <= f(t).value <= b
    ensures MeanOfSweep(f, lo, hi).Ok? ==> a <= MeanOfSweep(f, lo, hi).value <= b
  {
    if Sweep(f, lo, hi - lo).Ok? {
      SweepBounded(f, lo, hi - lo, a, b);
      if Sweep(f, lo, hi - lo).value != [] {
        MeanBounds(Sweep(f, lo, hi - lo).value, a, b);
      }
    }
  }

  /** A successful measure has a spread at every threshold above the lowest score up to
      the highest. */
  lemma {:induction false} MdgSucceeds(groups: seq<Container<int>>)
    requires MeanDiscardGapOf(groups).Ok?
    ensures var all := Concatenate(groups);
            all != [] && forall t :: Smallest(all) < t <= Largest(all) ==> SpreadAt(groups, t).Ok?
  {
    var lo, hi := MdgSweep(groups);
    SweepOk(SpreadsOf(groups), lo, hi - lo);
  }

  /** Spreads given in threshold order make up the sweep of the spreads. */
  lemma {:induction false} SpreadsSweep(groups: seq<Container<int>>, lo: int, ds: seq<real>)
    requires forall k :: 0 <= k < |ds| ==> SpreadAt(groups, lo + 1 + k) == Ok(ds[k])
    ensures Sweep(SpreadsOf(groups), lo, |ds|) == Ok(ds)
  {
    SweepOfValues(SpreadsOf(groups), lo, ds);
  }

  /** Conversely, when the checks pass and every threshold has a spread, the measure is
      the mean of those spreads, taken in threshold order. */
  lemma {:induction false} MdgMeanOfSpreads(groups: seq<Container<int>>, ds: seq<real>)
    requires groups != [] && ConcatenatedType(groups) == IntegerDType && Concatenate(groups) != []
    requires |ds| == Largest(Concatenate(groups)) - Smallest(Concatenate(groups)) > 0
    requires forall k :: 0 <= k < |ds| ==> SpreadAt(groups, Smallest(Concatenate(groups)) + 1 + k) == Ok(ds[k])
    ensures MeanDiscardGapOf(groups) == Ok(Mean(ds))
  {
    MdgIsMeanOfSweep(groups);
    SpreadsSweep(groups, Smallest(Concatenate(groups)), ds);
  }

  /** Every spread at every threshold lies in [0, 1]. */
  lemma {:induction false} SpreadsUnit(groups: seq<Container<int>>)
    ensures forall t :: SpreadsOf(groups)(t).Ok? ==> 0.0 <= SpreadsOf(groups)(t).value <= 1.0
  {
    forall t
      ensures SpreadsOf(groups)(t).Ok? ==> 0.0 <= SpreadsOf(groups)(t).value <= 1.0
    {
      SpreadUnit(groups, t);
    }
  }

  /** The mean of spreads in [0, 1] lies in [0, 1]. */
  lemma {:induction false} MdgUnitInterval(groups: seq<Container<int>>)
    ensures MeanDiscardGapOf(groups).Ok? ==> 0.0 <= MeanDiscardGapOf(groups).value <= 1.0
  {
    if MeanDiscardGapOf(groups).Ok? {
      var lo, hi := MdgSweep(groups);
      SpreadsUnit(groups);
      MeanOfSweepBounded(SpreadsOf(groups), lo, hi, 0.0, 1.0);
    }
  }

  /** Groups holding the same scores lose the same share at every threshold. */
  lemma {:induction false} SpreadIdentical(groups: seq<Container<int>>, t: int)
    requires forall i, j :: 0 <= i < |groups| && 0 <= j < |groups| ==> groups[i].items == groups[j].items
    ensures SpreadAt(groups, t).Ok? ==> SpreadAt(groups, t) == Ok(0.0)
  {
    DiscardPercentagesSpec(groups, t);
    var r := DiscardPercentages(groups, t);
    if r.Ok? && groups != [] {
      var ps := r.value;
      assert forall i :: 0 <= i < |ps| ==> ps[i] == DiscardRatio(groups[i].items, t);
      MinMaxDistanceZero(Container(PyList, FloatDType, ps));
    }
  }

  /** With identical groups every threshold that has a spread has spread 0. */
  lemma {:induction false} SpreadsIdentical(groups: seq<Container<int>>)
    requires forall i, j :: 0 <= i < |groups| && 0 <= j < |groups| ==> groups[i].items == groups[j].items
    ensures forall t :: SpreadsOf(groups)(t).Ok? ==> 0.0 <= SpreadsOf(groups)(t).value <= 0.0
  {
    forall t
      ensures SpreadsOf(groups)(t).Ok? ==> 0.0 <= SpreadsOf(groups)(t).value <= 0.0
    {
      SpreadIdentical(groups, t);
    }
  }

  /** Identical groups are treated identically: the measure is 0. */
  lemma {:induction false} MdgIdenticalGroups(groups: seq<Container<int>>)
    requires forall i, j :: 0 <= i < |groups| && 0 <= j < |groups| ==> groups[i].items == groups[j].items
    ensures MeanDiscardGapOf(groups).Ok? ==> MeanDiscardGapOf(groups) == Ok(0.0)
  {
    if MeanDiscardGapOf(groups).Ok? {
      var lo, hi := MdgSweep(groups);
      SpreadsIdentical(groups);
      MeanOfSweepBounded(SpreadsOf(groups), lo, hi, 0.0, 0.0);
    }
  }

  /** The integer-type check runs first: a floating group, or an empty plain list, which
      numpy reads as floating, is a TypeError whatever the scores are. */
  lemma {:induction false} MdgFloatGroup(groups: seq<Container<int>>, i: int)
    requires 0 <= i < |groups| && ArrayType(groups[i]) == FloatDType
    ensures MeanDiscardGapOf(groups) == Err(TypeError)
  {
  }

  /** When every score is the same there is no threshold to sweep, and the mean of no
      spreads is NaN. */
  lemma {:induction false} MdgSingleScore(groups: seq<Container<int>>)
    requires groups != [] && ConcatenatedType(groups) == IntegerDType && Concatenate(groups) != []
    requires Smallest(Concatenate(groups)) == Largest(Concatenate(groups))
    ensures MeanDiscardGapOf(groups) == Err(NotANumber)
  {
  }

  /** A failure at the first threshold is the failure of the whole measure. */
  lemma {:induction false} MdgFirstThresholdFails(groups: seq<Container<int>>, e: Error)
    requires groups != [] && ConcatenatedType(groups) == IntegerDType && Concatenate(groups) != []
    requires Smallest(Concatenate(groups)) < Largest(Concatenate(groups))
    requires SpreadsOf(groups)(Smallest(Concatenate(groups)) + 1) == Err(e)
    ensures MeanDiscardGapOf(groups) == Err(e)
  {
    MdgIsMeanOfSweep(groups);
    MeanOfSweepFirstFails(SpreadsOf(groups), Smallest(Concatenate(groups)), Largest(Concatenate(groups)));
  }

  /** A group that is no array makes every threshold a TypeError. */
  lemma {:induction false} SpreadNonArrayGroup(groups: seq<Container<int>>, i: int, t: int)
    requires 0 <= i < |groups| && groups[i].kind != NdArray
    ensures SpreadsOf(groups)(t) == Err(TypeError)
  {
    DiscardPercentagesSpec(groups, t);
  }

  /** A group that is no array fails the first threshold, so the whole measure. */
  lemma {:induction false} MdgNonArrayGroup(groups: seq<Container<int>>, i: int)
    requires ConcatenatedType(groups) == IntegerDType && Concatenate(groups) != []
    requires Smallest(Concatenate(groups)) < Largest(Concatenate(groups))
    requires 0 <= i < |groups| && groups[i].kind != NdArray
    ensures MeanDiscardGapOf(groups) == Err(TypeError)
  {
    SpreadNonArrayGroup(groups, i, Smallest(Concatenate(groups)) + 1);
    MdgFirstThresholdFails(groups, TypeError);
  }

  /** Among arrays only, an empty one makes every threshold NaN. */
  lemma {:induction false} SpreadEmptyGroup(groups: seq<Container<int>>, i: int, t: int)
    requires forall j :: 0 <= j < |groups| ==> groups[j].kind == NdArray
    requires 0 <= i < |groups| && groups[i].items == []
    ensures SpreadsOf(groups)(t) == Err(NotANumber)
  {
    DiscardPercentagesSpec(groups, t);
    assert DiscardPercentage(groups[i], t).Err?;
  }

  /** Among arrays only, an empty one fails the first threshold, so the whole measure. */
  lemma {:induction false} MdgEmptyGroup(groups: seq<Container<int>>, i: int)
    requires ConcatenatedType(groups) == IntegerDType && Concatenate(groups) != []
    requires Smallest(Concatenate(groups)) < Largest(Concatenate(groups))
    requires forall j :: 0 <= j < |groups| ==> groups[j].kind == NdArray
    requires 0 <= i < |groups| && groups[i].items == []
    ensures MeanDiscardGapOf(groups) == Err(NotANumber)
  {
    SpreadEmptyGroup(groups, i, Smallest(Concatenate(groups)) + 1);
    MdgFirstThresholdFails(groups, NotANumber);
  }

  /** The worked example of mean_discard_gap: three arrays of ten integer scores. */
  predicate ExampleScores(a: seq<int>, b: seq<int>, c: seq<int>)
  {
    && a == [76, 76, 77, 77, 78, 79, 80, 82, 82, 84]
    && b == [84, 84, 84, 84, 85, 85, 87, 87, 88, 88]
    && c == [82, 82, 82, 84, 84, 86, 87, 87, 88, 88]
  }

  /** Three integer arrays as groups */
  function Arrays(a: seq<int>, b: seq<int>, c: seq<int>): seq<Container<int>>
  {
    [Container(NdArray, IntegerDType, a), Container(NdArray, IntegerDType, b), Container(NdArray, IntegerDType, c)]
  }

  /** The spreads at the thresholds 77, ..., 88 in the worked example */
  const ExampleSpreads: seq<real> := [0.2, 0.4, 0.5, 0.6, 0.7, 0.7, 0.9, 0.9, 0.6, 0.5, 0.4, 0.2]

  /** Each example group is sorted, so a threshold discards a prefix of it. */
  lemma ExampleSorted(a: seq<int>, b: seq<int>, c: seq<int>)
    requires ExampleScores(a, b, c)
    ensures Sorted(a) && Sorted(b) && Sorted(c)
  {
  }

  /** In ten sorted scores, a threshold that falls after the first k discards k tenths. */
  lemma {:induction false} DiscardTenths(s: seq<int>, t: int, k: int)
    requires Sorted(s) && |s| == 10 && 0 <= k <= 10
    requires 0 < k ==> s[k - 1] < t
    requires k < 10 ==> t <= s[k]
    ensures DiscardRatio(s, t) == k as real / 10.0
  {
    CountBelowSorted(s, t, k);
  }

  /** Three sorted arrays of ten scores, with ka, kb and kc of them below t: the spread
      at t is the greatest of the three counts less the least, over ten. */
  lemma {:induction false} SpreadOfThreeSorted(sa: seq<int>, sb: seq<int>, sc: seq<int>, t: int,
                                              ka: int, kb: int, kc: int, lo: int, hi: int)
    requires Sorted(sa) && Sorted(sb) && Sorted(sc) && |sa| == 10 && |sb| == 10 && |sc| == 10
    requires 0 <= ka <= 10 && (0 < ka ==> sa[ka - 1] < t) && (ka < 10 ==> t <= sa[ka])
    requires 0 <= kb <= 10 && (0 < kb ==> sb[kb - 1] < t) && (kb < 10 ==> t <= sb[kb])
    requires 0 <= kc <= 10 && (0 < kc ==> sc[kc - 1] < t) && (kc < 10 ==> t <= sc[kc])
    requires lo <= ka <= hi && lo <= kb <= hi && lo <= kc <= hi
    requires (lo == ka || lo == kb || lo == kc) && (hi == ka || hi == kb || hi == kc)
    ensures SpreadAt(Arrays(sa, sb, sc), t) == Ok((hi - lo) as real / 10.0)
  {
    var groups := Arrays(sa, sb, sc);
    DiscardTenths(sa, t, ka);
    DiscardTenths(sb, t, kb);
    DiscardTenths(sc, t, kc);
    var ks := [ka, kb, kc];
    forall g | 0 <= g < 3
      ensures DiscardRatio(groups[g].items, t) == ks[g] as real / 10.0
      ensures lo <= ks[g] <= hi
    {
      if g == 0 {
        assert groups[g].items == sa;
      } else if g == 1 {
        assert groups[g].items == sb;
      } else {
        assert groups[g].items == sc;
      }
    }
    var i := if lo == ka then 0 else if lo == kb then 1 else 2;
    var j := if hi == ka then 0 else if hi == kb then 1 else 2;
    SpreadOfExtremeGroups(groups, t, i, j);
  }

  /** The spreads at the thresholds 77, 78 and 79 */
  lemma {:induction false} ExampleSpreadsFirst(a: seq<int>, b: seq<int>, c: seq<int>)
    requires ExampleScores(a, b, c)
    ensures SpreadAt(Arrays(a, b, c), 77) == Ok(0.2)
    ensures SpreadAt(Arrays(a, b, c), 78) == Ok(0.4)
    ensures SpreadAt(Arrays(a, b, c), 79) == Ok(0.5)
  {
    ExampleSorted(a, b, c);
    SpreadOfThreeSorted(a, b, c, 77, 2, 0, 0, 0, 2);
    SpreadOfThreeSorted(a, b, c, 78, 4, 0, 0, 0, 4);
    SpreadOfThreeSorted(a, b, c, 79, 5, 0, 0, 0, 5);
  }

  /** The spreads at the thresholds 80, 81 and 82 */
  lemma {:induction false} ExampleSpreadsSecond(a: seq<int>, b: seq<int>, c: seq<int>)
    requires ExampleScores(a, b, c)
    ensures SpreadAt(Arrays(a, b, c), 80) == Ok(0.6)
    ensures SpreadAt(Arrays(a, b, c), 81) == Ok(0.7)
    ensures SpreadAt(Arrays(a, b, c), 82) == Ok(0.7)
  {
    ExampleSorted(a, b, c);
    SpreadOfThreeSorted(a, b, c, 80, 6, 0, 0, 0, 6);
    SpreadOfThreeSorted(a, b, c, 81, 7, 0, 0, 0, 7);
    SpreadOfThreeSorted(a, b, c, 82, 7, 0, 0, 0, 7);
  }

  /** The spreads at the thresholds 83, 84 and 85 */
  lemma {:induction false} ExampleSpreadsThird(a: seq<int>, b: seq<int>, c: seq<int>)
    requires ExampleScores(a, b, c)
    ensures SpreadAt(Arrays(a, b, c), 83) == Ok(0.9)
    ensures SpreadAt(Arrays(a, b, c), 84) == Ok(0.9)
    ensures SpreadAt(Arrays(a, b, c), 85) == Ok(0.6)
  {
    ExampleSorted(a, b, c);
    SpreadOfThreeSorted(a, b, c, 83, 9, 0, 3, 0, 9);
    SpreadOfThreeSorted(a, b, c, 84, 9, 0, 3, 0, 9);
    SpreadOfThreeSorted(a, b, c, 85, 10, 4, 5, 4, 10);
  }

  /** The spreads at the thresholds 86, 87 and 88 */
  lemma {:induction false} ExampleSpreadsFourth(a: seq<int>, b: seq<int>, c: seq<int>)
    requires ExampleScores(a, b, c)
    ensures SpreadAt(Arrays(a, b, c), 86) == Ok(0.5)
    ensures SpreadAt(Arrays(a, b, c), 87) == Ok(0.4)
    ensures SpreadAt(Arrays(a, b, c), 88) == Ok(0.2)
  {
    ExampleSorted(a, b, c);
    SpreadOfThreeSorted(a, b, c, 86, 10, 6, 5, 5, 10);
    SpreadOfThreeSorted(a, b, c, 87, 10, 6, 6, 6, 10);
    SpreadOfThreeSorted(a, b, c, 88, 10, 8, 8, 8, 10);
  }

  /** The twelve spreads of the worked example, threshold by threshold */
  lemma {:induction false} ExampleSpreadsAll(a: seq<int>, b: seq<int>, c: seq<int>)
    requires ExampleScores(a, b, c)
    ensures forall k :: 0 <= k < |ExampleSpreads| ==> SpreadAt(Arrays(a, b, c), 77 + k) == Ok(ExampleSpreads[k])
  {
    ExampleSpreadsFirst(a, b, c);
    ExampleSpreadsSecond(a, b, c);
    ExampleSpreadsThird(a, b, c);
    ExampleSpreadsFourth(a, b, c);
    forall k | 0 <= k < |ExampleSpreads|
      ensures SpreadAt(Arrays(a, b, c), 77 + k) == Ok(ExampleSpreads[k])
    {
      if k < 3 { } else if k < 6 { } else if k < 9 { } else { }
    }
  }

  /** The spreads of the worked example add up to 6.6. */
  lemma {:induction false} ExampleSum()
    ensures Sum(ExampleSpreads) == 6.6
  {
    assert ExampleSpreads == [0.2, 0.4, 0.5] + [0.6, 0.7, 0.7] + [0.9, 0.9, 0.6] + [0.5, 0.4, 0.2];
    SumFour([0.2, 0.4, 0.5], [0.6, 0.7, 0.7], [0.9, 0.9, 0.6], [0.5, 0.4, 0.2]);
    SumThree(0.2, 0.4, 0.5);
    SumThree(0.6, 0.7, 0.7);
    SumThree(0.9, 0.9, 0.6);
    SumThree(0.5, 0.4, 0.2);
  }

  /** The spreads of the worked example average to 0.55. */
  lemma {:induction false} ExampleMean()
    ensures Mean(ExampleSpreads) == 11.0 / 20.0
  {
    ExampleSum();
    assert |ExampleSpreads| as real == 12.0;
  }

  /** Three groups concatenate to their scores, in group order. */
  lemma ConcatenateArrays(a: seq<int>, b: seq<int>, c: seq<int>)
    ensures Concatenate(Arrays(a, b, c)) == a + b + c
    ensures ConcatenatedType(Arrays(a, b, c)) == IntegerDType
  {
    var gc := [Container(NdArray, IntegerDType, c)];
    var gb := [Container(NdArray, IntegerDType, b)] + gc;
    assert Arrays(a, b, c) == [Container(NdArray, IntegerDType, a)] + gb;
    assert Concatenate(gc) == c + Concatenate([]);
    assert Concatenate(gb) == b + c;
  }

  /** The worked example's scores range from 76 to 88. */
  lemma ExampleRange(a: seq<int>, b: seq<int>, c: seq<int>)
    requires ExampleScores(a, b, c)
    ensures Smallest(a + b + c) == 76 && Largest(a + b + c) == 88
  {
    SmallestOf(a + b + c, 76);
    LargestOf(a + b + c, 88);
  }

  /** The worked example of mean_discard_gap: its twelve thresholds 77, ..., 88 give the
      spreads 0.2, 0.4, 0.5, 0.6, 0.7, 0.7, 0.9, 0.9, 0.6, 0.5, 0.4, 0.2, whose mean is
      0.55 (the documentation prints 1 − 0.55 = 0.45, the higher-is-better form). */
  lemma {:induction false} MdgExample(a: seq<int>, b: seq<int>, c: seq<int>)
    requires ExampleScores(a, b, c)
    ensures MeanDiscardGapOf(Arrays(a, b, c)) == Ok(11.0 / 20.0)
  {
    ConcatenateArrays(a, b, c);
    ExampleRange(a, b, c);
    ExampleSpreadsAll(a, b, c);
    ExampleMean();
    MdgMeanOfSpreads(Arrays(a, b, c), ExampleSpreads);
  }
}
