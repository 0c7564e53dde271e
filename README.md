# QA fairness measures, modelled in Dafny

A model of the fairness measures for biometric quality assessment in
dasec/QA-Fairness-Measures. They summarise how evenly a quality-assessment algorithm
treats demographic groups:

- **Gini coefficient (GC)** of per-group descriptive quality scores, with the small-sample
  correction n / (n − 1). Module `GiniMeasure`, pure.
- **Low-Weighted-Mean (LWM)** score of one group's integer quality scores. Each score is
  weighted by its inverted min-max normalisation against the union of all groups' scores.
  The weights are accumulated in a 101-slot array, which is normalised and dotted with
  the score grid 0..100. Module `LwmMeasure`: an imperative method over an
  `array<real>`, proved against a specification function.
- **Mean-Discard-Gap (MDG)** of a list of groups. For every integer discard threshold from
  the lowest score + 1 up to the highest score, it takes the share of each group's scores
  below the threshold and records the spread (max − min) of those shares. The measure is
  the mean of the recorded spreads. Module `MdgMeasure`: an imperative loop that appends
  to a list, proved against a specification function. Its helpers are in `MdgUtils`,
  which is pure.

Shared modules: `Outcomes` holds the errors and the `Result` type. `Sequences` holds
sums, means, dot products and extrema over finite sequences.

All arithmetic is exact (`real`), and scores are `int`. Every Python exception is an
`Err` value, as is every numpy NaN result (0/0, the mean of an empty array). Python
lists and numpy arrays are told apart by a `Container` value. It carries the runtime
kind (array or plain list) and the dtype numpy gives the values.

The "higher is better" forms are 1 − GC, (1 − GC)³ and 1 − MDG. They are derived from
the measures in the documentation only. The proved bounds show that these forms lie in
[0, 1] too: GC lies in [0, 1] for non-negative scores, and MDG lies in [0, 1] always.

## Model

| member | source | states |
|---|---|---|
| GiniMeasure.GiniCoefficient | src/fairness_measures/fairness_measure_gc.py:44-66 | fewer than two scores is a ValueError; a zero sum (zero denominator) is a ZeroDivisionError; otherwise the corrected ratio equals numerator / (2 · (n − 1) · sum) |
| GiniMeasure.Denominator | src/fairness_measures/fairness_measure_gc.py:54 | 2 · n² · mean(x) equals 2 · n · sum(x) |
| GiniMeasure.CorrectedRatio | src/fairness_measures/fairness_measure_gc.py:60-66 | the raw coefficient times n / (n − 1) is numerator / (2 · (n − 1) · sum) |
| GiniMeasure.NumeratorNonNegative | src/fairness_measures/fairness_measure_gc.py:51 | the sum of absolute pairwise differences is never negative |
| GiniMeasure.GiniAllEqual | src/fairness_measures/fairness_measure_gc.py:51-66 | equal scores give coefficient 0, or a ZeroDivisionError when they are all 0 |
| GiniMeasure.NumeratorPermutation | src/fairness_measures/fairness_measure_gc.py:51 | the pairwise numerator does not depend on the order of the scores |
| GiniMeasure.GiniPermutation | src/fairness_measures/fairness_measure_gc.py:44-66 | the coefficient, including its errors, does not depend on the order of the scores |
| GiniMeasure.NumeratorBound | src/fairness_measures/fairness_measure_gc.py:51 | for non-negative scores the numerator is at most 2 · (n − 1) · sum |
| GiniMeasure.GiniUnitInterval | src/fairness_measures/fairness_measure_gc.py:44-66 | for non-negative scores every successful coefficient lies in [0, 1], so 1 − GC does too |
| GiniMeasure.GiniExample | src/fairness_measures/fairness_measure_gc.py:33-36 | the documented example [35, 95, 89] gives 20/73 (0.27397…) |
| LwmMeasure.Slot | src/fairness_measures/fairness_measure_lwm.py:57 | the accumulator slot of a score: itself when non-negative, otherwise counted from the end, always below 101 |
| LwmMeasure.Weight | src/fairness_measures/fairness_measure_lwm.py:54-56 | the inverted min-max weight is 1 at the minimum, 0 at the maximum, strictly between them inside, and in [0, 1] on the range |
| LwmMeasure.WeightsAt | src/fairness_measures/fairness_measure_lwm.py:53-56 | the i-th weight the loop adds is the inverted min-max weight of the i-th score |
| LwmMeasure.WeightDecreasing | src/fairness_measures/fairness_measure_lwm.py:54-56 | a higher score never gets a higher weight |
| LwmMeasure.LowWeightedMeanScore | src/fairness_measures/fairness_measure_lwm.py:44-66 | the in-place accumulation, normalisation and grid dot product yield exactly the weighted mean of the scores' slots, with errors in source order: an empty union, a zero score range, a score that is no index, a zero total weight |
| LwmMeasure.EmbeddingSlot | src/fairness_measures/fairness_measure_lwm.py:53-57 | slot v of the accumulator holds the total weight of exactly the scores whose slot is v: each score adds only to its own slot |
| LwmMeasure.EmbeddingTotal | src/fairness_measures/fairness_measure_lwm.py:53-60 | the accumulator's total is the sum of the weights |
| LwmMeasure.EmbeddingMoment | src/fairness_measures/fairness_measure_lwm.py:53-66 | the grid dotted with the accumulator is the weighted sum of the scores' slots |
| LwmMeasure.NormalizedSumsToOne | src/fairness_measures/fairness_measure_lwm.py:60 | the normalised accumulator sums to 1 |
| LwmMeasure.WithinUnionRange | src/fairness_measures/fairness_measure_lwm.py:50 | every score of a group drawn from the union lies between min(QD) and max(QD) |
| LwmMeasure.LwmWithinWeightedScores | src/fairness_measures/fairness_measure_lwm.py:53-66 | the LWM score lies between any bounds of the group's scores that get a positive weight (those below max(QD)) |
| LwmMeasure.LwmDefined | src/fairness_measures/fairness_measure_lwm.py:53-60 | for a group within the union, the score is defined exactly when some score lies below max(QD) |
| LwmMeasure.LwmLowGroupExample | src/fairness_measures/fairness_measure_lwm.py:32-36 | the documented group [1, 2, 3] against [1..6] gives 11/6 |
| LwmMeasure.LwmHighGroupExample | src/fairness_measures/fairness_measure_lwm.py:32-39 | the documented group [4, 5, 6] against [1..6] gives 13/3 |
| LwmMeasure.LwmGiniExample | src/fairness_measures/fairness_measure_lwm.py:41-42 | the Gini coefficient of the two LWM scores is 15/37, so 1 − GC = 22/37 (0.59459…) |
| MdgUtils.CountBelowExtremes | src/utils/mdg_utils.py:14 | no score is discarded exactly when all lie at or above the threshold, and all are discarded exactly when all lie below it |
| MdgUtils.DiscardRatio | src/utils/mdg_utils.py:14 | the ratio lies in [0, 1] and times the group size gives the number of scores below the threshold |
| MdgUtils.DiscardPercentage | src/utils/mdg_utils.py:9-15 | a TypeError exactly for a non-array, NaN exactly for an empty array, otherwise a share in [0, 1] |
| MdgUtils.CountBelowMonotone | src/utils/mdg_utils.py:14 | a higher threshold never discards fewer scores |
| MdgUtils.DiscardRatioMonotone | src/utils/mdg_utils.py:14 | a higher threshold never discards a smaller share |
| MdgUtils.DiscardRatioExtremes | src/utils/mdg_utils.py:14 | a threshold at or below the minimum discards nothing, one above the maximum discards everything |
| MdgUtils.CountBelowSorted | src/utils/mdg_utils.py:14 | in sorted scores, the count below a threshold is the position where the threshold fits |
| MdgUtils.MinMaxDistance | src/utils/mdg_utils.py:18-26 | a TypeError exactly for a non-list, a ValueError exactly for an empty list, otherwise a non-negative spread |
| MdgUtils.MinMaxDistanceZero | src/utils/mdg_utils.py:26 | the spread is 0 exactly when all values are equal |
| MdgUtils.MinMaxDistanceUnit | src/utils/mdg_utils.py:26 | values in [0, 1] have a spread of at most 1 |
| MdgUtils.EnforceIntegerQualityScores | src/utils/mdg_utils.py:29-37 | passes exactly for an integer-dtype array; a float array is a TypeError, and a plain list (no dtype) an AttributeError |
| MdgMeasure.DiscardPercentagesSpec | src/fairness_measures/fairness_measure_mdg.py:47-49 | one percentage per group in group order; a TypeError exactly when some group is no array, success exactly when every group succeeds |
| MdgMeasure.SpreadUnit | src/fairness_measures/fairness_measure_mdg.py:47-50 | the spread at any threshold lies in [0, 1] |
| MdgMeasure.SpreadOfExtremeGroups | src/fairness_measures/fairness_measure_mdg.py:47-50 | the spread is the gap between the group discarding the largest share and the one discarding the smallest |
| MdgMeasure.SweepThresholds | src/fairness_measures/fairness_measure_mdg.py:44-51 | the loop appends the spreads of thresholds lo + 1, …, hi in order, and stops at the first failure |
| MdgMeasure.SweepOk | src/fairness_measures/fairness_measure_mdg.py:46-51 | the loop completes exactly when every threshold's spread succeeds |
| MdgMeasure.SweepValues | src/fairness_measures/fairness_measure_mdg.py:46-51 | the k-th recorded distance is the spread at threshold lo + 1 + k |
| MdgMeasure.MeanDiscardGap | src/fairness_measures/fairness_measure_mdg.py:37-54 | the method computes the specification: a ValueError for no groups or no scores, the dtype check first, NaN when no threshold is swept, otherwise the mean of the sweep |
| MdgMeasure.MdgSweep | src/fairness_measures/fairness_measure_mdg.py:37-53 | a successful measure has passed every check, has min < max, and its sweep succeeded |
| MdgMeasure.MdgSucceeds | src/fairness_measures/fairness_measure_mdg.py:44-53 | a successful measure has a successful spread at every threshold in (min, max] |
| MdgMeasure.MdgMeanOfSpreads | src/fairness_measures/fairness_measure_mdg.py:44-53 | conversely, given checks passed and spreads at all thresholds, the measure is their mean in threshold order |
| MdgMeasure.MdgUnitInterval | src/fairness_measures/fairness_measure_mdg.py:37-53 | every successful measure lies in [0, 1], so 1 − MDG does too |
| MdgMeasure.MdgIdenticalGroups | src/fairness_measures/fairness_measure_mdg.py:37-53 | groups with identical scores have measure 0 whenever it is defined |
| MdgMeasure.MdgFloatGroup | src/fairness_measures/fairness_measure_mdg.py:37-39 | a float-typed group makes the concatenation float-typed: a TypeError |
| MdgMeasure.MdgSingleScore | src/fairness_measures/fairness_measure_mdg.py:40-53 | when every score is the same there is no threshold, and the mean of nothing is NaN |
| MdgMeasure.MdgFirstThresholdFails | src/fairness_measures/fairness_measure_mdg.py:46-51 | a failure at the first threshold is the measure's result |
| MdgMeasure.MdgNonArrayGroup | src/fairness_measures/fairness_measure_mdg.py:47-49 | when at least one threshold is swept (min < max) and the concatenation is integer-typed, a group that is no array, wherever it sits, makes the measure a TypeError |
| MdgMeasure.MdgEmptyGroup | src/fairness_measures/fairness_measure_mdg.py:47-49 | when at least one threshold is swept, an empty integer-dtype array among arrays makes the measure NaN (an empty float array fails the dtype check instead) |
| MdgMeasure.ConcatenateArrays | src/fairness_measures/fairness_measure_mdg.py:37 | three integer arrays concatenate to their scores in group order, with integer dtype |
| MdgMeasure.ExampleSpreadsAll | src/fairness_measures/fairness_measure_mdg.py:26-32 | the documented groups have spreads 0.2, 0.4, 0.5, 0.6, 0.7, 0.7, 0.9, 0.9, 0.6, 0.5, 0.4, 0.2 at thresholds 77…88 |
| MdgMeasure.MdgExample | src/fairness_measures/fairness_measure_mdg.py:26-35 | the documented groups have MDG 11/20, so 1 − MDG = 0.45 as printed |

## Left out

- Floating-point rounding: all values are exact reals. The documented outputs (0.27397…, 1.8333333333333335, 0.44999999999999996) are their exact rational values here.
- NaN is the error value `NotANumber`, not a float. numpy's RuntimeWarning is not modelled.
- MdgMeasure.MeanDiscardGap, MdgMeasure.MdgEmptyGroup: Python's max and min of a list holding NaN depend on where the NaN sits: a NaN that is not first is skipped by the comparisons. The model reports NaN for an empty integer array in any position. For the integer arrays [1, 2] and [] the source sweeps threshold 2, finds max = min = 0.5 over [0.5, NaN] and returns 0.0; the model returns NaN.
- Values of a float-dtype array are still integers in the MDG model. The dtype tag alone decides the integer check, which rejects such arrays before any value is used.
- LwmMeasure.LowWeightedMeanScore: a zero score range (every score of QD equal) follows plain-list semantics: Python's int division raises ZeroDivisionError at the first group score. When QD or Qdi holds numpy integers (QD built with np.concatenate, as in the documented call, or Qdi given as an array), the subtraction and division at fairness_measure_lwm.py:54-56 are numpy operations. The division then gives NaN or ±inf with a warning instead, the loop goes on, and the normalisation yields NaN, unless a later score is no index and raises IndexError first. The model does not capture that numpy case.
- Gini inputs given as plain lists or arrays are both sequences. The source does not check their container type, and for the Gini coefficient the type does not change the result.
- The documentation of low_weighted_mean_score calls it with a single list argument. That call would raise a TypeError. The examples are modelled with the two arguments the function takes.
- The higher-is-better forms (1 − GC, (1 − GC)³, 1 − MDG) exist only in the documentation and are not separate members.
- MdgUtils.DiscardPercentage: the source's default threshold of 50 is not modelled. The only caller, mean_discard_gap, always passes the threshold explicitly.
- Integer widths: numpy's integer dtypes are unbounded integers here. No overflow is modelled.
- Type errors of Python itself (a non-numeric score) are outside the model, whose scores are typed.
- LwmMeasure.LowWeightedMeanScore: a float score is rejected by numpy as an index of the accumulator with an IndexError. The model's scores are integers, so that case does not arise.
