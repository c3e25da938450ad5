/** Samples whose labels cover an interval of time, and the indices a fold may use. */
module Sampling {
  import opened Wrappers

  /** Times and embargo in one unit of time; `locked` is the final holdout. */
  datatype Samples = Samples(predictions: seq<int>, labelEnds: seq<int>, embargo: int, locked: set<int>)

  datatype Fold = Fold(train: seq<int>, test: seq<int>)

  datatype FoldError =
    | BadParameters | NotIncreasing | LabelBeforePrediction | HoldoutOutOfRange
    | EmptyTest | EmptyTrain | NoFolds

  predicate Increasing(x: Samples) {
    forall i | 0 < i < |x.predictions| :: x.predictions[i - 1] < x.predictions[i]
  }

  predicate LabelsFollow(x: Samples) {
    |x.labelEnds| == |x.predictions| && forall i | 0 <= i < |x.predictions| :: x.predictions[i] <= x.labelEnds[i]
  }

  predicate HoldoutInRange(x: Samples) { forall i | i in x.locked :: 0 <= i < |x.predictions| }

  /** The checks both builders make on the samples, in order. */
  function SampleFault(x: Samples): Option<FoldError> {
    if !Increasing(x) then Some(NotIncreasing)
    else if !LabelsFollow(x) then Some(LabelBeforePrediction)
    else if !HoldoutInRange(x) then Some(HoldoutOutOfRange)
    else None
  }

  ghost predicate WellFormed(x: Samples) { Increasing(x) && LabelsFollow(x) && HoldoutInRange(x) }

  lemma {:induction false} LaterPredictions(x: Samples, i: int, j: int)
    requires Increasing(x) && 0 <= i < j < |x.predictions|
    ensures x.predictions[i] < x.predictions[j]
    decreases j
  {
    if i < j - 1 { LaterPredictions(x, i, j - 1); }
  }

  ghost predicate Ascending(s: seq<int>) { forall i, j | 0 <= i < j < |s| :: s[i] < s[j] }

  /** The unlocked indices from `low` up to `high`. */
  function Unlocked(x: Samples, low: int, high: int): (r: seq<int>)
    ensures Ascending(r) && forall i :: i in r <==> low <= i < high && i !in x.locked
    decreases high - low
  {
    if high <= low then []
    else
      var before := Unlocked(x, low, high - 1);
      assert forall m | 0 <= m < |before| :: before[m] in before;
      before + if high - 1 in x.locked then [] else [high - 1]
  }

  /** Instant `t` falls in the inclusive label interval of sample `i`. */
  ghost predicate Covers(x: Samples, i: int, t: int)
    requires 0 <= i < |x.predictions| == |x.labelEnds|
  {
    x.predictions[i] <= t <= x.labelEnds[i]
  }

  /** Whether the inclusive label intervals of two samples have an instant in common. */
  ghost predicate Overlap(x: Samples, i: int, j: int)
    requires 0 <= i < |x.predictions| == |x.labelEnds| && 0 <= j < |x.predictions|
  {
    exists t :: Covers(x, i, t) && Covers(x, j, t)
  }

  lemma OverlapIff(x: Samples, i: int, j: int)
    requires WellFormed(x) && 0 <= i < |x.predictions| && 0 <= j < |x.predictions|
    ensures Overlap(x, i, j) <==> x.predictions[j] <= x.labelEnds[i] && x.predictions[i] <= x.labelEnds[j]
  {
    if x.predictions[j] <= x.labelEnds[i] && x.predictions[i] <= x.labelEnds[j] {
      var t := if x.predictions[i] <= x.predictions[j] then x.predictions[j] else x.predictions[i];
      assert Covers(x, i, t) && Covers(x, j, t);
    }
  }
}
