/** Expanding walk-forward folds that purge by label interval. */
module WalkForward {
  import opened Sampling
  import opened Wrappers

  datatype Plan = Plan(samples: Samples, splits: int, minimumTrain: int)

  function Count(p: Plan): nat { |p.samples.predictions| }

  predicate Parameters(p: Plan) {
    && |p.samples.labelEnds| == Count(p) && p.minimumTrain > 0 && Count(p) > p.minimumTrain
    && 1 <= p.splits <= Count(p) - p.minimumTrain && p.samples.embargo >= 0
  }

  lemma BlocksFit(room: int, splits: int, size: int)
    requires splits >= 1 && room >= splits && size == room / splits
    ensures size >= 1 && splits * size <= room
  {}

  lemma MoreBlocks(a: int, b: int, size: int)
    requires a <= b && size >= 0
    ensures a * size <= b * size
  {}

  lemma OneMoreBlock(a: int, size: int)
    ensures (a + 1) * size == a * size + size
  {}

  function TestSize(p: Plan): (size: int)
    requires Parameters(p)
    ensures size >= 1
  {
    var size := (Count(p) - p.minimumTrain) / p.splits;
    if size < 1 then 1 else size
  }

  function TestStart(p: Plan, split: nat): (start: int)
    requires Parameters(p)
    ensures start >= p.minimumTrain
  {
    MoreBlocks(0, split, TestSize(p));
    p.minimumTrain + split * TestSize(p)
  }

  /** The last block takes the remainder. */
  function TestEnd(p: Plan, split: nat): (end: int)
    requires Parameters(p)
    ensures end <= Count(p)
  {
    var next := TestStart(p, split) + TestSize(p);
    if split == p.splits - 1 || Count(p) < next then Count(p) else next
  }

  predicate Trainable(x: Samples, start: int, i: int) {
    && 0 <= i < |x.predictions| == |x.labelEnds| && 0 <= start < |x.predictions|
    && i !in x.locked
    && x.predictions[i] < x.predictions[start] - x.embargo
    && x.labelEnds[i] < x.predictions[start]
  }

  /** The indices below `high` that may train for a test fold whose first sample is `start`. */
  function Training(x: Samples, high: int, start: int): (r: seq<int>)
    ensures Ascending(r) && forall i :: i in r <==> i < high && Trainable(x, start, i)
    decreases high
  {
    if high <= 0 then []
    else
      var before := Training(x, high - 1, start);
      assert forall m | 0 <= m < |before| :: before[m] in before;
      before + if Trainable(x, start, high - 1) then [high - 1] else []
  }

  function TestFold(p: Plan, split: nat): (r: seq<int>)
    requires Parameters(p)
    ensures forall m | 0 <= m < |r| :: p.minimumTrain <= r[m] < Count(p)
  {
    var r := Unlocked(p.samples, TestStart(p, split), TestEnd(p, split));
    assert forall m | 0 <= m < |r| :: r[m] in r;
    r
  }

  function TrainFold(p: Plan, split: nat): seq<int>
    requires Parameters(p)
  {
    if TestFold(p, split) == [] then []
    else Training(p.samples, TestStart(p, split), TestFold(p, split)[0])
  }

  /** Why a split cannot be built, if it cannot. */
  function SplitFault(p: Plan, split: nat): Option<FoldError>
    requires Parameters(p)
  {
    if TestFold(p, split) == [] then Some(EmptyTest)
    else if TrainFold(p, split) == [] then Some(EmptyTrain)
    else None
  }

  function SplitFold(p: Plan, split: nat): Fold
    requires Parameters(p)
  {
    Fold(TrainFold(p, split), TestFold(p, split))
  }

  ghost predicate BuiltTo(p: Plan, split: nat)
    requires Parameters(p)
  {
    forall s | 0 <= s < split :: SplitFault(p, s).None?
  }

  ghost predicate Buildable(p: Plan) {
    Parameters(p) && SampleFault(p.samples).None? && p.splits >= 0 && BuiltTo(p, p.splits)
  }

  /** The error of the first split that cannot be built. */
  ghost predicate FirstFault(p: Plan, e: FoldError)
    requires Parameters(p)
  {
    exists s | 0 <= s < p.splits :: SplitFault(p, s) == Some(e) && BuiltTo(p, s)
  }

  /** One fold per split, or the first thing that stands in the way. */
  method IntervalPurgedWalkForward(p: Plan) returns (r: Result<seq<Fold>, FoldError>)
    ensures r.Ok? <==> Buildable(p)
    ensures r.Ok? ==> |r.value| == p.splits && forall s | 0 <= s < p.splits :: r.value[s] == SplitFold(p, s)
    ensures !Parameters(p) ==> r == Err(BadParameters)
    ensures Parameters(p) && SampleFault(p.samples).Some? ==> r == Err(SampleFault(p.samples).value)
    ensures Parameters(p) && SampleFault(p.samples).None? && r.Err? ==> FirstFault(p, r.error)
  {
    hide *;
    Checks(p);
    if !Parameters(p) { return Err(BadParameters); }
    if !Increasing(p.samples) { return Err(NotIncreasing); }
    if !LabelsFollow(p.samples) { return Err(LabelBeforePrediction); }
    if !HoldoutInRange(p.samples) { return Err(HoldoutOutOfRange); }
    var folds: seq<Fold> := [];
    for split := 0 to p.splits
      invariant |folds| == split && BuiltTo(p, split)
      invariant forall s | 0 <= s < split :: folds[s] == SplitFold(p, s)
    {
      var start, end := TestStart(p, split), TestEnd(p, split);
      var test := Unlocked(p.samples, start, end);
      NextSplit(p, split);
      SplitParts(p, split);
      if test == [] { return Err(EmptyTest); }
      var train := Training(p.samples, start, test[0]);
      if train == [] { return Err(EmptyTrain); }
      folds := folds + [Fold(train, test)];
    }
    r := Ok(folds);
  }

  lemma Checks(p: Plan)
    ensures Parameters(p) ==> p.splits >= 0 && BuiltTo(p, 0)
    ensures Buildable(p) <==> Parameters(p) && SampleFault(p.samples).None? && BuiltTo(p, p.splits)
    ensures SampleFault(p.samples) ==
              if !Increasing(p.samples) then Some(NotIncreasing)
              else if !LabelsFollow(p.samples) then Some(LabelBeforePrediction)
              else if !HoldoutInRange(p.samples) then Some(HoldoutOutOfRange)
              else None
  {}

  lemma SplitParts(p: Plan, split: nat)
    requires Parameters(p)
    ensures var test := Unlocked(p.samples, TestStart(p, split), TestEnd(p, split));
            if test == [] then SplitFault(p, split) == Some(EmptyTest)
            else
              var train := Training(p.samples, TestStart(p, split), test[0]);
              if train == [] then SplitFault(p, split) == Some(EmptyTrain)
              else SplitFault(p, split).None? && SplitFold(p, split) == Fold(train, test)
  {}

  lemma NextSplit(p: Plan, split: nat)
    requires Parameters(p) && split < p.splits && BuiltTo(p, split)
    ensures SplitFault(p, split).Some? ==> FirstFault(p, SplitFault(p, split).value) && !BuiltTo(p, p.splits)
    ensures SplitFault(p, split).None? ==> BuiltTo(p, split + 1)
  {
    hide Parameters, SplitFault;
  }

  // ------------------------------------------------------------ what the folds are

  /** The blocks meet end to end and reach the last sample. */
  lemma BlocksMeet(p: Plan, split: nat)
    requires Parameters(p) && split < p.splits
    ensures p.minimumTrain <= TestStart(p, split) < TestEnd(p, split) <= Count(p)
    ensures split == 0 ==> TestStart(p, split) == p.minimumTrain
    ensures split + 1 < p.splits ==> TestEnd(p, split) == TestStart(p, split + 1)
    ensures split + 1 == p.splits ==> TestEnd(p, split) == Count(p)
  {
    var room := Count(p) - p.minimumTrain;
    var size := TestSize(p);
    BlocksFit(room, p.splits, room / p.splits);
    MoreBlocks(split + 1, p.splits, size);
    OneMoreBlock(split, size);
    assert TestStart(p, split + 1) == p.minimumTrain + (split + 1) * size;
  }

  /** The room after the minimum training size is shared evenly, the last block taking what is
      left over. */
  lemma BlockSizes(p: Plan, split: nat)
    requires Parameters(p) && split < p.splits
    ensures var room := Count(p) - p.minimumTrain;
            TestEnd(p, split) - TestStart(p, split)
            == room / p.splits + (if split == p.splits - 1 then room % p.splits else 0)
  {
    var room := Count(p) - p.minimumTrain;
    BlocksFit(room, p.splits, room / p.splits);
    BlocksMeet(p, split);
    MoreBlocks(split + 1, p.splits, room / p.splits);
    OneMoreBlock(split, room / p.splits);
    if split == p.splits - 1 { Remainder(room, p.splits); }
  }

  lemma Remainder(room: int, splits: int)
    requires splits >= 1
    ensures splits * (room / splits) + room % splits == room
  {}

  lemma {:induction false} BlocksOrdered(p: Plan, s: nat, t: nat)
    requires Parameters(p) && s < t < p.splits
    ensures TestEnd(p, s) <= TestStart(p, t)
    decreases t
  {
    hide TestStart, TestEnd;
    BlocksMeet(p, s);
    BlocksMeet(p, t - 1);
    if s < t - 1 { BlocksOrdered(p, s, t - 1); }
  }

  lemma {:induction false} BlockOf(p: Plan, i: int, split: nat) returns (s: nat)
    requires Parameters(p) && split < p.splits && p.minimumTrain <= i < TestEnd(p, split)
    ensures s < p.splits && TestStart(p, s) <= i < TestEnd(p, s)
    decreases split
  {
    hide TestStart, TestEnd;
    BlocksMeet(p, split);
    if TestStart(p, split) <= i {
      s := split;
    } else {
      BlocksMeet(p, split - 1);
      s := BlockOf(p, i, split - 1);
    }
  }

  lemma TestMember(p: Plan, s: nat, i: int)
    requires Parameters(p)
    ensures i in TestFold(p, s) <==> TestStart(p, s) <= i < TestEnd(p, s) && i !in p.samples.locked
  {}

  /** Together the test folds are exactly the unlocked indices from the minimum training size
      on. */
  lemma TestFoldsCover(p: Plan, i: int)
    requires Parameters(p)
    ensures (exists s :: 0 <= s < p.splits && i in TestFold(p, s))
              <==> (p.minimumTrain <= i < Count(p) && i !in p.samples.locked)
  {
    hide TestStart, TestEnd, TestFold;
    if s: nat :| s < p.splits && i in TestFold(p, s) {
      TestMember(p, s, i);
      BlocksMeet(p, s);
    }
    if p.minimumTrain <= i < Count(p) && i !in p.samples.locked {
      BlocksMeet(p, p.splits - 1);
      var s := BlockOf(p, i, p.splits - 1);
      TestMember(p, s, i);
    }
  }

  /** Test folds are disjoint and follow one another in time. */
  lemma TestFoldsOrdered(p: Plan, s: nat, t: nat, i: int, j: int)
    requires Parameters(p) && s < t < p.splits && i in TestFold(p, s) && j in TestFold(p, t)
    ensures i < j
  {
    hide TestStart, TestEnd, TestFold;
    TestMember(p, s, i);
    TestMember(p, t, j);
    BlocksOrdered(p, s, t);
  }

  lemma FirstTest(p: Plan, s: nat)
    requires Parameters(p) && TestFold(p, s) != []
    ensures TestStart(p, s) <= TestFold(p, s)[0] < TestEnd(p, s)
    ensures forall j | j in TestFold(p, s) :: TestFold(p, s)[0] <= j < Count(p)
  {
    hide TestStart, TestEnd;
    var test := TestFold(p, s);
    assert test[0] in test;
    forall j | j in test ensures test[0] <= j < Count(p) {
      var m :| 0 <= m < |test| && test[m] == j;
    }
  }

  lemma TrainMember(p: Plan, s: nat, i: int)
    requires Parameters(p) && TestFold(p, s) != []
    ensures i in TrainFold(p, s) <==> i < TestStart(p, s) && Trainable(p.samples, TestFold(p, s)[0], i)
  {}

  /** Nothing leaks forward: a training sample precedes the embargo before the first test
      prediction, its label ends before any test prediction is made, and it overlaps no test
      interval. No earlier unlocked sample that precedes the embargo and overlaps no test
      interval is dropped. */
  lemma TrainingIsExactlyTheClearPast(p: Plan, s: nat, i: int)
    requires Parameters(p) && WellFormed(p.samples) && TestFold(p, s) != []
    requires 0 <= i < TestStart(p, s) && i < Count(p) && i !in p.samples.locked
    ensures var x, test := p.samples, TestFold(p, s);
            && (i in TrainFold(p, s) <==> (
                  && x.predictions[i] < x.predictions[test[0]] - x.embargo
                  && forall j | j in test :: !Overlap(x, i, j)))
            && (i in TrainFold(p, s) ==> forall j | j in test :: x.labelEnds[i] < x.predictions[j])
  {
    hide TestStart, TestEnd, TestFold, TrainFold, Increasing, Overlap;
    FirstTest(p, s);
    TrainMember(p, s, i);
    var x, test := p.samples, TestFold(p, s);
    var first := test[0];
    assert first in test;
    LaterPredictions(x, i, first);
    OverlapIff(x, i, first);
    forall j | j in test
      ensures x.labelEnds[i] < x.predictions[first] ==> !Overlap(x, i, j) && x.labelEnds[i] < x.predictions[j]
    {
      OverlapIff(x, i, j);
      if first < j { LaterPredictions(x, first, j); }
    }
  }

  lemma OnlyUnlockedPastTrains(p: Plan, s: nat, i: int)
    requires Parameters(p) && i in TrainFold(p, s)
    ensures 0 <= i < TestStart(p, s) && i < Count(p) && i !in p.samples.locked
  {}

  /** Training folds only grow from one split to the next. */
  lemma TrainingNested(p: Plan, s: nat, t: nat, i: int)
    requires Buildable(p) && s < t < p.splits && i in TrainFold(p, s)
    ensures i in TrainFold(p, t)
  {
    BothBuilt(p, s, t);
    hide TestStart, TestEnd, TestFold, TrainFold, Increasing, LabelsFollow, Buildable;
    FirstTest(p, s);
    FirstTest(p, t);
    BlocksOrdered(p, s, t);
    TrainMember(p, s, i);
    TrainMember(p, t, i);
    var a, b := TestFold(p, s)[0], TestFold(p, t)[0];
    LaterPredictions(p.samples, a, b);
  }

  lemma BothBuilt(p: Plan, s: nat, t: nat)
    requires Buildable(p) && s < p.splits && t < p.splits
    ensures TestFold(p, s) != [] && TestFold(p, t) != [] && WellFormed(p.samples)
  {
    assert SplitFault(p, s).None? && SplitFault(p, t).None?;
  }

  /** Lengthening the embargo leaves the tests alone and can only remove training samples. */
  lemma LongerEmbargo(p: Plan, s: nat, longer: int, i: int)
    requires Parameters(p) && longer >= p.samples.embargo
    ensures var q := p.(samples := p.samples.(embargo := longer));
            && Parameters(q) && TestFold(q, s) == TestFold(p, s)
            && (i in TrainFold(q, s) ==> i in TrainFold(p, s))
  {
    hide TestStart, TestEnd, TestFold, TrainFold;
    var q := p.(samples := p.samples.(embargo := longer));
    SameTests(p, q, s);
    if TestFold(p, s) == [] {
      NothingTrains(q, s);
    } else {
      TrainMember(p, s, i);
      TrainMember(q, s, i);
    }
  }

  lemma SameTests(p: Plan, q: Plan, s: nat)
    requires Parameters(p) && Parameters(q) && q == p.(samples := p.samples.(embargo := q.samples.embargo))
    ensures TestStart(q, s) == TestStart(p, s) && TestFold(q, s) == TestFold(p, s)
  {
    SameUnlocked(p.samples, q.samples, TestStart(p, s), TestEnd(p, s));
  }

  lemma NothingTrains(p: Plan, s: nat)
    requires Parameters(p) && TestFold(p, s) == []
    ensures TrainFold(p, s) == []
  {}

  lemma {:induction false} SameUnlocked(x: Samples, y: Samples, low: int, high: int)
    requires x.locked == y.locked
    ensures Unlocked(x, low, high) == Unlocked(y, low, high)
    decreases high - low
  {
    if low < high { SameUnlocked(x, y, low, high - 1); }
  }
}
