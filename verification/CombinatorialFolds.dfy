/** Combinatorial purged cross-validation: every choice of test groups, each training sample
    denied to a fold whose test intervals, extended by the embargo, it touches. */
module CombinatorialFolds {
  import opened Sampling
  import opened Wrappers

  // ---------------------------------------------------------------- combinations

  function Prefixed(first: nat, rest: seq<seq<nat>>): seq<seq<nat>> {
    if rest == [] then [] else [[first] + rest[0]] + Prefixed(first, rest[1..])
  }

  /** Every ascending choice of `size` numbers from `low` up to `high`, in lexicographic order. */
  function Combinations(low: nat, high: nat, size: nat): seq<seq<nat>>
    decreases high - low
  {
    if size == 0 then [[]]
    else if low >= high then []
    else Prefixed(low, Combinations(low + 1, high, size - 1)) + Combinations(low + 1, high, size)
  }

  /** The binomial coefficient by Pascal's rule, zero outside the triangle. */
  function Binomial(n: int, k: int): nat
    decreases n
  {
    if k < 0 || n < 0 then 0
    else if k == 0 then 1
    else Binomial(n - 1, k - 1) + Binomial(n - 1, k)
  }

  /** How many of the choices contain `g`. */
  function Containing(choices: seq<seq<nat>>, g: nat): nat {
    if choices == [] then 0 else (if g in choices[0] then 1 else 0) + Containing(choices[1..], g)
  }

  lemma {:induction false} ContainingAppend(a: seq<seq<nat>>, b: seq<seq<nat>>, g: nat)
    ensures Containing(a + b, g) == Containing(a, g) + Containing(b, g)
  {
    if a == [] {
      assert a + b == b;
    } else {
      assert (a + b)[1..] == a[1..] + b;
      ContainingAppend(a[1..], b, g);
    }
  }

  lemma {:induction false} ContainingPrefixed(first: nat, rest: seq<seq<nat>>, g: nat)
    ensures |Prefixed(first, rest)| == |rest|
    ensures Containing(Prefixed(first, rest), g) == if g == first then |rest| else Containing(rest, g)
  {
    if rest != [] {
      ContainingPrefixed(first, rest[1..], g);
      assert Prefixed(first, rest)[1..] == Prefixed(first, rest[1..]);
    }
  }

  lemma {:induction false} CombinationCount(low: nat, high: nat, size: nat)
    requires low <= high
    ensures |Combinations(low, high, size)| == Binomial(high - low, size)
    decreases high - low
  {
    if size > 0 && low < high {
      CombinationCount(low + 1, high, size - 1);
      CombinationCount(low + 1, high, size);
      ContainingPrefixed(low, Combinations(low + 1, high, size - 1), low);
    }
  }

  /** Each number is chosen in as many combinations as there are ways to choose the others. */
  lemma {:induction false} ChosenEquallyOften(low: nat, high: nat, size: nat, g: nat)
    requires low <= high
    ensures Containing(Combinations(low, high, size), g) ==
              if low <= g < high then Binomial(high - low - 1, size - 1) else 0
    decreases high - low
  {
    hide Containing, Prefixed, Binomial, Combinations;
    CombinationsStep(low, high, size);
    if size == 0 {
      ContainingNothing(g);
      BinomialOutside(high - low - 1, -1);
    } else if low >= high {
      ContainingNothing(g);
    } else {
      var with, without := Combinations(low + 1, high, size - 1), Combinations(low + 1, high, size);
      ChosenEquallyOften(low + 1, high, size - 1, g);
      ChosenEquallyOften(low + 1, high, size, g);
      ContainingAppend(Prefixed(low, with), without, g);
      ContainingPrefixed(low, with, g);
      CombinationCount(low + 1, high, size - 1);
      if low < g < high { Pascal(high - low - 1, size - 1); }
    }
  }

  lemma CombinationsStep(low: nat, high: nat, size: nat)
    ensures Combinations(low, high, size) ==
              if size == 0 then [[]]
              else if low >= high then []
              else Prefixed(low, Combinations(low + 1, high, size - 1)) + Combinations(low + 1, high, size)
  {}

  lemma ContainingNothing(g: nat)
    ensures Containing([], g) == 0 && Containing([[]], g) == 0
  {}

  lemma BinomialOutside(n: int, k: int)
    requires k < 0
    ensures Binomial(n, k) == 0
  {}

  lemma Pascal(n: int, k: int)
    requires n >= 1 && k >= 0
    ensures Binomial(n, k) == Binomial(n - 1, k - 1) + Binomial(n - 1, k)
  {}

  ghost predicate Choice(c: seq<nat>, low: nat, high: nat, size: nat) {
    && |c| == size
    && (forall i | 0 <= i < |c| :: low <= c[i] < high)
    && (forall i, j | 0 <= i < j < |c| :: c[i] < c[j])
  }

  lemma {:induction false} PrefixedMembers(first: nat, rest: seq<seq<nat>>, c: seq<nat>)
    ensures c in Prefixed(first, rest) <==> c != [] && c[0] == first && c[1..] in rest
  {
    if rest != [] {
      PrefixedMembers(first, rest[1..], c);
      if c != [] && c[0] == first && c[1..] == rest[0] { assert c == [first] + rest[0]; }
    }
  }

  /** The combinations are exactly the ascending choices. */
  lemma {:induction false} CombinationsAreChoices(low: nat, high: nat, size: nat, c: seq<nat>)
    requires low <= high
    ensures c in Combinations(low, high, size) <==> Choice(c, low, high, size)
    decreases high - low
  {
    hide Choice, Prefixed, Combinations;
    CombinationsStep(low, high, size);
    if size == 0 {
      NoChoice(c, low, high);
    } else {
      if Choice(c, low, high, size) { ChoiceBounds(c, low, high, size); }
      if Choice(c, low + 1, high, size) { ChoiceBounds(c, low + 1, high, size); }
      if low < high {
        PrefixedMembers(low, Combinations(low + 1, high, size - 1), c);
        CombinationsAreChoices(low + 1, high, size, c);
        if c != [] {
          CombinationsAreChoices(low + 1, high, size - 1, c[1..]);
          ChoiceSplit(c, low, high, size);
        }
      }
    }
  }

  lemma ChoiceSplit(c: seq<nat>, low: nat, high: nat, size: nat)
    requires c != [] && size > 0
    ensures Choice(c, low, high, size) <==>
              (c[0] == low && low < high && Choice(c[1..], low + 1, high, size - 1)) || Choice(c, low + 1, high, size)
  {
    hide Choice;
    var rest := c[1..];
    assert c == [c[0]] + rest;
    if Choice(c, low + 1, high, size) { ChoiceBelow(c, low, high, size); }
    if Choice(c, low, high, size) {
      ChoiceBounds(c, low, high, size);
      if c[0] == low { ChoiceTail(c, rest, low, high, size); } else { ChoiceAbove(c, low, high, size); }
    }
    if c[0] == low && low < high && Choice(rest, low + 1, high, size - 1) { ChoiceCons(c, rest, low, high, size); }
  }

  lemma ChoiceTail(c: seq<nat>, rest: seq<nat>, low: nat, high: nat, size: nat)
    requires size > 0 && Choice(c, low, high, size) && c == [low] + rest
    ensures Choice(rest, low + 1, high, size - 1)
  {
    assert forall i | 0 <= i < |rest| :: c[i + 1] == rest[i] && c[0] < c[i + 1];
  }

  lemma ChoiceCons(c: seq<nat>, rest: seq<nat>, low: nat, high: nat, size: nat)
    requires size > 0 && low < high && Choice(rest, low + 1, high, size - 1) && c == [low] + rest
    ensures Choice(c, low, high, size)
  {}

  lemma ChoiceBelow(c: seq<nat>, low: nat, high: nat, size: nat)
    requires Choice(c, low + 1, high, size)
    ensures Choice(c, low, high, size)
  {}

  lemma ChoiceBounds(c: seq<nat>, low: nat, high: nat, size: nat)
    requires Choice(c, low, high, size)
    ensures |c| == size && (c != [] ==> low <= c[0] < high)
  {}

  lemma NoChoice(c: seq<nat>, low: nat, high: nat)
    ensures Choice(c, low, high, 0) <==> c == []
  {}

  lemma ChoiceAbove(c: seq<nat>, low: nat, high: nat, size: nat)
    requires Choice(c, low, high, size) && c != [] && c[0] != low
    ensures Choice(c, low + 1, high, size)
  {}

  /** Lexicographic order of choices of one size. */
  predicate Precedes(a: seq<nat>, b: seq<nat>) {
    a != [] && b != [] && (a[0] < b[0] || (a[0] == b[0] && Precedes(a[1..], b[1..])))
  }

  lemma {:induction false} PrefixedAt(first: nat, rest: seq<seq<nat>>, m: nat)
    requires m < |rest|
    ensures |Prefixed(first, rest)| == |rest| && Prefixed(first, rest)[m] == [first] + rest[m]
  {
    ContainingPrefixed(first, rest, 0);
    if m > 0 { PrefixedAt(first, rest[1..], m - 1); }
  }

  /** They come in lexicographic order, none twice. */
  lemma {:induction false} CombinationsInOrder(low: nat, high: nat, size: nat, a: nat, b: nat)
    requires low <= high && a < b < |Combinations(low, high, size)|
    ensures Precedes(Combinations(low, high, size)[a], Combinations(low, high, size)[b])
    decreases high - low
  {
    hide Combinations, Prefixed;
    CombinationsStep(low, high, size);
    if size > 0 && low < high {
      var with, without := Combinations(low + 1, high, size - 1), Combinations(low + 1, high, size);
      var all, k := Combinations(low, high, size), |with|;
      ContainingPrefixed(low, with, 0);
      if a < k { PrefixedAt(low, with, a); }
      if b < k {
        PrefixedAt(low, with, b);
        CombinationsInOrder(low + 1, high, size - 1, a, b);
      } else {
        assert all[b] == without[b - k] && without[b - k] in without;
        CombinationsAreChoices(low + 1, high, size, all[b]);
        if a >= k { CombinationsInOrder(low + 1, high, size, a - k, b - k); }
      }
    }
  }

  // ---------------------------------------------------------------------- groups

  predicate Parameters(x: Samples, groups: int, testGroups: int) {
    |x.labelEnds| == |x.predictions| && 1 <= testGroups < groups <= |x.predictions| && x.embargo >= 0
  }

  /** The first `n % groups` groups hold one sample more than the others. */
  function GroupSize(n: nat, groups: nat, g: nat): nat
    requires groups > 0
  {
    n / groups + if g < n % groups then 1 else 0
  }

  function GroupStart(n: nat, groups: nat, g: nat): nat
    requires groups > 0
  {
    if g == 0 then 0 else GroupStart(n, groups, g - 1) + GroupSize(n, groups, g - 1)
  }

  lemma {:induction false} GroupStartIs(n: nat, groups: nat, g: nat)
    requires groups > 0
    ensures GroupStart(n, groups, g) == g * (n / groups) + if g < n % groups then g else n % groups
  {
    if g > 0 {
      GroupStartIs(n, groups, g - 1);
      OneMoreShare(g - 1, n / groups);
    }
  }

  lemma OneMoreShare(a: nat, share: nat)
    ensures (a + 1) * share == a * share + share
  {}

  /** The groups end where the samples do. */
  lemma GroupsCover(n: nat, groups: nat)
    requires groups > 0
    ensures GroupStart(n, groups, groups) == n
  {
    GroupStartIs(n, groups, groups);
    assert n == groups * (n / groups) + n % groups;
  }

  lemma {:induction false} GroupsOrdered(n: nat, groups: nat, g: nat, h: nat)
    requires groups > 0 && g <= h
    ensures GroupStart(n, groups, g) <= GroupStart(n, groups, h)
    decreases h
  {
    if g < h { GroupsOrdered(n, groups, g, h - 1); }
  }

  /** The group, among the first `h`, that holds sample `i`. */
  function GroupOf(n: nat, groups: nat, i: nat, h: nat): (g: nat)
    requires groups > 0 && i < GroupStart(n, groups, h)
    ensures g < h && InGroup(n, groups, g, i)
    decreases h
  {
    if GroupStart(n, groups, h - 1) <= i then h - 1 else GroupOf(n, groups, i, h - 1)
  }

  predicate InGroup(n: nat, groups: nat, g: nat, i: int)
    requires groups > 0
  {
    GroupStart(n, groups, g) <= i < GroupStart(n, groups, g + 1)
  }

  lemma OneGroup(n: nat, groups: nat, i: nat, g: nat, h: nat)
    requires groups > 0 && InGroup(n, groups, g, i) && InGroup(n, groups, h, i)
    ensures g == h
  {
    if g < h { GroupsOrdered(n, groups, g + 1, h); } else if h < g { GroupsOrdered(n, groups, h + 1, g); }
  }

  // ----------------------------------------------------------------------- folds

  function UnlockedGroup(x: Samples, groups: nat, g: nat): seq<int>
    requires groups > 0
  {
    Unlocked(x, GroupStart(|x.predictions|, groups, g), GroupStart(|x.predictions|, groups, g + 1))
  }

  /** The unlocked samples of the chosen groups, group by group. */
  function TestOf(x: Samples, groups: nat, choice: seq<nat>): seq<int>
    requires groups > 0
  {
    if choice == [] then [] else UnlockedGroup(x, groups, choice[0]) + TestOf(x, groups, choice[1..])
  }

  /** Sample `i` ends before test sample `j` begins, or begins after it ends and the embargo. */
  predicate Clear(x: Samples, i: int, j: int) {
    && 0 <= i < |x.predictions| == |x.labelEnds| && 0 <= j < |x.predictions|
    && (x.labelEnds[i] < x.predictions[j] || x.predictions[i] > x.labelEnds[j] + x.embargo)
  }

  predicate Trains(x: Samples, test: seq<int>, i: int) {
    i !in x.locked && i !in test && forall m | 0 <= m < |test| :: Clear(x, i, test[m])
  }

  function TrainOf(x: Samples, test: seq<int>, high: int): (r: seq<int>)
    ensures Ascending(r) && forall i :: i in r <==> 0 <= i < high && Trains(x, test, i)
    decreases high
  {
    if high <= 0 then []
    else
      var before := TrainOf(x, test, high - 1);
      assert forall m | 0 <= m < |before| :: before[m] in before;
      before + if Trains(x, test, high - 1) then [high - 1] else []
  }

  function FoldOf(x: Samples, groups: nat, choice: seq<nat>): Fold
    requires groups > 0
  {
    var test := TestOf(x, groups, choice);
    Fold(TrainOf(x, test, |x.predictions|), test)
  }

  /** The folds of the choices that test anything at all. */
  function FoldsOf(x: Samples, groups: nat, choices: seq<seq<nat>>): seq<Fold>
    requires groups > 0
  {
    if choices == [] then []
    else
      var c, before := choices[|choices| - 1], FoldsOf(x, groups, choices[..|choices| - 1]);
      if TestOf(x, groups, c) == [] then before else before + [FoldOf(x, groups, c)]
  }

  /** Some choice tests something but leaves nothing to train on. */
  predicate Starved(x: Samples, groups: nat, choices: seq<seq<nat>>)
    requires groups > 0
  {
    exists m | 0 <= m < |choices| ::
      TestOf(x, groups, choices[m]) != [] && FoldOf(x, groups, choices[m]).train == []
  }

  method IntervalCombinatorialPurgedSplits(x: Samples, groups: int, testGroups: int)
    returns (r: Result<seq<Fold>, FoldError>)
    ensures !Parameters(x, groups, testGroups) ==> r == Err(BadParameters)
    ensures Parameters(x, groups, testGroups) && SampleFault(x).Some? ==> r == Err(SampleFault(x).value)
    ensures Parameters(x, groups, testGroups) && SampleFault(x).None? ==>
              var choices := Combinations(0, groups, testGroups);
              r == if Starved(x, groups, choices) then Err(EmptyTrain)
                   else if FoldsOf(x, groups, choices) == [] then Err(NoFolds)
                   else Ok(FoldsOf(x, groups, choices))
  {
    hide Combinations, TestOf, TrainOf, Increasing, LabelsFollow, HoldoutInRange;
    if !Parameters(x, groups, testGroups) { return Err(BadParameters); }
    if !Increasing(x) { return Err(NotIncreasing); }
    if !LabelsFollow(x) { return Err(LabelBeforePrediction); }
    if !HoldoutInRange(x) { return Err(HoldoutOutOfRange); }
    var choices := Combinations(0, groups, testGroups);
    var folds: seq<Fold> := [];
    for c := 0 to |choices|
      invariant folds == FoldsOf(x, groups, choices[..c])
      invariant !Starved(x, groups, choices[..c])
    {
      assert choices[..c + 1][..c] == choices[..c];
      var test := TestOf(x, groups, choices[c]);
      if test == [] { continue; }
      var train := TrainOf(x, test, |x.predictions|);
      if train == [] { return Err(EmptyTrain); }
      folds := folds + [Fold(train, test)];
    }
    assert choices[..|choices|] == choices;
    if folds == [] { return Err(NoFolds); }
    r := Ok(folds);
  }

  // ----------------------------------------------------------- what the folds are

  lemma {:induction false} TestMembers(x: Samples, groups: nat, choice: seq<nat>, i: int)
    requires groups > 0
    ensures i in TestOf(x, groups, choice) <==>
              (i !in x.locked && exists m :: 0 <= m < |choice| && InGroup(|x.predictions|, groups, choice[m], i))
  {
    hide GroupStart, InGroup;
    var n := |x.predictions|;
    if choice != [] {
      TestMembers(x, groups, choice[1..], i);
      UnlockedGroupMembers(x, groups, choice[0], i);
      if m: nat :| 0 < m < |choice| && InGroup(n, groups, choice[m], i) {
        assert choice[1..][m - 1] == choice[m];
      }
      if m: nat :| m < |choice| - 1 && InGroup(n, groups, choice[1..][m], i) {
        assert choice[m + 1] == choice[1..][m];
      }
    }
  }

  lemma UnlockedGroupMembers(x: Samples, groups: nat, g: nat, i: int)
    requires groups > 0
    ensures i in UnlockedGroup(x, groups, g) <==> InGroup(|x.predictions|, groups, g, i) && i !in x.locked
  {}

  /** An unlocked sample is tested by a choice exactly when its own group is chosen. */
  lemma TestedWithItsGroup(x: Samples, groups: nat, choice: seq<nat>, i: nat)
    requires groups > 0 && i < |x.predictions| && i < GroupStart(|x.predictions|, groups, groups)
    ensures i in TestOf(x, groups, choice) <==>
              i !in x.locked && GroupOf(|x.predictions|, groups, i, groups) in choice
  {
    hide GroupStart, GroupOf, TestOf, InGroup;
    var n, g := |x.predictions|, GroupOf(|x.predictions|, groups, i, groups);
    TestMembers(x, groups, choice, i);
    forall m | 0 <= m < |choice| && InGroup(n, groups, choice[m], i) ensures choice[m] == g {
      OneGroup(n, groups, i, choice[m], g);
    }
  }

  /** How many of the folds test sample `i`. */
  function TimesTested(folds: seq<Fold>, i: int): nat {
    if folds == [] then 0
    else TimesTested(folds[..|folds| - 1], i) + if i in folds[|folds| - 1].test then 1 else 0
  }

  lemma {:induction false} TestedPerChoice(x: Samples, groups: nat, choices: seq<seq<nat>>, i: nat)
    requires groups > 0 && i < |x.predictions| && i !in x.locked && i < GroupStart(|x.predictions|, groups, groups)
    ensures TimesTested(FoldsOf(x, groups, choices), i) ==
              Containing(choices, GroupOf(|x.predictions|, groups, i, groups))
  {
    hide GroupStart, GroupOf, TestOf, TrainOf, FoldsOf, TimesTested, InGroup;
    var g := GroupOf(|x.predictions|, groups, i, groups);
    if choices == [] {
      NothingTested(x, groups, i);
    } else {
      var n := |choices| - 1;
      TestedPerChoice(x, groups, choices[..n], i);
      TestedStep(x, groups, choices, i);
      TestedWithItsGroup(x, groups, choices[n], i);
      ContainingAppend(choices[..n], [choices[n]], g);
      assert choices == choices[..n] + [choices[n]];
    }
  }

  lemma NothingTested(x: Samples, groups: nat, i: int)
    requires groups > 0
    ensures TimesTested(FoldsOf(x, groups, []), i) == 0
  {}

  lemma TestedStep(x: Samples, groups: nat, choices: seq<seq<nat>>, i: int)
    requires groups > 0 && choices != []
    ensures var n := |choices| - 1;
            TimesTested(FoldsOf(x, groups, choices), i) ==
              TimesTested(FoldsOf(x, groups, choices[..n]), i) + if i in TestOf(x, groups, choices[n]) then 1 else 0
  {}

  /** Whenever folds are produced, every unlocked sample is tested in exactly
      C(groups - 1, testGroups - 1) of them. */
  lemma TestedEquallyOften(x: Samples, groups: nat, testGroups: nat, i: nat)
    requires Parameters(x, groups, testGroups) && i < |x.predictions| && i !in x.locked
    ensures TimesTested(FoldsOf(x, groups, Combinations(0, groups, testGroups)), i)
              == Binomial(groups - 1, testGroups - 1)
  {
    hide GroupStart, Combinations, FoldsOf;
    GroupsCover(|x.predictions|, groups);
    TestedPerChoice(x, groups, Combinations(0, groups, testGroups), i);
    ChosenEquallyOften(0, groups, testGroups, GroupOf(|x.predictions|, groups, i, groups));
  }

  lemma {:induction false} FoldOfSomeChoice(x: Samples, groups: nat, choices: seq<seq<nat>>, f: Fold)
    requires groups > 0
    ensures f in FoldsOf(x, groups, choices) <==>
              exists m :: 0 <= m < |choices| && TestOf(x, groups, choices[m]) != [] && f == FoldOf(x, groups, choices[m])
  {
    hide TestOf, FoldOf;
    if choices != [] {
      var n := |choices| - 1;
      FoldOfSomeChoice(x, groups, choices[..n], f);
      if m :| 0 <= m < |choices| && TestOf(x, groups, choices[m]) != [] && f == FoldOf(x, groups, choices[m]) {
        if m < n { assert choices[..n][m] == choices[m]; }
      }
    }
  }

  lemma TestInRange(x: Samples, groups: nat, testGroups: nat, m: nat)
    requires Parameters(x, groups, testGroups) && m < |Combinations(0, groups, testGroups)|
    ensures forall j | j in TestOf(x, groups, Combinations(0, groups, testGroups)[m]) :: 0 <= j < |x.predictions|
  {
    hide GroupStart, Combinations, TestOf;
    var n, c := |x.predictions|, Combinations(0, groups, testGroups)[m];
    CombinationsAreChoices(0, groups, testGroups, c);
    forall j | j in TestOf(x, groups, c) ensures 0 <= j < n {
      TestMembers(x, groups, c, j);
      var e :| 0 <= e < |c| && InGroup(n, groups, c[e], j);
      GroupsOrdered(n, groups, c[e] + 1, groups);
      GroupsCover(n, groups);
    }
  }

  /** The label interval of sample `i` meets that of `j` extended by the embargo. */
  ghost predicate Touches(x: Samples, i: int, j: int)
    requires 0 <= i < |x.predictions| == |x.labelEnds| && 0 <= j < |x.predictions|
  {
    exists t :: Covers(x, i, t) && x.predictions[j] <= t <= x.labelEnds[j] + x.embargo
  }

  lemma ClearIff(x: Samples, i: int, j: int)
    requires WellFormed(x) && x.embargo >= 0 && 0 <= i < |x.predictions| && 0 <= j < |x.predictions|
    ensures Clear(x, i, j) <==> !Touches(x, i, j)
  {
    if !Clear(x, i, j) {
      var t := if x.predictions[i] <= x.predictions[j] then x.predictions[j] else x.predictions[i];
      assert Covers(x, i, t) && x.predictions[j] <= t <= x.labelEnds[j] + x.embargo;
    }
  }

  /** A fold trains on exactly the unlocked samples whose label interval misses every test
      interval extended by the embargo; in particular it trains on none that it tests. */
  lemma TrainingIsExactlyTheClear(x: Samples, groups: nat, testGroups: nat, f: Fold, i: int)
    requires Parameters(x, groups, testGroups) && WellFormed(x)
    requires f in FoldsOf(x, groups, Combinations(0, groups, testGroups))
    ensures i in f.train <==>
              0 <= i < |x.predictions| && i !in x.locked
              && forall j | j in f.test && 0 <= j < |x.predictions| :: !Touches(x, i, j)
    ensures i in f.train ==> i !in f.test
    ensures i in f.test ==> 0 <= i < |x.predictions| && i !in x.locked
  {
    hide Combinations, TestOf, FoldsOf, GroupStart, Touches, WellFormed, Clear;
    var choices := Combinations(0, groups, testGroups);
    FoldOfSomeChoice(x, groups, choices, f);
    var m :| 0 <= m < |choices| && TestOf(x, groups, choices[m]) != [] && f == FoldOf(x, groups, choices[m]);
    TestInRange(x, groups, testGroups, m);
    TestMembers(x, groups, choices[m], i);
    if 0 <= i < |x.predictions| {
      ClearIff(x, i, i);
      TouchesItself(x, i);
      forall j | 0 <= j < |x.predictions| { ClearIff(x, i, j); }
    }
    assert forall e | 0 <= e < |f.test| :: f.test[e] in f.test;
  }

  lemma TouchesItself(x: Samples, i: int)
    requires WellFormed(x) && x.embargo >= 0 && 0 <= i < |x.predictions|
    ensures Touches(x, i, i)
  {
    assert Covers(x, i, x.predictions[i]);
  }

  lemma {:induction false} TestAscending(x: Samples, groups: nat, choice: seq<nat>)
    requires groups > 0 && forall a, b | 0 <= a < b < |choice| :: choice[a] < choice[b]
    ensures Ascending(TestOf(x, groups, choice))
  {
    hide GroupStart;
    if choice != [] {
      var first, rest := UnlockedGroup(x, groups, choice[0]), TestOf(x, groups, choice[1..]);
      TestAscending(x, groups, choice[1..]);
      forall i, j | i in first && j in rest ensures i < j {
        TestMembers(x, groups, choice[1..], j);
        var m: nat :| m < |choice[1..]| && InGroup(|x.predictions|, groups, choice[1..][m], j);
        GroupsOrdered(|x.predictions|, groups, choice[0] + 1, choice[1..][m]);
      }
      AscendingConcat(first, rest);
    }
  }

  lemma AscendingConcat(a: seq<int>, b: seq<int>)
    requires Ascending(a) && Ascending(b) && forall i, j | i in a && j in b :: i < j
    ensures Ascending(a + b)
  {
    forall i, j | 0 <= i < j < |a + b| ensures (a + b)[i] < (a + b)[j] {
      if i < |a| <= j { assert (a + b)[i] in a && (a + b)[j] in b; }
    }
  }

  /** Every fold lists its samples in order of time, none twice. */
  lemma FoldsAscending(x: Samples, groups: nat, testGroups: nat, f: Fold)
    requires Parameters(x, groups, testGroups)
    requires f in FoldsOf(x, groups, Combinations(0, groups, testGroups))
    ensures Ascending(f.train) && Ascending(f.test)
  {
    hide Combinations, TestOf, FoldsOf;
    var choices := Combinations(0, groups, testGroups);
    FoldOfSomeChoice(x, groups, choices, f);
    var m :| 0 <= m < |choices| && TestOf(x, groups, choices[m]) != [] && f == FoldOf(x, groups, choices[m]);
    CombinationsAreChoices(0, groups, testGroups, choices[m]);
    TestAscending(x, groups, choices[m]);
  }

  /** No fold at all is produced exactly when every sample is locked away. */
  lemma NoFoldsIff(x: Samples, groups: nat, testGroups: nat)
    requires Parameters(x, groups, testGroups)
    ensures FoldsOf(x, groups, Combinations(0, groups, testGroups)) == [] <==>
              forall i | 0 <= i < |x.predictions| :: i in x.locked
  {
    hide Combinations, TestOf, FoldsOf, GroupStart;
    var choices := Combinations(0, groups, testGroups);
    var folds := FoldsOf(x, groups, choices);
    forall i | 0 <= i < |x.predictions| && i !in x.locked ensures folds != [] {
      TestedEquallyOften(x, groups, testGroups, i);
      BinomialPositive(groups - 1, testGroups - 1);
    }
    if folds != [] {
      var f := folds[0];
      FoldOfSomeChoice(x, groups, choices, f);
      var m :| 0 <= m < |choices| && TestOf(x, groups, choices[m]) != [] && f == FoldOf(x, groups, choices[m]);
      TestInRange(x, groups, testGroups, m);
      assert f.test[0] in f.test;
      TestMembers(x, groups, choices[m], f.test[0]);
    }
  }

  lemma {:induction false} BinomialPositive(n: int, k: int)
    requires 0 <= k <= n
    ensures Binomial(n, k) > 0
    decreases n
  {
    if k > 0 { BinomialPositive(n - 1, k - 1); }
  }
}
