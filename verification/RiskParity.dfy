/** Hierarchical risk parity: the leaf order is split in halves by a work queue, each half
    weighted against the other half's variance, and the result scored into the bounds. */
module RiskParity {
  import opened Wrappers
  import Reals
  import Vectors
  import Projection
  import Clustering

  type Cluster = Clustering.Cluster
  type Matrix = (nat, nat) -> real

  /** Variances are floored at 1e-16. */
  const FLOOR: real := 0.0000000000000001

  // ------------------------------------------------------------ group variance

  function InverseVariance(cov: Matrix, i: nat): real { 1.0 / Reals.Max(cov(i, i), FLOOR) }

  function InverseTotal(cov: Matrix, group: Cluster): real {
    if group == [] then 0.0 else InverseVariance(cov, group[0]) + InverseTotal(cov, group[1..])
  }

  function QuadraticRow(cov: Matrix, i: nat, group: Cluster): real {
    if group == [] then 0.0
    else InverseVariance(cov, i) * cov(i, group[0]) * InverseVariance(cov, group[0])
         + QuadraticRow(cov, i, group[1..])
  }

  function Quadratic(cov: Matrix, rows: Cluster, group: Cluster): real {
    if rows == [] then 0.0 else QuadraticRow(cov, rows[0], group) + Quadratic(cov, rows[1..], group)
  }

  lemma {:induction false} InverseTotalPositive(cov: Matrix, group: Cluster)
    requires group != []
    ensures InverseTotal(cov, group) > 0.0
  {
    InversePositive(Reals.Max(cov(group[0], group[0]), FLOOR));
    if |group| > 1 { InverseTotalPositive(cov, group[1..]); }
  }

  lemma InversePositive(x: real)
    requires x > 0.0
    ensures 1.0 / x > 0.0
  {}

  /** Variance of the group's inverse-variance portfolio, floored. */
  function ClusterVariance(cov: Matrix, group: Cluster): (v: real)
    requires group != []
    ensures v >= FLOOR
  {
    InverseTotalPositive(cov, group);
    var t := InverseTotal(cov, group);
    Reals.Max(Quadratic(cov, group, group) / (t * t), FLOOR)
  }

  // ------------------------------------------------- the recursive specification

  /** Share of a group's budget that goes to its left half. */
  function LeftShare(cov: Matrix, group: Cluster): (a: real)
    requires |group| > 1
    ensures 0.0 < a < 1.0
  {
    var split := |group| / 2;
    var l, r := ClusterVariance(cov, group[..split]), ClusterVariance(cov, group[split..]);
    ShareBounds(l, r, l + r, r / (l + r));
    r / (l + r)
  }

  lemma ShareBounds(l: real, r: real, s: real, a: real)
    requires l > 0.0 && r > 0.0 && s == l + r && a == r / s
    ensures 0.0 < a < 1.0
    ensures l * a == r * (1.0 - a)
  {
    assert a * s == r;
    Crossed(l, r, s, a);
  }

  lemma Crossed(l: real, r: real, s: real, a: real)
    requires l > 0.0 && r > 0.0 && s == l + r && a * s == r
    ensures 0.0 < a < 1.0
    ensures l * a == r * (1.0 - a)
  {
    QuotientPositive(a, s, r);
    assert a * s == a * l + a * r;
    var c := 1.0 - a;
    QuotientPositive(c, r, a * l);
  }

  lemma QuotientPositive(a: real, s: real, r: real)
    requires s > 0.0 && a * s == r
    ensures r > 0.0 ==> a > 0.0
  {}

  function LeftBudget(cov: Matrix, group: Cluster, budget: real): real
    requires |group| > 1
  {
    budget * LeftShare(cov, group)
  }

  function RightBudget(cov: Matrix, group: Cluster, budget: real): real
    requires |group| > 1
  {
    budget * (1.0 - LeftShare(cov, group))
  }

  lemma BudgetsConserve(cov: Matrix, group: Cluster, budget: real)
    requires |group| > 1
    ensures LeftBudget(cov, group, budget) + RightBudget(cov, group, budget) == budget
    ensures budget > 0.0 ==> LeftBudget(cov, group, budget) > 0.0 && RightBudget(cov, group, budget) > 0.0
  {}

  /** Top-down recursive bisection of a budget. */
  function SplitWeights(cov: Matrix, group: Cluster, budget: real): map<nat, real>
    decreases |group|
  {
    if group == [] then map[]
    else if |group| == 1 then map[group[0] := budget]
    else
      var split := |group| / 2;
      SplitWeights(cov, group[..split], LeftBudget(cov, group, budget))
      + SplitWeights(cov, group[split..], RightBudget(cov, group, budget))
  }

  ghost predicate Distinct(s: Cluster) { forall x | x in s :: multiset(s)[x] == 1 }

  lemma DistinctConcat(a: Cluster, b: Cluster)
    requires Distinct(a + b)
    ensures Distinct(a) && Distinct(b) && Distinct(b + a)
    ensures forall x | x in a :: x !in b
  {
    assert multiset(a + b) == multiset(a) + multiset(b) == multiset(b + a);
    forall x | x in a ensures multiset(a)[x] == 1 && x !in b {
      assert x in a + b && x in multiset(a);
      assert x in b <==> x in multiset(b);
    }
    forall x | x in b ensures multiset(b)[x] == 1 {
      assert x in a + b && x in multiset(b);
    }
    forall x | x in b + a ensures multiset(b + a)[x] == 1 { assert x in a + b; }
  }

  function SumAt(w: map<nat, real>, s: Cluster): real
    requires forall x | x in s :: x in w
  {
    if s == [] then 0.0 else w[s[0]] + SumAt(w, s[1..])
  }

  lemma {:induction false} SumAtSame(v: map<nat, real>, w: map<nat, real>, s: Cluster)
    requires forall x | x in s :: x in v && x in w && v[x] == w[x]
    ensures SumAt(v, s) == SumAt(w, s)
  {
    if s != [] { SumAtSame(v, w, s[1..]); }
  }

  lemma {:induction false} SumAtConcat(w: map<nat, real>, a: Cluster, b: Cluster)
    requires forall x | x in a + b :: x in w
    ensures (forall x | x in a :: x in w) && (forall x | x in b :: x in w)
    ensures SumAt(w, a + b) == SumAt(w, a) + SumAt(w, b)
  {
    assert forall x | x in a :: x in a + b;
    assert forall x | x in b :: x in a + b;
    if a == [] {
      assert a + b == b;
    } else {
      assert (a + b)[1..] == a[1..] + b;
      SumAtConcat(w, a[1..], b);
    }
  }

  lemma Halves(group: Cluster)
    requires |group| > 1
    ensures var k := |group| / 2;
            0 < k < |group| && group[..k] + group[k..] == group
            && (forall x :: x in group <==> x in group[..k] || x in group[k..])
  {}

  lemma HalvesDistinct(group: Cluster)
    requires |group| > 1 && Distinct(group)
    ensures var k := |group| / 2;
            Distinct(group[..k]) && Distinct(group[k..]) && forall x | x in group[..k] :: x !in group[k..]
  {
    Halves(group);
    DistinctConcat(group[..|group| / 2], group[|group| / 2..]);
  }

  function LeftHalf(cov: Matrix, group: Cluster, budget: real): map<nat, real>
    requires |group| > 1
  {
    SplitWeights(cov, group[..|group| / 2], LeftBudget(cov, group, budget))
  }

  function RightHalf(cov: Matrix, group: Cluster, budget: real): map<nat, real>
    requires |group| > 1
  {
    SplitWeights(cov, group[|group| / 2..], RightBudget(cov, group, budget))
  }

  lemma SplitUnfold(cov: Matrix, group: Cluster, budget: real)
    requires |group| > 1
    ensures SplitWeights(cov, group, budget) == LeftHalf(cov, group, budget) + RightHalf(cov, group, budget)
  {}

  lemma {:induction false} SplitKeys(cov: Matrix, group: Cluster, budget: real)
    ensures forall x :: x in SplitWeights(cov, group, budget) <==> x in group
    decreases |group|
  {
    if |group| > 1 {
      hide SplitWeights, LeftBudget, RightBudget;
      Halves(group);
      SplitUnfold(cov, group, budget);
      SplitKeys(cov, group[..|group| / 2], LeftBudget(cov, group, budget));
      SplitKeys(cov, group[|group| / 2..], RightBudget(cov, group, budget));
    }
  }

  /** A split's weights restricted to either half are that half's own split. */
  lemma SplitOfHalves(cov: Matrix, group: Cluster, budget: real)
    requires |group| > 1 && Distinct(group)
    ensures var k, w := |group| / 2, SplitWeights(cov, group, budget);
            var l, r := LeftHalf(cov, group, budget), RightHalf(cov, group, budget);
            && (forall x | x in group[..k] :: x in w && x in l && w[x] == l[x])
            && (forall x | x in group[k..] :: x in w && x in r && w[x] == r[x])
  {
    hide SplitWeights, LeftBudget, RightBudget;
    SplitKeys(cov, group[..|group| / 2], LeftBudget(cov, group, budget));
    SplitKeys(cov, group[|group| / 2..], RightBudget(cov, group, budget));
    HalvesDistinct(group);
    SplitUnfold(cov, group, budget);
  }

  /** The split conserves the budget, as a whole and on each side. */
  lemma {:induction false} SplitConserves(cov: Matrix, group: Cluster, budget: real)
    requires group != [] && Distinct(group)
    ensures forall x | x in group :: x in SplitWeights(cov, group, budget)
    ensures SumAt(SplitWeights(cov, group, budget), group) == budget
    decreases |group|, 0
  {
    SplitKeys(cov, group, budget);
    if |group| > 1 {
      hide SplitWeights, SumAt, LeftBudget, RightBudget;
      SidesConserve(cov, group, budget);
      Halves(group);
      SumAtConcat(SplitWeights(cov, group, budget), group[..|group| / 2], group[|group| / 2..]);
      BudgetsConserve(cov, group, budget);
    } else {
      assert group[1..] == [];
    }
  }

  lemma {:induction false} SidesConserve(cov: Matrix, group: Cluster, budget: real)
    requires |group| > 1 && Distinct(group)
    ensures var k, w := |group| / 2, SplitWeights(cov, group, budget);
            && (forall x | x in group[..k] :: x in w)
            && (forall x | x in group[k..] :: x in w)
            && SumAt(w, group[..k]) == LeftBudget(cov, group, budget)
            && SumAt(w, group[k..]) == RightBudget(cov, group, budget)
    decreases |group| - 1, 1
  {
    hide SplitWeights, SumAt, LeftBudget, RightBudget;
    var k, w := |group| / 2, SplitWeights(cov, group, budget);
    HalvesDistinct(group);
    SplitOfHalves(cov, group, budget);
    SplitConserves(cov, group[..k], LeftBudget(cov, group, budget));
    SplitConserves(cov, group[k..], RightBudget(cov, group, budget));
    SumAtSame(w, LeftHalf(cov, group, budget), group[..k]);
    SumAtSame(w, RightHalf(cov, group, budget), group[k..]);
  }

  /** Every asset ends with a strictly positive weight. */
  lemma {:induction false} SplitPositive(cov: Matrix, group: Cluster, budget: real)
    requires budget > 0.0
    ensures forall x | x in SplitWeights(cov, group, budget) :: SplitWeights(cov, group, budget)[x] > 0.0
    decreases |group|
  {
    if |group| > 1 {
      hide SplitWeights, LeftBudget, RightBudget;
      BudgetsConserve(cov, group, budget);
      SplitPositive(cov, group[..|group| / 2], LeftBudget(cov, group, budget));
      SplitPositive(cov, group[|group| / 2..], RightBudget(cov, group, budget));
      SplitUnfold(cov, group, budget);
    }
  }

  /** Risk parity at the split: weight times variance is the same on both sides. The halves'
      own weights are splits again, so this holds at every node of the tree. */
  lemma SplitParity(cov: Matrix, group: Cluster, budget: real)
    requires |group| > 1 && Distinct(group)
    ensures var k, w := |group| / 2, SplitWeights(cov, group, budget);
            && (forall x | x in group[..k] :: x in w)
            && (forall x | x in group[k..] :: x in w)
            && 0 < k < |group|
            && SumAt(w, group[..k]) * ClusterVariance(cov, group[..k])
               == SumAt(w, group[k..]) * ClusterVariance(cov, group[k..])
  {
    hide ClusterVariance, SplitWeights, SumAt;
    var k := |group| / 2;
    var l, r := ClusterVariance(cov, group[..k]), ClusterVariance(cov, group[k..]);
    SidesConserve(cov, group, budget);
    ShareBounds(l, r, l + r, r / (l + r));
    Balanced(budget, LeftShare(cov, group), l, r,
             LeftBudget(cov, group, budget), RightBudget(cov, group, budget));
  }

  lemma Balanced(b: real, a: real, l: real, r: real, x: real, y: real)
    requires l * a == r * (1.0 - a)
    requires x == b * a && y == b * (1.0 - a)
    ensures x * l == y * r
  {}

  // ---------------------------------------------------------------- the queue

  function Queued(groups: seq<Cluster>): Cluster {
    if groups == [] then [] else groups[0] + Queued(groups[1..])
  }

  /** Work left: a group of k assets takes 2k - 1 turns. */
  function Turns(groups: seq<Cluster>): int {
    if groups == [] then 0 else 2 * |groups[0]| - 1 + Turns(groups[1..])
  }

  lemma {:induction false} QueuedConcat(a: seq<Cluster>, b: seq<Cluster>)
    ensures Queued(a + b) == Queued(a) + Queued(b)
  {
    if a == [] {
      assert a + b == b;
    } else {
      QueuedConcat(a[1..], b);
      assert (a + b)[1..] == a[1..] + b;
      assert a[0] + (Queued(a[1..]) + Queued(b)) == Queued(a) + Queued(b);
    }
  }

  lemma {:induction false} TurnsConcat(a: seq<Cluster>, b: seq<Cluster>)
    ensures Turns(a + b) == Turns(a) + Turns(b)
  {
    if a == [] {
      assert a + b == b;
    } else {
      TurnsConcat(a[1..], b);
      assert (a + b)[1..] == a[1..] + b;
    }
  }

  lemma {:induction false} QueuedMembers(groups: seq<Cluster>, i: nat, x: nat)
    requires i < |groups| && x in groups[i]
    ensures x in Queued(groups)
  {
    if i > 0 { QueuedMembers(groups[1..], i - 1, x); }
  }

  lemma {:induction false} TurnsNonNegative(groups: seq<Cluster>)
    requires forall i | 0 <= i < |groups| :: groups[i] != []
    ensures Turns(groups) >= |groups|
  {
    if groups != [] { TurnsNonNegative(groups[1..]); }
  }

  lemma FirstSeen(s: Cluster, i: nat)
    requires i < |s| && Distinct(s)
    ensures s[i] in s && s[i] !in s[..i]
  {
    assert s == s[..i] + s[i..];
    DistinctConcat(s[..i], s[i..]);
    assert s[i..][0] == s[i];
  }

  /** `weights[list(members)] *= factor` */
  method ScaleMembers(weights: array<real>, members: Cluster, factor: real)
    requires Distinct(members) && forall x | x in members :: x < weights.Length
    modifies weights
    ensures forall t | 0 <= t < weights.Length ::
      weights[t] == (if t in members then old(weights[t]) * factor else old(weights[t]))
  {
    for i := 0 to |members|
      invariant forall t | 0 <= t < weights.Length ::
        weights[t] == (if t in members[..i] then old(weights[t]) * factor else old(weights[t]))
    {
      FirstSeen(members, i);
      weights[members[i]] := weights[members[i]] * factor;
      assert members[..i + 1] == members[..i] + [members[i]];
    }
    assert members[..|members|] == members;
  }

  /** The members of a pending group share one weight, and splitting that weight over the
      group gives what the group is owed. */
  ghost predicate Owed(cov: Matrix, w: seq<real>, goal: map<nat, real>, group: Cluster) {
    group != [] && group[0] < |w|
    && var b := w[group[0]];
       && (forall x | x in group :: x < |w| && w[x] == b)
       && (forall x | x in group :: x in goal && x in SplitWeights(cov, group, b)
                                    && goal[x] == SplitWeights(cov, group, b)[x])
  }

  ghost predicate QueueInvariant(
      cov: Matrix, w: seq<real>, goal: map<nat, real>, groups: seq<Cluster>)
  {
    && Distinct(Queued(groups))
    && (forall i | 0 <= i < |groups| :: Owed(cov, w, goal, groups[i]))
    && (forall t | 0 <= t < |w| && t !in Queued(groups) :: t in goal && w[t] == goal[t])
  }

  /** What splitting the front group does to the queue. */
  lemma QueueSplit(groups: seq<Cluster>)
    requires groups != [] && |groups[0]| > 1 && Distinct(Queued(groups))
    ensures var g, k := groups[0], |groups[0]| / 2;
            var next := groups[1..] + [g[..k], g[k..]];
            && Distinct(Queued(next))
            && (forall x :: x in Queued(next) <==> x in Queued(groups))
            && Turns(next) == Turns(groups) - 1
            && Distinct(g) && (forall x | x in g :: x !in Queued(groups[1..]))
  {
    hide Queued, Turns, Distinct;
    var g, k := groups[0], |groups[0]| / 2;
    var rest, two := groups[1..], [g[..k], g[k..]];
    QueuedConcat(rest, two);
    TurnsConcat(rest, two);
    TwoHalves(g);
    FrontGroup(groups);
    DistinctConcat(g, Queued(rest));
    assert forall x :: x in Queued(rest) + g <==> x in g + Queued(rest);
  }

  lemma FrontGroup(groups: seq<Cluster>)
    requires groups != []
    ensures Queued(groups) == groups[0] + Queued(groups[1..])
    ensures Turns(groups) == 2 * |groups[0]| - 1 + Turns(groups[1..])
  {}

  lemma TwoHalves(g: Cluster)
    requires |g| > 1
    ensures var k := |g| / 2; Queued([g[..k], g[k..]]) == g && Turns([g[..k], g[k..]]) == 2 * |g| - 2
  {
    hide Queued, Turns;
    var k := |g| / 2;
    var two, last, none: seq<Cluster> := [g[..k], g[k..]], [g[k..]], [];
    FrontGroup(two);
    FrontGroup(last);
    assert two[1..] == last && last[1..] == none;
    NothingQueued();
    assert g[..k] + (g[k..] + []) == g;
  }

  lemma NothingQueued()
    ensures Queued([]) == [] && Turns([]) == 0
  {}

  lemma OwedHalf(
      cov: Matrix, before: seq<real>, after: seq<real>, goal: map<nat, real>,
      g: Cluster, half: Cluster, budget: real)
    requires Owed(cov, before, goal, g) && |after| == |before|
    requires half != [] && forall x | x in half :: x in g && x < |after| && after[x] == budget
    requires forall x | x in half ::
      x in SplitWeights(cov, g, before[g[0]]) && x in SplitWeights(cov, half, budget)
      && SplitWeights(cov, g, before[g[0]])[x] == SplitWeights(cov, half, budget)[x]
    ensures Owed(cov, after, goal, half)
  {
    hide SplitWeights;
    assert half[0] in half;
  }

  lemma OwedKept(cov: Matrix, before: seq<real>, after: seq<real>, goal: map<nat, real>, g: Cluster)
    requires Owed(cov, before, goal, g) && |after| == |before|
    requires forall x | x in g && x < |before| :: after[x] == before[x]
    ensures Owed(cov, after, goal, g)
  {}

  /** The weights after one split: halves scaled, everything else as before. */
  ghost predicate SplitApplied(cov: Matrix, before: seq<real>, after: seq<real>, g: Cluster)
    requires |g| > 1
  {
    |after| == |before|
    && forall t | 0 <= t < |before| ::
         after[t] == (if t in g[..|g| / 2] then LeftBudget(cov, g, before[t])
                      else if t in g[|g| / 2..] then RightBudget(cov, g, before[t]) else before[t])
  }

  lemma SplitOwed(cov: Matrix, before: seq<real>, after: seq<real>, goal: map<nat, real>, g: Cluster)
    requires |g| > 1 && Distinct(g) && Owed(cov, before, goal, g)
    requires SplitApplied(cov, before, after, g)
    ensures Owed(cov, after, goal, g[..|g| / 2]) && Owed(cov, after, goal, g[|g| / 2..])
  {
    hide SplitWeights, LeftBudget, RightBudget;
    var k, b := |g| / 2, before[g[0]];
    var x, y := LeftBudget(cov, g, b), RightBudget(cov, g, b);
    Halves(g);
    HalvesDistinct(g);
    SplitOfHalves(cov, g, b);
    forall t | t in g[..k] ensures t in g && t < |after| && after[t] == x { assert t in g; }
    forall t | t in g[k..] ensures t in g && t < |after| && after[t] == y { assert t in g; }
    OwedHalf(cov, before, after, goal, g, g[..k], x);
    OwedHalf(cov, before, after, goal, g, g[k..], y);
  }

  lemma SplitStep(
      cov: Matrix, before: seq<real>, after: seq<real>, goal: map<nat, real>, groups: seq<Cluster>)
    requires groups != [] && |groups[0]| > 1
    requires QueueInvariant(cov, before, goal, groups)
    requires SplitApplied(cov, before, after, groups[0])
    ensures var g, k := groups[0], |groups[0]| / 2;
            QueueInvariant(cov, after, goal, groups[1..] + [g[..k], g[k..]])
  {
    hide SplitWeights, LeftShare, Queued, Owed, Turns;
    var g, k := groups[0], |groups[0]| / 2;
    var rest := groups[1..];
    var next := rest + [g[..k], g[k..]];
    QueueSplit(groups);
    Halves(g);
    SplitOwed(cov, before, after, goal, g);
    forall i | 0 <= i < |rest| ensures Owed(cov, after, goal, rest[i]) {
      assert rest[i] == groups[i + 1];
      forall x | x in rest[i] && x < |before| ensures after[x] == before[x] { QueuedMembers(rest, i, x); }
      OwedKept(cov, before, after, goal, rest[i]);
    }
    forall t | 0 <= t < |after| && t !in Queued(next) ensures t in goal && after[t] == goal[t] {
      if t in g { QueuedMembers(groups, 0, t); }
    }
  }

  lemma DoneStep(cov: Matrix, w: seq<real>, goal: map<nat, real>, groups: seq<Cluster>)
    requires groups != [] && |groups[0]| <= 1
    requires QueueInvariant(cov, w, goal, groups)
    ensures QueueInvariant(cov, w, goal, groups[1..])
  {
    var g := groups[0];
    assert Owed(cov, w, goal, g);
    assert g == [g[0]];
    DistinctConcat(g, Queued(groups[1..]));
  }

  /** One turn on a group of several assets: both halves scaled in place. */
  method SplitGroup(cov: Matrix, weights: array<real>, group: Cluster)
    requires |group| > 1 && Distinct(group) && forall x | x in group :: x < weights.Length
    modifies weights
    ensures SplitApplied(cov, old(weights[..]), weights[..], group)
  {
    hide LeftShare, LeftBudget, RightBudget, Distinct;
    var split, share := |group| / 2, LeftShare(cov, group);
    Halves(group);
    HalvesDistinct(group);
    ghost var before := weights[..];
    ScaleMembers(weights, group[..split], share);
    ScaleMembers(weights, group[split..], 1.0 - share);
    forall t | 0 <= t < weights.Length
      ensures weights[t] == (if t in group[..split] then LeftBudget(cov, group, before[t])
                             else if t in group[split..] then RightBudget(cov, group, before[t]) else before[t])
    {
      BudgetIs(cov, group, before[t], share, 1.0 - share);
    }
  }

  lemma BudgetIs(cov: Matrix, group: Cluster, x: real, a: real, c: real)
    requires |group| > 1 && a == LeftShare(cov, group) && c == 1.0 - a
    ensures x * a == LeftBudget(cov, group, x) && x * c == RightBudget(cov, group, x)
  {}

  /** The queue computes the recursive split, without recursion. */
  method BisectWeights(cov: Matrix, order: Cluster, n: nat) returns (weights: array<real>)
    requires n > 0 && multiset(order) == multiset(Clustering.Assets(n))
    ensures fresh(weights) && weights.Length == n
    ensures forall t | 0 <= t < n ::
      t in SplitWeights(cov, order, 1.0) && weights[t] == SplitWeights(cov, order, 1.0)[t]
  {
    hide SplitWeights, LeftShare, SplitApplied, QueueInvariant, Owed, Distinct, Queued;
    OrderIsPermutation(order, n);
    weights := new real[n](i => 1.0);
    ghost var goal := SplitWeights(cov, order, 1.0);
    var groups := [order];
    QueueStart(cov, weights[..], order);
    while groups != []
      invariant fresh(weights) && weights.Length == n
      invariant QueueInvariant(cov, weights[..], goal, groups)
      invariant forall i | 0 <= i < |groups| :: groups[i] != []
      decreases Turns(groups)
    {
      TurnsNonNegative(groups);
      var group := groups[0];
      ghost var before, queue := weights[..], groups;
      if |group| <= 1 {
        DoneStep(cov, before, goal, queue);
        groups := groups[1..];
      } else {
        QueueFront(cov, before, goal, queue);
        QueueSplit(queue);
        SplitGroup(cov, weights, group);
        groups := groups[1..] + [group[..|group| / 2], group[|group| / 2..]];
        SplitStep(cov, before, weights[..], goal, queue);
      }
    }
    QueueDone(cov, weights[..], goal);
  }

  lemma QueueFront(cov: Matrix, w: seq<real>, goal: map<nat, real>, groups: seq<Cluster>)
    requires groups != [] && QueueInvariant(cov, w, goal, groups)
    ensures Distinct(Queued(groups)) && forall x | x in groups[0] :: x < |w|
  {}

  lemma QueueDone(cov: Matrix, w: seq<real>, goal: map<nat, real>)
    requires QueueInvariant(cov, w, goal, [])
    ensures forall t | 0 <= t < |w| :: t in goal && w[t] == goal[t]
  {}

  lemma QueueStart(cov: Matrix, w: seq<real>, order: Cluster)
    requires order != [] && Distinct(order)
    requires forall t :: t in order <==> 0 <= t < |w|
    requires forall t | 0 <= t < |w| :: w[t] == 1.0
    ensures QueueInvariant(cov, w, SplitWeights(cov, order, 1.0), [order])
  {
    hide SplitWeights;
    SplitKeys(cov, order, 1.0);
    assert Queued([order]) == order + Queued([]) == order by { assert [order][1..] == []; }
    assert order[0] in order;
    forall x | x in order ensures x < |w| && w[x] == 1.0 {}
    assert Owed(cov, w, SplitWeights(cov, order, 1.0), order);
  }

  lemma OrderIsPermutation(order: Cluster, n: nat)
    requires multiset(order) == multiset(Clustering.Assets(n))
    ensures Distinct(order) && |order| == n
    ensures forall t :: t in order <==> 0 <= t < n
  {
    var assets := Clustering.Assets(n);
    assert |order| == |multiset(order)| == |multiset(assets)| == n;
    forall t: nat ensures t in order <==> t < n {
      AssetOnce(n, t);
      assert t in order <==> t in multiset(order);
    }
    forall t | t in order ensures multiset(order)[t] == 1 { AssetOnce(n, t); }
  }

  lemma {:induction false} AssetOnce(n: nat, x: nat)
    ensures multiset(Clustering.Assets(n))[x] == if x < n then 1 else 0
  {
    if n > 0 {
      AssetOnce(n - 1, x);
      assert Clustering.Assets(n) == Clustering.Assets(n - 1) + [n - 1];
    }
  }

  // ---------------------------------------------------------------- the model

  datatype HrpError = ShortBounds | InfeasibleBounds | NonPositiveVariance | ScoringFailed

  /** The weights as a vector sum to exactly 1, whatever the leaf order. */
  lemma WeightsSumToOne(cov: Matrix, order: Cluster, n: nat, w: seq<real>)
    requires n > 0 && |w| == n && multiset(order) == multiset(Clustering.Assets(n))
    requires forall t | 0 <= t < n ::
      t in SplitWeights(cov, order, 1.0) && w[t] == SplitWeights(cov, order, 1.0)[t]
    ensures Vectors.Sum(w) == 1.0
    ensures forall t | 0 <= t < n :: w[t] > 0.0
  {
    hide SplitWeights;
    OrderIsPermutation(order, n);
    var m := SplitWeights(cov, order, 1.0);
    SplitKeys(cov, order, 1.0);
    SplitConserves(cov, order, 1.0);
    SplitPositive(cov, order, 1.0);
    var assets := Clustering.Assets(n);
    assert forall x | x in assets :: x in m;
    SumAtPermutation(m, order, assets);
    SumAtAssets(m, w, n);
    assert w[..n] == w;
  }

  lemma {:induction false} SumAtPermutation(w: map<nat, real>, a: Cluster, b: Cluster)
    requires multiset(a) == multiset(b)
    requires (forall x | x in a :: x in w) && (forall x | x in b :: x in w)
    ensures SumAt(w, a) == SumAt(w, b)
  {
    if a == [] {
      assert |multiset(b)| == 0;
    } else {
      var p, q := Extract(a, b);
      assert forall x | x in p + q :: x in b;
      SumAtConcat(w, p, [a[0]] + q);
      SumAtPermutation(w, a[1..], p + q);
      SumAtConcat(w, p, q);
      assert ([a[0]] + q)[1..] == q;
    }
  }

  /** Finds the first member of `a` in its permutation `b`, and what is left around it. */
  lemma Extract(a: Cluster, b: Cluster) returns (p: Cluster, q: Cluster)
    requires a != [] && multiset(a) == multiset(b)
    ensures b == p + ([a[0]] + q)
    ensures multiset(a[1..]) == multiset(p + q)
  {
    var x := a[0];
    assert a == [x] + a[1..];
    assert x in multiset(a);
    var j :| 0 <= j < |b| && b[j] == x;
    p, q := b[..j], b[j + 1..];
    assert b == p + ([x] + q);
    RemoveOne(x, a[1..], p, q);
  }

  lemma RemoveOne(x: nat, rest: Cluster, p: Cluster, q: Cluster)
    requires multiset([x] + rest) == multiset(p + ([x] + q))
    ensures multiset(rest) == multiset(p + q)
  {
    forall y ensures multiset(rest)[y] == multiset(p + q)[y] {
      assert multiset([x] + rest)[y] == multiset([x])[y] + multiset(rest)[y];
      assert multiset(p + ([x] + q))[y] == multiset(p)[y] + (multiset([x])[y] + multiset(q)[y]);
      assert multiset(p + q)[y] == multiset(p)[y] + multiset(q)[y];
    }
  }

  lemma {:induction false} SumAtAssets(m: map<nat, real>, w: seq<real>, n: nat)
    requires n <= |w|
    requires forall t | 0 <= t < n :: t in m && m[t] == w[t]
    ensures SumAt(m, Clustering.Assets(n)) == Vectors.Sum(w[..n])
  {
    if n > 0 {
      SumAtAssets(m, w, n - 1);
      var front := Clustering.Assets(n - 1);
      assert Clustering.Assets(n) == front + [n - 1];
      SumAtConcat(m, front, [n - 1]);
      assert [n - 1][1..] == [];
      assert w[..n][..n - 1] == w[..n - 1];
    }
  }

  /** `raw` is the recursive split of a unit budget over the leaf order a clustering run ends in. */
  ghost predicate IsSplitOf(
      cov: Matrix, d: Clustering.Distance, n: nat, levels: seq<seq<Cluster>>, raw: seq<real>)
  {
    && Clustering.IsAgglomeration(levels, n, d) && |levels[|levels| - 1]| == 1 && |raw| == n
    && var w := SplitWeights(cov, levels[|levels| - 1][0], 1.0);
       forall t | 0 <= t < n :: t in w && raw[t] == w[t]
  }

  /** Why a request is refused, if it is, in the order of the checks; scoring itself never fails. */
  function Refusal(n: nat, cov: Matrix, lower: real, upper: real, gross: real): (e: Option<HrpError>)
    ensures e != Some(ScoringFailed)
  {
    if lower < 0.0 then Some(ShortBounds)
    else if !Projection.FeasibleBounds(n, lower, upper, gross) then Some(InfeasibleBounds)
    else if exists i | 0 <= i < n :: cov(i, i) <= 0.0 then Some(NonPositiveVariance)
    else None
  }

  /** The whole model: order the leaves, split the unit budget, score into the bounds. */
  method Propose(n: nat, cov: Matrix, d: Clustering.Distance, lower: real, upper: real, gross: real)
    returns (r: Result<seq<real>, HrpError>, ghost raw: seq<real>, ghost levels: seq<seq<Cluster>>, ghost shift: real)
    requires n > 0 && lower <= upper && gross > 0.0
    ensures r.Err? <==> Refusal(n, cov, lower, upper, gross).Some?
    ensures r.Err? ==> r.error == Refusal(n, cov, lower, upper, gross).value
    ensures r.Ok? ==>
      && |raw| == |r.value| == n && IsSplitOf(cov, d, n, levels, raw)
      && Vectors.Sum(raw) == 1.0 && (forall t | 0 <= t < n :: raw[t] > 0.0)
      && Vectors.InBox(r.value, lower, upper)
      && Reals.Abs(gross - Vectors.Sum(r.value)) <= Projection.TOLERANCE
      && Vectors.Apart(r.value, Vectors.ClipShift(Projection.ScaledTo(raw, gross), shift, lower, upper))
         <= Projection.ErrorBound(Projection.ScaledTo(raw, gross), lower, upper)
      && (Vectors.InBox(Projection.ScaledTo(raw, gross), lower, upper) ==>
            Vectors.Apart(r.value, Projection.ScaledTo(raw, gross))
            <= 2.0 * Projection.ErrorBound(Projection.ScaledTo(raw, gross), lower, upper))
  {
    hide SplitWeights, Projection.FeasibleBounds, Projection.ErrorBound, Vectors.Sum, Vectors.Apart;
    raw, levels, shift := [], [], 0.0;
    if lower < 0.0 { return Err(ShortBounds), raw, levels, shift; }
    if !Projection.FeasibleBounds(n, lower, upper, gross) { return Err(InfeasibleBounds), raw, levels, shift; }
    if exists i | 0 <= i < n :: cov(i, i) <= 0.0 { return Err(NonPositiveVariance), raw, levels, shift; }
    var order;
    order, levels := Clustering.ClusterOrder(n, d);
    var weights := BisectWeights(cov, order, n);
    raw := weights[..];
    WeightsSumToOne(cov, order, n, raw);
    UnitScores(raw, gross);
    var scored;
    scored, shift := Projection.ScoreWeights(weights[..], lower, upper, gross);
    r := if scored.Ok? then Ok(scored.value) else Err(ScoringFailed);
  }

  /** Positive scores that sum to 1 are usable as they are. */
  lemma UnitScores(w: seq<real>, gross: real)
    requires w != [] && Vectors.Sum(w) == 1.0 && forall t | 0 <= t < |w| :: w[t] > 0.0
    ensures Projection.UsableScores(w) == w
    ensures Projection.Normalized(w, gross) == Projection.ScaledTo(w, gross)
  {
    hide Vectors.Sum;
    assert Projection.Greatest(w) >= w[0] > 0.0;
    assert Projection.Positives(w) == w;
    DivideByOne(gross, Vectors.Sum(w), gross / Vectors.Sum(w));
  }

  lemma DivideByOne(g: real, s: real, q: real)
    requires s == 1.0 && q == g / s
    ensures q == g
  {}
}
