/** What a cluster's variance and a bisection's weights are in terms of the covariances: the
    variance of the inverse-variance portfolio, and, for uncorrelated assets, that portfolio. */
module ClusterRisk {
  import opened RiskParity
  import Clustering
  import Reals

  type Allocation = nat -> real

  /** Σ over the group of an allocation. */
  function Allocated(a: Allocation, group: Cluster): real {
    if group == [] then 0.0 else a(group[0]) + Allocated(a, group[1..])
  }

  /** Covariance of asset `i` with the portfolio. */
  function WithPortfolio(cov: Matrix, a: Allocation, i: nat, group: Cluster): real {
    if group == [] then 0.0 else a(group[0]) * cov(i, group[0]) + WithPortfolio(cov, a, i, group[1..])
  }

  function VarianceFrom(cov: Matrix, a: Allocation, rows: Cluster, group: Cluster): real {
    if rows == [] then 0.0
    else a(rows[0]) * WithPortfolio(cov, a, rows[0], group) + VarianceFrom(cov, a, rows[1..], group)
  }

  /** Σᵢ Σⱼ aᵢ aⱼ cov(i, j) */
  function PortfolioVariance(cov: Matrix, a: Allocation, group: Cluster): real { VarianceFrom(cov, a, group, group) }

  function Floored(cov: Matrix, i: nat): (v: real)
    ensures v > 0.0
  {
    Reals.Max(cov(i, i), FLOOR)
  }

  /** Shares of one whole, each inversely proportional to the asset's own variance. */
  ghost predicate InverseShares(cov: Matrix, a: Allocation, group: Cluster) {
    && Allocated(a, group) == 1.0
    && forall i, j | i in group && j in group :: a(i) * Floored(cov, i) == a(j) * Floored(cov, j)
  }

  // ------------------------------------------------------------ group variance

  lemma InverseTimes(v: real, x: real, c: real)
    requires v > 0.0
    ensures x == c * (1.0 / v) <==> x * v == c
  {
    var r := 1.0 / v;
    assert r * v == 1.0;
    Cancel(x, r, v, c);
  }

  lemma Cancel(x: real, r: real, v: real, c: real)
    requires r * v == 1.0
    ensures x == c * r <==> x * v == c
  {
    assert (c * r) * v == c * (r * v);
    assert (x * v) * r == x * (r * v);
  }

  lemma InverseFloored(cov: Matrix, i: nat)
    ensures InverseVariance(cov, i) == 1.0 / Floored(cov, i) && InverseVariance(cov, i) > 0.0
  {
    InversePositive(Floored(cov, i));
  }

  lemma {:induction false} AllocatedScaled(cov: Matrix, a: Allocation, c: real, group: Cluster)
    requires forall i | i in group :: a(i) == c * InverseVariance(cov, i)
    ensures Allocated(a, group) == c * InverseTotal(cov, group)
  {
    hide InverseVariance;
    if group != [] {
      assert forall i | i in group[1..] :: i in group;
      AllocatedScaled(cov, a, c, group[1..]);
      Distributes(c, InverseVariance(cov, group[0]), InverseTotal(cov, group[1..]));
    }
  }

  lemma Distributes(c: real, x: real, y: real)
    ensures c * (x + y) == c * x + c * y
  {}

  lemma {:induction false} RowScaled(
      cov: Matrix, a: Allocation, c: real, i: nat, p: real, s: real, group: Cluster)
    requires forall j | j in group :: a(j) == c * InverseVariance(cov, j)
    requires p == c * InverseVariance(cov, i) && s == c * c
    ensures p * WithPortfolio(cov, a, i, group) == s * QuadraticRow(cov, i, group)
  {
    hide InverseVariance, WithPortfolio, QuadraticRow;
    if group == [] {
      NothingInRow(cov, a, i);
    } else {
      assert forall j | j in group[1..] :: j in group;
      RowScaled(cov, a, c, i, p, s, group[1..]);
      var term, scaled := RowStep(cov, a, c, i, p, s, group);
      var rest, quad := WithPortfolio(cov, a, i, group[1..]), QuadraticRow(cov, i, group[1..]);
      SameSums(p, s, term, rest, scaled, quad, WithPortfolio(cov, a, i, group), QuadraticRow(cov, i, group));
    }
  }

  lemma NothingInRow(cov: Matrix, a: Allocation, i: nat)
    ensures WithPortfolio(cov, a, i, []) == 0.0 && QuadraticRow(cov, i, []) == 0.0
  {}

  /** The first asset's part of either sum. */
  lemma RowStep(cov: Matrix, a: Allocation, c: real, i: nat, p: real, s: real, group: Cluster)
    returns (term: real, scaled: real)
    requires group != [] && a(group[0]) == c * InverseVariance(cov, group[0])
    requires p == c * InverseVariance(cov, i) && s == c * c
    ensures WithPortfolio(cov, a, i, group) == term + WithPortfolio(cov, a, i, group[1..])
    ensures QuadraticRow(cov, i, group) == scaled + QuadraticRow(cov, i, group[1..])
    ensures p * term == s * scaled
  {
    hide InverseVariance;
    var u, k, v := InverseVariance(cov, i), cov(i, group[0]), InverseVariance(cov, group[0]);
    term, scaled := a(group[0]) * k, u * k * v;
    RowTerm(c, p, s, u, k, v, a(group[0]), term, scaled);
  }

  lemma SameSums(p: real, s: real, a: real, b: real, c: real, d: real, x: real, y: real)
    requires p * a == s * c && p * b == s * d && x == a + b && y == c + d
    ensures p * x == s * y
  {
    Distributes(p, a, b);
    Distributes(s, c, d);
  }

  lemma RowTerm(c: real, p: real, s: real, u: real, k: real, v: real, w: real, term: real, scaled: real)
    requires p == c * u && s == c * c && w == c * v && term == w * k && scaled == u * k * v
    ensures p * term == s * scaled
  {
    Associates(c, u, term);
    Associates(c, v, k);
    Associates(u, k, v);
    Associates(c, c, scaled);
    Swaps(u, c, v * k);
    Swaps(k, v, 1.0);
  }

  lemma Associates(x: real, y: real, z: real)
    ensures (x * y) * z == x * (y * z)
  {}

  lemma Swaps(x: real, y: real, z: real)
    ensures x * (y * z) == y * (x * z)
  {}

  lemma {:induction false} VarianceScaled(cov: Matrix, a: Allocation, c: real, rows: Cluster, group: Cluster)
    requires forall i | i in rows || i in group :: a(i) == c * InverseVariance(cov, i)
    ensures VarianceFrom(cov, a, rows, group) == (c * c) * Quadratic(cov, rows, group)
  {
    hide InverseVariance, WithPortfolio, QuadraticRow;
    if rows != [] {
      assert forall i | i in rows[1..] :: i in rows;
      VarianceScaled(cov, a, c, rows[1..], group);
      RowScaled(cov, a, c, rows[0], a(rows[0]), c * c, group);
      Distributes(c * c, QuadraticRow(cov, rows[0], group), Quadratic(cov, rows[1..], group));
    }
  }

  /** A cluster's variance is that of any portfolio of inverse shares, floored. */
  lemma VarianceOfInverseShares(cov: Matrix, a: Allocation, group: Cluster)
    requires group != [] && InverseShares(cov, a, group)
    ensures ClusterVariance(cov, group) == Reals.Max(PortfolioVariance(cov, a, group), FLOOR)
  {
    hide InverseVariance, Floored, Allocated, InverseTotal, Quadratic, VarianceFrom;
    var c, t := a(group[0]) * Floored(cov, group[0]), InverseTotal(cov, group);
    forall i | i in group ensures a(i) == c * InverseVariance(cov, i) {
      assert group[0] in group;
      InverseFloored(cov, i);
      InverseTimes(Floored(cov, i), a(i), c);
    }
    AllocatedScaled(cov, a, c, group);
    VarianceScaled(cov, a, c, group, group);
    InverseTotalPositive(cov, group);
    SquareOut(c, t, Quadratic(cov, group, group));
  }

  lemma SquareOut(c: real, t: real, q: real)
    requires t > 0.0 && c * t == 1.0
    ensures (c * c) * q == q / (t * t)
  {
    var s, x := t * t, q / (t * t);
    assert s > 0.0;
    assert x * s == q;
    assert (c * c) * s == (c * t) * (c * t) == 1.0;
    assert (c * c) * (x * s) == x * ((c * c) * s);
  }

  /** Every group has exactly one portfolio of inverse shares, and its shares are positive. */
  lemma InverseSharesExist(cov: Matrix, group: Cluster) returns (a: Allocation)
    requires group != []
    ensures InverseShares(cov, a, group)
    ensures forall i | i in group :: a(i) > 0.0
    ensures forall b: Allocation | InverseShares(cov, b, group) :: forall i | i in group :: b(i) == a(i)
  {
    hide InverseVariance, Allocated, InverseTotal, InverseShares;
    var t := InverseTotal(cov, group);
    InverseTotalPositive(cov, group);
    var c := 1.0 / t;
    InverseTimes(t, c, 1.0);
    a := (i: nat) => c * InverseVariance(cov, i);
    SharesOf(cov, a, group, c);
    forall b: Allocation | InverseShares(cov, b, group) ensures forall i | i in group :: b(i) == a(i) {
      SharesSolved(cov, b, group);
    }
  }

  lemma SharesOf(cov: Matrix, a: Allocation, group: Cluster, c: real)
    requires group != [] && c > 0.0 && c * InverseTotal(cov, group) == 1.0
    requires forall i | i in group :: a(i) == c * InverseVariance(cov, i)
    ensures InverseShares(cov, a, group) && forall i | i in group :: a(i) > 0.0
  {
    hide InverseVariance, Floored, Allocated, InverseTotal;
    AllocatedScaled(cov, a, c, group);
    forall i | i in group ensures a(i) * Floored(cov, i) == c && a(i) > 0.0 {
      InverseFloored(cov, i);
      InverseTimes(Floored(cov, i), a(i), c);
      PositiveProduct(c, InverseVariance(cov, i));
    }
  }

  lemma PositiveProduct(x: real, y: real)
    requires x > 0.0 && y > 0.0
    ensures x * y > 0.0
  {}

  lemma SharesSolved(cov: Matrix, b: Allocation, group: Cluster)
    requires group != [] && InverseShares(cov, b, group)
    ensures InverseTotal(cov, group) > 0.0
    ensures forall i | i in group :: b(i) == (1.0 / InverseTotal(cov, group)) * InverseVariance(cov, i)
  {
    hide InverseVariance, Floored, Allocated, InverseTotal;
    var c, t := b(group[0]) * Floored(cov, group[0]), InverseTotal(cov, group);
    forall i | i in group ensures b(i) == c * InverseVariance(cov, i) {
      assert group[0] in group;
      InverseFloored(cov, i);
      InverseTimes(Floored(cov, i), b(i), c);
    }
    AllocatedScaled(cov, b, c, group);
    InverseTotalPositive(cov, group);
    InverseTimes(t, c, 1.0);
  }

  /** A cluster of one asset has that asset's variance. */
  lemma SingleVariance(cov: Matrix, i: nat)
    ensures ClusterVariance(cov, [i]) == Floored(cov, i)
  {
    hide Quadratic, InverseTotal;
    var a: Allocation := (j: nat) => 1.0;
    SingleSums(cov, a, i);
    VarianceOfInverseShares(cov, a, [i]);
  }

  lemma SingleSums(cov: Matrix, a: Allocation, i: nat)
    requires a(i) == 1.0
    ensures Allocated(a, [i]) == 1.0 && PortfolioVariance(cov, a, [i]) == cov(i, i)
  {
    var one: Cluster := [i];
    assert one[1..] == [];
    OneTimes(a(i), cov(i, i));
    assert WithPortfolio(cov, a, i, one) == a(i) * cov(i, i) + 0.0;
    OneTimes(a(i), WithPortfolio(cov, a, i, one));
    assert VarianceFrom(cov, a, one, one) == a(i) * WithPortfolio(cov, a, i, one) + VarianceFrom(cov, a, [], one);
  }

  lemma OneTimes(u: real, x: real)
    requires u == 1.0
    ensures u * x == x
  {}

  // ------------------------------------------------------- uncorrelated assets

  /** Different assets, no two of which covary, none with a variance below the floor. */
  ghost predicate Uncorrelated(cov: Matrix, group: Cluster) {
    && Distinct(group)
    && (forall i | i in group :: cov(i, i) >= FLOOR)
    && forall i, j | i in group && j in group && i != j :: cov(i, j) == 0.0
  }

  lemma {:induction false} RowElsewhere(cov: Matrix, i: nat, group: Cluster)
    requires forall j | j in group :: cov(i, j) == 0.0
    ensures QuadraticRow(cov, i, group) == 0.0
  {
    if group != [] {
      assert forall j | j in group[1..] :: j in group;
      RowElsewhere(cov, i, group[1..]);
      NoTerm(InverseVariance(cov, i), cov(i, group[0]), InverseVariance(cov, group[0]));
    }
  }

  lemma NoTerm(u: real, k: real, v: real)
    requires k == 0.0
    ensures u * k * v == 0.0
  {}

  lemma OwnTerm(u: real, k: real)
    requires k > 0.0 && u == 1.0 / k
    ensures u * k * u == u
  {
    assert u * k == 1.0;
  }

  lemma FirstOnce(group: Cluster)
    requires group != [] && Distinct(group)
    ensures Distinct(group[1..]) && group[0] !in group[1..]
  {
    assert group == [group[0]] + group[1..];
    DistinctConcat([group[0]], group[1..]);
    assert group[0] in [group[0]];
  }

  lemma {:induction false} RowOfMember(cov: Matrix, i: nat, group: Cluster)
    requires i in group && Distinct(group) && cov(i, i) >= FLOOR
    requires forall j | j in group && j != i :: cov(i, j) == 0.0
    ensures QuadraticRow(cov, i, group) == InverseVariance(cov, i)
  {
    hide Distinct;
    var u := InverseVariance(cov, i);
    FirstOnce(group);
    assert forall j | j in group[1..] :: j in group;
    if group[0] == i {
      RowElsewhere(cov, i, group[1..]);
      OwnTerm(u, cov(i, i));
    } else {
      RowOfMember(cov, i, group[1..]);
      NoTerm(u, cov(i, group[0]), InverseVariance(cov, group[0]));
    }
  }

  lemma {:induction false} QuadraticUncorrelated(cov: Matrix, rows: Cluster, group: Cluster)
    requires Uncorrelated(cov, group) && forall i | i in rows :: i in group
    ensures Quadratic(cov, rows, group) == InverseTotal(cov, rows)
  {
    hide InverseVariance, QuadraticRow, Distinct;
    if rows != [] {
      assert rows[0] in rows && forall i | i in rows[1..] :: i in rows;
      RowOfMember(cov, rows[0], group);
      QuadraticUncorrelated(cov, rows[1..], group);
    }
  }

  /** Uncorrelated variances combine like conductances: the inverse of the summed inverses. */
  lemma UncorrelatedVariance(cov: Matrix, group: Cluster)
    requires group != [] && Uncorrelated(cov, group)
    ensures InverseTotal(cov, group) > 0.0
    ensures ClusterVariance(cov, group) == Reals.Max(1.0 / InverseTotal(cov, group), FLOOR)
  {
    hide Uncorrelated, Quadratic, InverseTotal;
    QuadraticUncorrelated(cov, group, group);
    InverseTotalPositive(cov, group);
    OverSquare(InverseTotal(cov, group));
  }

  lemma OverSquare(t: real)
    requires t > 0.0
    ensures t / (t * t) == 1.0 / t
  {
    var x, y := t / (t * t), 1.0 / t;
    assert x * (t * t) == t && y * t == 1.0;
    assert (x * t - 1.0) * t == 0.0;
    assert (x - y) * t == 0.0;
  }

  lemma {:induction false} InverseTotalConcat(cov: Matrix, a: Cluster, b: Cluster)
    ensures InverseTotal(cov, a + b) == InverseTotal(cov, a) + InverseTotal(cov, b)
  {
    hide InverseVariance;
    if a == [] {
      assert a + b == b;
    } else {
      assert (a + b)[1..] == a[1..] + b;
      InverseTotalConcat(cov, a[1..], b);
    }
  }

  /** The floor does not bind on the whole group, nor then on any part of it. */
  ghost predicate AboveFloor(cov: Matrix, group: Cluster) { InverseTotal(cov, group) * FLOOR <= 1.0 }

  lemma HalvesUncorrelated(cov: Matrix, group: Cluster)
    requires |group| > 1 && Uncorrelated(cov, group)
    ensures var k := |group| / 2; Uncorrelated(cov, group[..k]) && Uncorrelated(cov, group[k..])
  {
    hide Distinct;
    var k := |group| / 2;
    HalvesDistinct(group);
    assert forall x | x in group[..k] :: x in group;
    assert forall x | x in group[k..] :: x in group;
  }

  lemma HalvesInverse(cov: Matrix, group: Cluster)
    requires |group| > 1 && AboveFloor(cov, group)
    ensures var k := |group| / 2;
            var x, y := InverseTotal(cov, group[..k]), InverseTotal(cov, group[k..]);
            && x > 0.0 && y > 0.0 && x + y == InverseTotal(cov, group)
            && AboveFloor(cov, group[..k]) && AboveFloor(cov, group[k..])
  {
    hide InverseTotal;
    var k := |group| / 2;
    Halves(group);
    InverseTotalConcat(cov, group[..k], group[k..]);
    InverseTotalPositive(cov, group[..k]);
    InverseTotalPositive(cov, group[k..]);
  }

  /** The left side's share is its share of the summed inverse variances. */
  lemma UncorrelatedShare(cov: Matrix, group: Cluster)
    requires |group| > 1 && Uncorrelated(cov, group) && AboveFloor(cov, group)
    ensures LeftShare(cov, group) * InverseTotal(cov, group) == InverseTotal(cov, group[..|group| / 2])
  {
    hide Distinct, InverseTotal, ClusterVariance, Uncorrelated;
    var k := |group| / 2;
    var l, r := group[..k], group[k..];
    HalvesUncorrelated(cov, group);
    HalvesInverse(cov, group);
    AboveFloorVariance(cov, l);
    AboveFloorVariance(cov, r);
    var u, v := ClusterVariance(cov, l), ClusterVariance(cov, r);
    ShareBounds(u, v, u + v, v / (u + v));
    Conductances(InverseTotal(cov, l), InverseTotal(cov, r), u, v, LeftShare(cov, group));
  }

  lemma AboveFloorVariance(cov: Matrix, group: Cluster)
    requires group != [] && Uncorrelated(cov, group) && AboveFloor(cov, group)
    ensures ClusterVariance(cov, group) * InverseTotal(cov, group) == 1.0
  {
    hide InverseTotal, ClusterVariance, Uncorrelated;
    UncorrelatedVariance(cov, group);
    AboveFloorInverse(InverseTotal(cov, group));
  }

  lemma AboveFloorInverse(t: real)
    requires t > 0.0 && t * FLOOR <= 1.0
    ensures 1.0 / t >= FLOOR && (1.0 / t) * t == 1.0
  {}

  lemma Conductances(x: real, y: real, u: real, v: real, a: real)
    requires u * x == 1.0 && v * y == 1.0 && u * a == v * (1.0 - a)
    ensures a * (x + y) == x
  {
    var c := 1.0 - a;
    assert (u * a) * (x * y) == (v * c) * (x * y);
    assert (u * a) * (x * y) == (u * x) * (a * y);
    assert (v * c) * (x * y) == (v * y) * (c * x);
    assert c * x == x - a * x;
  }

  lemma PartOfBudget(w: real, x: real, t: real, a: real, b: real, part: real, iv: real)
    requires t > 0.0 && a > 0.0 && a * t == x && part == b * a && w * x == part * iv
    ensures w * t == b * iv
  {
    assert w * (a * t) == (b * a) * iv;
    assert (w * t - b * iv) * a == 0.0;
  }

  /** `w` gives the group's assets the budget in proportion to their inverse variances. */
  ghost predicate Proportional(cov: Matrix, group: Cluster, budget: real, w: map<nat, real>) {
    forall x | x in group :: x in w && w[x] * InverseTotal(cov, group) == budget * InverseVariance(cov, x)
  }

  lemma ProportionalSame(cov: Matrix, group: Cluster, budget: real, v: map<nat, real>, w: map<nat, real>)
    requires Proportional(cov, group, budget, v) && forall x | x in group :: x in w && x in v && w[x] == v[x]
    ensures Proportional(cov, group, budget, w)
  {}

  /** On uncorrelated assets the recursive bisection, whatever the leaf order, gives each asset
      the budget in proportion to its inverse variance. */
  lemma {:induction false} UncorrelatedSplit(cov: Matrix, group: Cluster, budget: real)
    requires group != [] && Uncorrelated(cov, group) && AboveFloor(cov, group)
    ensures Proportional(cov, group, budget, SplitWeights(cov, group, budget))
    decreases |group|
  {
    hide SplitWeights, Uncorrelated, AboveFloor, LeftBudget, RightBudget, Proportional, Distinct;
    if |group| == 1 {
      SingleProportional(cov, group, budget);
    } else {
      var w, k := SplitWeights(cov, group, budget), |group| / 2;
      HalvesUncorrelated(cov, group);
      HalvesInverse(cov, group);
      GroupDistinct(cov, group);
      SplitOfHalves(cov, group, budget);
      UncorrelatedSplit(cov, group[..k], LeftBudget(cov, group, budget));
      UncorrelatedSplit(cov, group[k..], RightBudget(cov, group, budget));
      ProportionalSame(cov, group[..k], LeftBudget(cov, group, budget), LeftHalf(cov, group, budget), w);
      ProportionalSame(cov, group[k..], RightBudget(cov, group, budget), RightHalf(cov, group, budget), w);
      ProportionalJoin(cov, group, budget, w);
    }
  }

  lemma SingleProportional(cov: Matrix, group: Cluster, budget: real)
    requires |group| == 1
    ensures Proportional(cov, group, budget, SplitWeights(cov, group, budget))
  {
    assert group[1..] == [];
  }

  lemma ProportionalJoin(cov: Matrix, group: Cluster, budget: real, w: map<nat, real>)
    requires |group| > 1 && Uncorrelated(cov, group) && AboveFloor(cov, group)
    requires Proportional(cov, group[..|group| / 2], LeftBudget(cov, group, budget), w)
    requires Proportional(cov, group[|group| / 2..], RightBudget(cov, group, budget), w)
    ensures Proportional(cov, group, budget, w)
  {
    hide Uncorrelated, AboveFloor, LeftBudget, RightBudget, InverseTotal, InverseVariance;
    Halves(group);
    forall x | x in group ensures x in w && w[x] * InverseTotal(cov, group) == budget * InverseVariance(cov, x) {
      UncorrelatedMember(cov, group, budget, x, w[x]);
    }
  }

  lemma UncorrelatedMember(cov: Matrix, group: Cluster, budget: real, x: nat, w: real)
    requires |group| > 1 && Uncorrelated(cov, group) && AboveFloor(cov, group)
    requires var k := |group| / 2;
             || w * InverseTotal(cov, group[..k]) == LeftBudget(cov, group, budget) * InverseVariance(cov, x)
             || w * InverseTotal(cov, group[k..]) == RightBudget(cov, group, budget) * InverseVariance(cov, x)
    ensures w * InverseTotal(cov, group) == budget * InverseVariance(cov, x)
  {
    hide AboveFloor, InverseVariance, InverseTotal, Uncorrelated, LeftShare;
    var k, a, t, iv := |group| / 2, LeftShare(cov, group), InverseTotal(cov, group), InverseVariance(cov, x);
    UncorrelatedShare(cov, group);
    HalvesInverse(cov, group);
    RestOf(a, t, InverseTotal(cov, group[..k]), InverseTotal(cov, group[k..]));
    if w * InverseTotal(cov, group[..k]) == LeftBudget(cov, group, budget) * iv {
      PartOfBudget(w, InverseTotal(cov, group[..k]), t, a, budget, LeftBudget(cov, group, budget), iv);
    } else {
      PartOfBudget(w, InverseTotal(cov, group[k..]), t, 1.0 - a, budget, RightBudget(cov, group, budget), iv);
    }
  }

  lemma RestOf(a: real, t: real, x: real, y: real)
    requires x + y == t && a * t == x
    ensures (1.0 - a) * t == y
  {}

  lemma GroupDistinct(cov: Matrix, group: Cluster)
    requires Uncorrelated(cov, group)
    ensures Distinct(group)
  {}

  /** So weight times variance is the same for all of them. */
  lemma UncorrelatedParity(cov: Matrix, group: Cluster, budget: real, i: nat, j: nat)
    requires group != [] && Uncorrelated(cov, group) && AboveFloor(cov, group) && i in group && j in group
    ensures i in SplitWeights(cov, group, budget) && j in SplitWeights(cov, group, budget)
    ensures SplitWeights(cov, group, budget)[i] * cov(i, i) == SplitWeights(cov, group, budget)[j] * cov(j, j)
  {
    hide AboveFloor, SplitWeights, InverseTotal, Distinct;
    var w, t := SplitWeights(cov, group, budget), InverseTotal(cov, group);
    UncorrelatedSplit(cov, group, budget);
    assert Proportional(cov, group, budget, w);
    InverseTotalPositive(cov, group);
    RiskOf(w[i], t, budget, InverseVariance(cov, i), cov(i, i));
    RiskOf(w[j], t, budget, InverseVariance(cov, j), cov(j, j));
    SameQuotient(w[i] * cov(i, i), w[j] * cov(j, j), t);
  }

  lemma RiskOf(w: real, t: real, b: real, iv: real, v: real)
    requires v > 0.0 && iv == 1.0 / v && w * t == b * iv
    ensures (w * v) * t == b
  {
    assert iv * v == 1.0;
    assert (w * v) * t == (w * t) * v == b * (iv * v);
  }

  lemma SameQuotient(x: real, y: real, t: real)
    requires t > 0.0 && x * t == y * t
    ensures x == y
  {}

  // ------------------------------------------------------------ the whole model

  /** Every level of a clustering run has each asset once. */
  lemma {:induction false} LevelCount(levels: seq<seq<Cluster>>, n: nat, d: Clustering.Distance, k: nat, x: nat)
    requires Clustering.IsAgglomeration(levels, n, d) && k < |levels|
    ensures Clustering.Count(levels[k], x) == multiset(Clustering.Assets(n))[x]
  {
    hide Clustering.Count, Clustering.MergePair;
    if k == 0 {
      Clustering.SingletonsCount(n, x);
    } else {
      LevelCount(levels, n, d, k - 1, x);
      assert Clustering.IsMerge(levels[k - 1], levels[k], d);
      var l: nat, r: nat :| Clustering.IsClosest(levels[k - 1], d, l, r)
                            && levels[k] == Clustering.MergePair(levels[k - 1], l, r);
      Clustering.ClosestInRange(levels[k - 1], d, l, r);
      Clustering.MergeKeepsCount(levels[k - 1], l, r, x);
    }
  }

  /** On uncorrelated assets the weights the model scores are the inverse-variance portfolio of
      all of them, whatever the distances the clustering was given. */
  lemma UncorrelatedModel(
      cov: Matrix, d: Clustering.Distance, n: nat, levels: seq<seq<Cluster>>, raw: seq<real>, i: nat, j: nat)
    requires IsSplitOf(cov, d, n, levels, raw) && i < n && j < n
    requires forall x | 0 <= x < n :: cov(x, x) >= FLOOR
    requires forall x, y | 0 <= x < n && 0 <= y < n && x != y :: cov(x, y) == 0.0
    requires AboveFloor(cov, levels[|levels| - 1][0])
    ensures raw[i] * cov(i, i) == raw[j] * cov(j, j)
  {
    hide Clustering.Count, SplitWeights, AboveFloor;
    var last := |levels| - 1;
    var order := levels[last][0];
    assert levels[last] == [order];
    assert multiset(order) == multiset(Clustering.Assets(n)) by {
      forall x ensures multiset(order)[x] == multiset(Clustering.Assets(n))[x] {
        LevelCount(levels, n, d, last, x);
        Clustering.CountOne(order, x);
      }
    }
    OrderIsPermutation(order, n);
    UncorrelatedParity(cov, order, 1.0, i, j);
  }
}
