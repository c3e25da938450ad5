/** Projection of scores onto a box-bounded simplex: a bisection on the shift, then a pass
    that repairs the residual, and the score-to-weight front end that calls it. */
module Projection {
  import opened Reals
  import opened Wrappers
  import opened Vectors

  const TOLERANCE: real := 0.000000000001
  const CONVERGED: real := 0.0000000001

  datatype PortfolioError = EmptyScores | Infeasible | DidNotConverge

  predicate FeasibleBounds(n: nat, lower: real, upper: real, target: real) {
    n as real * lower <= target + TOLERANCE && n as real * upper >= target - TOLERANCE
  }

  /** Sum of the clipped vector at a given shift. */
  function Level(v: seq<real>, shift: real, lower: real, upper: real): real {
    Sum(ClipShift(v, shift, lower, upper))
  }

  function Least(v: seq<real>): (m: real)
    requires v != []
    ensures m in v && forall i | 0 <= i < |v| :: m <= v[i]
  {
    var last := v[|v| - 1];
    if |v| == 1 then last else Min(Least(v[..|v| - 1]), last)
  }

  function Greatest(v: seq<real>): (m: real)
    requires v != []
    ensures m in v && forall i | 0 <= i < |v| :: m >= v[i]
  {
    var last := v[|v| - 1];
    if |v| == 1 then last else Max(Greatest(v[..|v| - 1]), last)
  }

  /** Width of the first bracket: `max(values - lower) - min(values - upper)`. */
  function Spread(v: seq<real>, lower: real, upper: real): real
    requires v != []
  {
    (Greatest(v) - lower) - (Least(v) - upper)
  }

  /** The bound on the sum's error after a hundred halvings. */
  function ErrorBound(v: seq<real>, lower: real, upper: real): real
    requires v != []
  {
    Times(|v|, Half(Spread(v, lower, upper), 101)) + TOLERANCE
  }

  // ------------------------------------------------------------- the bisection

  lemma LevelAtEdge(v: seq<real>, shift: real, lower: real, upper: real, edge: real)
    requires forall i | 0 <= i < |v| :: Clip(v[i] - shift, lower, upper) == edge
    ensures Level(v, shift, lower, upper) == |v| as real * edge
  {
    hide Clip;
    SumConstant(ClipShift(v, shift, lower, upper), edge);
    TimesIsProduct(|v|, edge);
  }

  lemma LevelAtEnds(v: seq<real>, lower: real, upper: real, target: real)
    requires v != [] && lower <= upper && FeasibleBounds(|v|, lower, upper, target)
    ensures Level(v, Least(v) - upper, lower, upper) >= target - TOLERANCE
    ensures Level(v, Greatest(v) - lower, lower, upper) <= target + TOLERANCE
    ensures Spread(v, lower, upper) >= 0.0
  {
    hide Level, Least, Greatest;
    LevelAtEdge(v, Least(v) - upper, lower, upper, upper);
    LevelAtEdge(v, Greatest(v) - lower, lower, upper, lower);
  }

  method Bisect(v: seq<real>, lower: real, upper: real, target: real)
    returns (low: real, high: real)
    requires v != [] && lower <= upper && FeasibleBounds(|v|, lower, upper, target)
    ensures low <= high && high - low == Half(Spread(v, lower, upper), 100)
    ensures Least(v) - upper <= low && high <= Greatest(v) - lower
    ensures Level(v, low, lower, upper) >= target - TOLERANCE
    ensures Level(v, high, lower, upper) <= target + TOLERANCE
  {
    low, high := Least(v) - upper, Greatest(v) - lower;
    LevelAtEnds(v, lower, upper, target);
    for i := 0 to 100
      invariant low <= high && high - low == Half(Spread(v, lower, upper), i)
      invariant Least(v) - upper <= low && high <= Greatest(v) - lower
      invariant Level(v, low, lower, upper) >= target - TOLERANCE
      invariant Level(v, high, lower, upper) <= target + TOLERANCE
    {
      var midpoint := (low + high) / 2.0;
      var total := Level(v, midpoint, lower, upper);
      if total > target { low := midpoint; } else { high := midpoint; }
    }
  }

  lemma MidpointError(v: seq<real>, low: real, high: real, lower: real, upper: real, target: real)
    requires v != [] && lower <= upper && low <= high
    requires high - low == Half(Spread(v, lower, upper), 100)
    requires Level(v, low, lower, upper) >= target - TOLERANCE
    requires Level(v, high, lower, upper) <= target + TOLERANCE
    ensures Abs(target - Level(v, (low + high) / 2.0, lower, upper)) <= ErrorBound(v, lower, upper)
  {
    hide Half;
    var mid, w := (low + high) / 2.0, Half(Spread(v, lower, upper), 101);
    assert w == (high - low) / 2.0 by { HalfStep(Spread(v, lower, upper), 100); }
    ClipShiftGap(v, low, mid, lower, upper);
    ClipShiftGap(v, mid, high, lower, upper);
    assert mid - low == w && high - mid == w;
  }

  // --------------------------------------------------------------- the repair

  /** What the repair keeps: the residual is what is missing, and only coordinates already
      visited have moved, all of them to the edge the residual points at. */
  ghost predicate Repairing(
      now: seq<real>, start: seq<real>, residual: real, target: real, edge: real, i: nat)
    requires |now| == |start|
  {
    && Sum(now) + residual == target
    && (forall j | 0 <= j < i && j < |now| :: now[j] == edge)
    && (forall j | i <= j < |now| :: now[j] == start[j])
  }

  lemma AllAtEdge(now: seq<real>, lower: real, upper: real, target: real, edge: real)
    requires forall j | 0 <= j < |now| :: now[j] == edge
    requires FeasibleBounds(|now|, lower, upper, target)
    ensures edge == upper ==> target - Sum(now) <= TOLERANCE
    ensures edge == lower ==> target - Sum(now) >= -TOLERANCE
  {
    SumConstant(now, edge);
    TimesIsProduct(|now|, edge);
  }

  lemma RepairStep(
      now: seq<real>, start: seq<real>, residual: real, target: real, edge: real, i: nat, adjustment: real)
    requires i < |now| == |start|
    requires Repairing(now, start, residual, target, edge, i)
    ensures Sum(now[i := now[i] + adjustment]) + (residual - adjustment) == target
    ensures now[i] + adjustment == edge ==>
      Repairing(now[i := now[i] + adjustment], start, residual - adjustment, target, edge, i + 1)
  {
    SumUpdate(now, i, now[i] + adjustment);
  }

  lemma RepairApart(now: seq<real>, start: seq<real>, target: real)
    requires |now| == |start|
    requires (forall j | 0 <= j < |now| :: start[j] <= now[j]) || (forall j | 0 <= j < |now| :: now[j] <= start[j])
    requires Abs(target - Sum(start)) == Abs(target - Sum(now)) + Abs(Sum(now) - Sum(start))
    ensures Apart(now, start) <= Abs(target - Sum(start))
  {
    if forall j | 0 <= j < |now| :: start[j] <= now[j] {
      OrderedApart(now, start);
    } else {
      OrderedApart(start, now);
    }
  }

  /** Pushes the residual into coordinates with room, in index order, until it is gone. */
  method Repair(start: seq<real>, lower: real, upper: real, target: real) returns (result: array<real>)
    requires lower <= upper && InBox(start, lower, upper)
    requires FeasibleBounds(|start|, lower, upper, target)
    ensures fresh(result) && result.Length == |start|
    ensures InBox(result[..], lower, upper)
    ensures Abs(target - Sum(result[..])) <= TOLERANCE
    ensures Apart(result[..], start) <= Abs(target - Sum(start))
    ensures Abs(target - Sum(start)) <= TOLERANCE ==> result[..] == start
  {
    hide Sum, FeasibleBounds, Apart;
    var n := |start|;
    result := new real[n](i requires 0 <= i < n => start[i]);
    assert result[..] == start;
    var residual := target - Sum(start);
    if Abs(residual) > TOLERANCE {
      var up := residual > 0.0;
      var edge := if up then upper else lower;
      var capacity := seq(n, i requires 0 <= i < n => if up then upper - start[i] else start[i] - lower);
      var i := 0;
      while i < n
        invariant 0 <= i <= n
        invariant Repairing(result[..], start, residual, target, edge, i)
        invariant Abs(residual) > TOLERANCE && up == (residual > 0.0)
      {
        if capacity[i] > 0.0 {
          var size := Min(Abs(residual), capacity[i]);
          var adjustment := if residual < 0.0 then -size else size;
          RepairStep(result[..], start, residual, target, edge, i, adjustment);
          ghost var before := result[..];
          result[i] := result[i] + adjustment;
          assert result[..] == before[i := before[i] + adjustment];
          residual := residual - adjustment;
          if Abs(residual) <= TOLERANCE { break; }
        }
        i := i + 1;
      }
      if i == n { AllAtEdge(result[..], lower, upper, target, edge); }
    }
    RepairApart(result[..], start, target);
  }

  /** Never fails on feasible bounds: the repaired vector lies in the box, sums to the target
      within the tolerance, lies within the bound of a vector that is an exact projection, and is
      nearest to the scores up to that error. */
  method BoundedSimplex(v: seq<real>, lower: real, upper: real, target: real)
    returns (r: Result<seq<real>, PortfolioError>, ghost shift: real)
    requires lower <= upper
    ensures r.Err? <==> v == [] || !FeasibleBounds(|v|, lower, upper, target)
    ensures r != Err(DidNotConverge)
    ensures r.Ok? ==>
      && |r.value| == |v| && InBox(r.value, lower, upper)
      && Abs(target - Sum(r.value)) <= TOLERANCE
      && Abs(target - Level(v, shift, lower, upper)) <= ErrorBound(v, lower, upper)
      && Apart(r.value, ClipShift(v, shift, lower, upper)) <= ErrorBound(v, lower, upper)
      && NearestUpToError(v, r.value, lower, upper, target)
  {
    hide Sum, Apart, ErrorBound, Least, Greatest, NearestUpToError, Clip, Half;
    shift := 0.0;
    if v == [] { return Err(EmptyScores), shift; }
    var n := |v|;
    if n as real * lower > target + TOLERANCE || n as real * upper < target - TOLERANCE {
      return Err(Infeasible), shift;
    }
    var low, high := Bisect(v, lower, upper, target);
    MidpointError(v, low, high, lower, upper, target);
    shift := (low + high) / 2.0;
    var start := ClipShift(v, (low + high) / 2.0, lower, upper);
    ClipInBox(v, shift, lower, upper);
    var result := Repair(start, lower, upper, target);
    if Abs(target - Sum(result[..])) > CONVERGED { return Err(DidNotConverge), shift; }
    ReturnedIsNearest(v, result[..], shift, lower, upper, target);
    r := Ok(result[..]);
  }

  // --------------------------------------------------------------- optimality

  /** The clipped vector is the projection: every other point of the box with the same sum
      is strictly further from the scores, by at least its own distance from the vector. */
  lemma ClipIsProjection(v: seq<real>, y: seq<real>, shift: real, lower: real, upper: real)
    requires lower <= upper && |y| == |v| && InBox(y, lower, upper)
    requires Sum(y) == Level(v, shift, lower, upper)
    ensures var x := ClipShift(v, shift, lower, upper);
            SquaredDistance(y, v) >= SquaredDistance(x, v) + SquaredDistance(y, x)
            && (SquaredDistance(y, v) <= SquaredDistance(x, v) ==> y == x)
  {
    hide SquaredDistance, Sum, Clip;
    var d := Sum(y) - Level(v, shift, lower, upper);
    NoShift(shift, d);
    ClipVariationalBy(v, y, shift, lower, upper, d, shift * d);
    ZeroDistance(y, ClipShift(v, shift, lower, upper));
  }

  lemma NoShift(s: real, d: real)
    requires d == 0.0
    ensures s * d == 0.0
  {}

  lemma ClipVariationalBy(v: seq<real>, y: seq<real>, shift: real, lower: real, upper: real, d: real, m: real)
    requires lower <= upper && |y| == |v| && InBox(y, lower, upper)
    requires d == Sum(y) - Level(v, shift, lower, upper) && m == shift * d
    ensures var x := ClipShift(v, shift, lower, upper);
            SquaredDistance(y, v) >= SquaredDistance(x, v) + SquaredDistance(y, x) - 2.0 * m
  {
    hide SquaredDistance, Sum, Clip, ClipShift;
    ClipVariational(v, y, shift, lower, upper);
  }

  /** How far a point of the box can be from a score. */
  function Reach(v: seq<real>, lower: real, upper: real): real
    requires v != []
  {
    Max(upper - Least(v), Greatest(v) - lower)
  }

  lemma ReachBounds(v: seq<real>, lower: real, upper: real, y: seq<real>)
    requires v != [] && |y| == |v| && InBox(y, lower, upper)
    ensures forall i | 0 <= i < |v| :: Abs(y[i] - v[i]) <= Reach(v, lower, upper)
  {}

  /** Price of moving `a` where every unit costs at most twice the reach. */
  function Price(reach: real, a: real): real { 2.0 * (reach * a) }

  lemma PriceZero(reach: real)
    ensures Price(reach, 0.0) == 0.0
  {}

  lemma PriceAdd(reach: real, a: real, b: real, c: real)
    requires c == a + b
    ensures Price(reach, c) == Price(reach, a) + Price(reach, b)
  {}

  lemma PriceMonotone(reach: real, a: real, b: real)
    requires reach >= 0.0 && a <= b
    ensures Price(reach, a) <= Price(reach, b)
  {
    ScaleBound(a, b, reach);
  }

  lemma MovePoint(r: real, x: real, v: real, reach: real)
    requires Abs(r - v) <= reach && Abs(x - v) <= reach
    ensures Square(r - v) <= Square(x - v) + Price(reach, Abs(r - x))
  {
    var d, e := r - v, x - v;
    SquareGap(d, e, d + e, d - e);
    if d >= e { ScaleBound(d + e, 2.0 * reach, d - e); } else { ScaleBound(-(d + e), 2.0 * reach, e - d); }
  }

  lemma SquareGap(d: real, e: real, s: real, g: real)
    requires s == d + e && g == d - e
    ensures Square(d) - Square(e) == s * g
  {}

  lemma ScaleBound(x: real, y: real, a: real)
    requires a >= 0.0 && x <= y
    ensures x * a <= y * a
  {}

  /** Moving inside the reach costs at most twice the reach for every unit moved. */
  lemma {:induction false} MoveCost(r: seq<real>, x: seq<real>, v: seq<real>, reach: real)
    requires |r| == |x| == |v|
    requires forall i | 0 <= i < |v| :: Abs(r[i] - v[i]) <= reach && Abs(x[i] - v[i]) <= reach
    ensures SquaredDistance(r, v) <= SquaredDistance(x, v) + Price(reach, Apart(r, x))
  {
    hide Square, Abs, Price;
    if v == [] {
      PriceZero(reach);
    } else {
      var n := |v| - 1;
      MoveCost(r[..n], x[..n], v[..n], reach);
      MovePoint(r[n], x[n], v[n], reach);
      PriceAdd(reach, Apart(r[..n], x[..n]), Abs(r[n] - x[n]), Apart(r, x));
    }
  }

  /** `y` is admissible: in the box, with exactly the target sum. */
  ghost predicate Admissible(v: seq<real>, y: seq<real>, lower: real, upper: real, target: real) {
    |y| == |v| && InBox(y, lower, upper) && Sum(y) == target
  }

  /** No admissible portfolio is nearer to the scores by more than four times the reach for
      every unit of the error bound. */
  ghost predicate NearestUpToError(v: seq<real>, result: seq<real>, lower: real, upper: real, target: real)
    requires v != [] && |result| == |v|
  {
    forall y | Admissible(v, y, lower, upper, target) ::
      SquaredDistance(result, v)
      <= SquaredDistance(y, v) + 2.0 * Price(Reach(v, lower, upper), ErrorBound(v, lower, upper))
  }

  /** The portfolio returned, not only the vector before its repair, is nearly the nearest. */
  lemma NearlyOptimal(
      v: seq<real>, y: seq<real>, result: seq<real>, shift: real, lower: real, upper: real, target: real)
    requires v != [] && lower <= upper && |result| == |v| && InBox(result, lower, upper)
    requires Least(v) - upper <= shift <= Greatest(v) - lower
    requires Abs(target - Level(v, shift, lower, upper)) <= ErrorBound(v, lower, upper)
    requires Apart(result, ClipShift(v, shift, lower, upper)) <= ErrorBound(v, lower, upper)
    requires Admissible(v, y, lower, upper, target)
    ensures SquaredDistance(result, v)
            <= SquaredDistance(y, v) + 2.0 * Price(Reach(v, lower, upper), ErrorBound(v, lower, upper))
  {
    hide SquaredDistance, ErrorBound, Level, Apart, Price, InBox, ClipShift, Reach, Admissible;
    ClippedNearlyOptimal(v, y, shift, lower, upper, target);
    RepairedNearClipped(v, result, shift, lower, upper);
  }

  lemma ReturnedIsNearest(
      v: seq<real>, result: seq<real>, shift: real, lower: real, upper: real, target: real)
    requires v != [] && lower <= upper && |result| == |v| && InBox(result, lower, upper)
    requires Least(v) - upper <= shift <= Greatest(v) - lower
    requires Abs(target - Level(v, shift, lower, upper)) <= ErrorBound(v, lower, upper)
    requires Apart(result, ClipShift(v, shift, lower, upper)) <= ErrorBound(v, lower, upper)
    ensures NearestUpToError(v, result, lower, upper, target)
  {
    hide SquaredDistance, ErrorBound, Level, Apart, Price, InBox, ClipShift, Reach, Sum;
    forall y | Admissible(v, y, lower, upper, target)
      ensures SquaredDistance(result, v)
              <= SquaredDistance(y, v) + 2.0 * Price(Reach(v, lower, upper), ErrorBound(v, lower, upper))
    {
      NearlyOptimal(v, y, result, shift, lower, upper, target);
    }
  }

  lemma RepairedNearClipped(v: seq<real>, result: seq<real>, shift: real, lower: real, upper: real)
    requires v != [] && lower <= upper && |result| == |v| && InBox(result, lower, upper)
    requires Apart(result, ClipShift(v, shift, lower, upper)) <= ErrorBound(v, lower, upper)
    ensures SquaredDistance(result, v) <= SquaredDistance(ClipShift(v, shift, lower, upper), v)
              + Price(Reach(v, lower, upper), ErrorBound(v, lower, upper))
  {
    hide SquaredDistance, ErrorBound, Apart, Price, Clip, Reach;
    var x, reach := ClipShift(v, shift, lower, upper), Reach(v, lower, upper);
    ClipInBox(v, shift, lower, upper);
    ReachBounds(v, lower, upper, result);
    ReachBounds(v, lower, upper, x);
    MoveCost(result, x, v, reach);
    assert Abs(result[0] - v[0]) <= reach;
    PriceMonotone(reach, Apart(result, x), ErrorBound(v, lower, upper));
  }

  lemma ClippedNearlyOptimal(v: seq<real>, y: seq<real>, shift: real, lower: real, upper: real, target: real)
    requires v != [] && lower <= upper && Least(v) - upper <= shift <= Greatest(v) - lower
    requires Abs(target - Level(v, shift, lower, upper)) <= ErrorBound(v, lower, upper)
    requires Admissible(v, y, lower, upper, target)
    ensures SquaredDistance(ClipShift(v, shift, lower, upper), v)
              <= SquaredDistance(y, v) + Price(Reach(v, lower, upper), ErrorBound(v, lower, upper))
  {
    hide SquaredDistance, ErrorBound, Level, Price, InBox, Clip, Reach, Sum;
    var e, reach := ErrorBound(v, lower, upper), Reach(v, lower, upper);
    var d := Sum(y) - Level(v, shift, lower, upper);
    ShiftWithinReach(v, shift, lower, upper);
    ClipVariationalBy(v, y, shift, lower, upper, d, shift * d);
    ZeroDistance(y, ClipShift(v, shift, lower, upper));
    ShiftPrice(shift, d, e, reach);
  }

  lemma ShiftWithinReach(v: seq<real>, shift: real, lower: real, upper: real)
    requires v != [] && Least(v) - upper <= shift <= Greatest(v) - lower
    ensures Abs(shift) <= Reach(v, lower, upper)
  {
    hide Least, Greatest;
  }

  lemma ShiftPrice(s: real, d: real, e: real, reach: real)
    requires Abs(d) <= e && Abs(s) <= reach
    ensures 2.0 * (s * d) <= Price(reach, e)
  {
    ProductBound(s, d, e);
    ScaleBound(Abs(s), reach, e);
  }

  lemma ProductBound(s: real, d: real, e: real)
    requires Abs(d) <= e
    ensures s * d <= Abs(s) * e
  {}

  lemma {:induction false} ZeroDistance(a: seq<real>, b: seq<real>)
    requires |a| == |b|
    ensures SquaredDistance(a, b) >= 0.0
    ensures SquaredDistance(a, b) <= 0.0 ==> a == b
  {
    if a != [] {
      var n := |a| - 1;
      ZeroDistance(a[..n], b[..n]);
      SquareSign(a[n] - b[n]);
      if SquaredDistance(a, b) <= 0.0 {
        assert a == a[..n] + [a[n]] && b == b[..n] + [b[n]];
      }
    }
  }

  lemma SquareSign(x: real)
    ensures Square(x) >= 0.0 && (Square(x) <= 0.0 ==> x == 0.0)
  {
    if x > 0.0 {
      PositiveProduct(x, x, Square(x));
    } else if x < 0.0 {
      NegatedSquare(x, -x, Square(x));
      PositiveProduct(-x, -x, Square(x));
    }
  }

  lemma PositiveProduct(a: real, b: real, s: real)
    requires a > 0.0 && b > 0.0 && s == a * b
    ensures s > 0.0
  {}

  lemma NegatedSquare(x: real, y: real, s: real)
    requires y == -x && s == x * x
    ensures s == y * y
  {}

  /** The result is within twice the error bound of the exact projection at the target sum. */
  lemma NearExactProjection(
      v: seq<real>, result: seq<real>, shift: real, exact: real, lower: real, upper: real, target: real)
    requires v != [] && |result| == |v| && lower <= upper
    requires Abs(target - Level(v, shift, lower, upper)) <= ErrorBound(v, lower, upper)
    requires Apart(result, ClipShift(v, shift, lower, upper)) <= ErrorBound(v, lower, upper)
    requires Level(v, exact, lower, upper) == target
    ensures Apart(result, ClipShift(v, exact, lower, upper)) <= 2.0 * ErrorBound(v, lower, upper)
  {
    hide Sum, ErrorBound;
    var x, p := ClipShift(v, shift, lower, upper), ClipShift(v, exact, lower, upper);
    ClipShiftApart(v, shift, exact, lower, upper);
    ApartTriangle(result, x, p);
  }

  /** Scores that already form an admissible portfolio are their own projection, and come
      back within twice the error bound. */
  lemma AdmissibleScoresAreKept(
      v: seq<real>, result: seq<real>, shift: real, lower: real, upper: real, target: real)
    requires v != [] && |result| == |v| && lower <= upper
    requires InBox(v, lower, upper) && Sum(v) == target
    requires Abs(target - Level(v, shift, lower, upper)) <= ErrorBound(v, lower, upper)
    requires Apart(result, ClipShift(v, shift, lower, upper)) <= ErrorBound(v, lower, upper)
    ensures Apart(result, v) <= 2.0 * ErrorBound(v, lower, upper)
  {
    assert ClipShift(v, 0.0, lower, upper) == v;
    NearExactProjection(v, result, shift, 0.0, lower, upper, target);
  }

  // ----------------------------------------------------------- score weighting

  function Positives(v: seq<real>): seq<real> {
    seq(|v|, i requires 0 <= i < |v| => Max(v[i], 0.0))
  }

  function Ones(n: nat): seq<real> { seq(n, _ => 1.0) }

  /** Negative scores count for nothing, and scores with no positive mass for equal weights. */
  function UsableScores(scores: seq<real>): seq<real>
    requires scores != []
  {
    if Sum(scores) <= TOLERANCE || Greatest(scores) <= 0.0 then Ones(|scores|) else Positives(scores)
  }

  function ScaledTo(v: seq<real>, k: real): seq<real> {
    seq(|v|, i requires 0 <= i < |v| => v[i] * k)
  }

  function Normalized(scores: seq<real>, gross: real): seq<real>
    requires scores != [] && Sum(UsableScores(scores)) != 0.0
  {
    ScaledTo(UsableScores(scores), gross / Sum(UsableScores(scores)))
  }

  lemma {:induction false} SumLe(a: seq<real>, b: seq<real>)
    requires |a| == |b|
    requires forall i | 0 <= i < |a| :: a[i] <= b[i]
    ensures Sum(a) <= Sum(b)
  {
    if a != [] { SumLe(a[..|a| - 1], b[..|b| - 1]); }
  }

  lemma {:induction false} SumScaled(v: seq<real>, k: real)
    ensures Sum(ScaledTo(v, k)) == Sum(v) * k
  {
    if v != [] {
      var n := |v| - 1;
      SumScaled(v[..n], k);
      forall i | 0 <= i < n ensures ScaledTo(v, k)[..n][i] == ScaledTo(v[..n], k)[i] {
        assert v[..n][i] == v[i];
      }
      assert ScaledTo(v, k)[..n] == ScaledTo(v[..n], k);
      AddFactors(Sum(v[..n]), v[n], Sum(v), k);
    }
  }

  lemma AddFactors(a: real, b: real, c: real, k: real)
    requires c == a + b
    ensures c * k == a * k + b * k
  {}

  /** The normalising division is safe, and the normalised scores sum to the gross target. */
  lemma NormalizedScores(scores: seq<real>, gross: real)
    requires scores != [] && gross > 0.0
    ensures Sum(UsableScores(scores)) > 0.0
    ensures Sum(Normalized(scores, gross)) == gross
    ensures forall i | 0 <= i < |scores| :: Normalized(scores, gross)[i] >= 0.0
  {
    hide Sum, UsableScores;
    UsableScoresPositive(scores);
    var u := UsableScores(scores);
    var total := Sum(u);
    var k := gross / total;
    SumScaled(u, k);
    DivideBack(gross, total);
    forall i | 0 <= i < |u| ensures ScaledTo(u, k)[i] >= 0.0 {
      var x := u[i];
      ProductSign(x, k);
      assert ScaledTo(u, k)[i] == x * k;
    }
  }

  /** Each score counts in proportion, negative ones for nothing; without positive mass all count
      the same. */
  lemma NormalizedShares(scores: seq<real>, gross: real, i: nat, j: nat)
    requires gross > 0.0 && i < |scores| && j < |scores|
    ensures Sum(UsableScores(scores)) != 0.0 && |Normalized(scores, gross)| == |scores|
    ensures var v := Normalized(scores, gross);
            if Sum(scores) <= TOLERANCE || forall m | 0 <= m < |scores| :: scores[m] <= 0.0 then v[i] == v[j]
            else v[i] * Max(scores[j], 0.0) == v[j] * Max(scores[i], 0.0)
  {
    hide Sum, UsableScores, Normalized;
    UsableScoresPositive(scores);
    NormalizedLength(scores, gross);
    UsableScoreIs(scores, i);
    UsableScoreIs(scores, j);
    NormalizedAt(scores, gross, i);
    NormalizedAt(scores, gross, j);
    var k := gross / Sum(UsableScores(scores));
    CrossRatio(UsableScores(scores)[i], UsableScores(scores)[j], k);
  }

  lemma UsableScoreIs(scores: seq<real>, i: nat)
    requires i < |scores|
    ensures |UsableScores(scores)| == |scores|
    ensures UsableScores(scores)[i] ==
              if Sum(scores) <= TOLERANCE || forall m | 0 <= m < |scores| :: scores[m] <= 0.0 then 1.0
              else Max(scores[i], 0.0)
  {
    hide Sum;
    assert Greatest(scores) in scores;
  }

  lemma NormalizedAt(scores: seq<real>, gross: real, i: nat)
    requires i < |scores| && |UsableScores(scores)| == |scores| && Sum(UsableScores(scores)) != 0.0
    ensures |Normalized(scores, gross)| == |scores|
    ensures Normalized(scores, gross)[i] == UsableScores(scores)[i] * (gross / Sum(UsableScores(scores)))
  {
    hide Sum, UsableScores;
  }

  lemma CrossRatio(x: real, y: real, k: real)
    ensures (x * k) * y == (y * k) * x
  {}

  lemma UsableScoresPositive(scores: seq<real>)
    requires scores != []
    ensures |UsableScores(scores)| == |scores|
    ensures Sum(UsableScores(scores)) > 0.0
    ensures forall i | 0 <= i < |scores| :: UsableScores(scores)[i] >= 0.0
  {
    hide Sum;
    var u := UsableScores(scores);
    if Sum(scores) <= TOLERANCE || Greatest(scores) <= 0.0 {
      SumConstant(u, 1.0);
      TimesIsProduct(|u|, 1.0);
    } else {
      SumLe(scores, u);
    }
  }

  lemma DivideBack(g: real, s: real)
    requires g > 0.0 && s > 0.0
    ensures s * (g / s) == g && g / s > 0.0
  {}

  lemma ProductSign(x: real, k: real)
    requires x >= 0.0 && k >= 0.0
    ensures x * k >= 0.0
  {}

  method ScoreWeights(scores: seq<real>, lower: real, upper: real, gross: real)
    returns (r: Result<seq<real>, PortfolioError>, ghost shift: real)
    requires scores != [] && lower <= upper && gross > 0.0
    ensures Sum(UsableScores(scores)) > 0.0
    ensures r.Err? <==> !FeasibleBounds(|scores|, lower, upper, gross)
    ensures r.Ok? ==>
      && |r.value| == |scores| && InBox(r.value, lower, upper)
      && Abs(gross - Sum(r.value)) <= TOLERANCE
      && Abs(gross - Level(Normalized(scores, gross), shift, lower, upper))
         <= ErrorBound(Normalized(scores, gross), lower, upper)
      && Apart(r.value, ClipShift(Normalized(scores, gross), shift, lower, upper))
         <= ErrorBound(Normalized(scores, gross), lower, upper)
      && NearestUpToError(Normalized(scores, gross), r.value, lower, upper, gross)
      && (InBox(Normalized(scores, gross), lower, upper) ==>
            Apart(r.value, Normalized(scores, gross))
            <= 2.0 * ErrorBound(Normalized(scores, gross), lower, upper))
  {
    hide Sum, UsableScores, Normalized;
    NormalizedScores(scores, gross);
    var v := Normalized(scores, gross);
    assert |v| == |scores| by { NormalizedLength(scores, gross); }
    r, shift := BoundedSimplex(v, lower, upper, gross);
    if r.Ok? && InBox(v, lower, upper) {
      AdmissibleScoresAreKept(v, r.value, shift, lower, upper, gross);
    }
  }

  lemma NormalizedLength(scores: seq<real>, gross: real)
    requires scores != [] && Sum(UsableScores(scores)) != 0.0
    ensures |Normalized(scores, gross)| == |scores|
  {}
}
