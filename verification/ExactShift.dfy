/** The exact projection the bisection approaches: a shift that meets the target exactly exists
    whenever the box allows the target, and the returned portfolio lies close to it. */
module ExactShift {
  import opened Reals
  import opened Vectors
  import opened Projection

  /** The shifts at which some coordinate starts or stops being clipped. */
  function Kinks(v: seq<real>, lower: real, upper: real): seq<real> {
    if v == [] then []
    else
      var n := |v| - 1;
      Kinks(v[..n], lower, upper) + [v[n] - upper, v[n] - lower]
  }

  function Inside(ks: seq<real>, low: real, high: real): nat {
    if ks == [] then 0
    else Inside(ks[..|ks| - 1], low, high) + if low < ks[|ks| - 1] < high then 1 else 0
  }

  lemma {:induction false} InsideNarrower(ks: seq<real>, low: real, high: real, a: real, b: real)
    requires low <= a && b <= high
    ensures Inside(ks, a, b) <= Inside(ks, low, high)
    ensures (exists i :: 0 <= i < |ks| && low < ks[i] < high && !(a < ks[i] < b)) ==>
              Inside(ks, a, b) < Inside(ks, low, high)
  {
    if ks != [] {
      var n := |ks| - 1;
      InsideNarrower(ks[..n], low, high, a, b);
      if i :| 0 <= i < |ks| && low < ks[i] < high && !(a < ks[i] < b) {
        if i < n { assert ks[..n][i] == ks[i]; }
      }
    }
  }

  lemma {:induction false} SomeInside(ks: seq<real>, low: real, high: real) returns (i: nat)
    requires Inside(ks, low, high) > 0
    ensures i < |ks| && low < ks[i] < high
  {
    var n := |ks| - 1;
    if low < ks[n] < high { i := n; } else { i := SomeInside(ks[..n], low, high); }
  }

  /** Between two kinks a coordinate is clipped throughout or moves with the shift. */
  lemma PointMoves(x: real, low: real, high: real, s: real, lower: real, upper: real)
    requires lower <= upper && low <= s <= high
    requires !(low < x - upper < high) && !(low < x - lower < high)
    ensures var a, b, c := Clip(x - low, lower, upper), Clip(x - high, lower, upper), Clip(x - s, lower, upper);
            (a == b == c) || (a == x - low && b == x - high && c == x - s)
  {
    hide Clip;
    if x - upper >= high {
      ClipTop(x - s, lower, upper);
      ClipTop(x - low, lower, upper);
      ClipTop(x - high, lower, upper);
    } else if x - lower <= low {
      ClipBottom(x - s, lower, upper);
      ClipBottom(x - low, lower, upper);
      ClipBottom(x - high, lower, upper);
    } else {
      ClipMiddle(x - s, lower, upper);
      ClipMiddle(x - low, lower, upper);
      ClipMiddle(x - high, lower, upper);
    }
  }

  /** The point the fraction `k` of the way from `a` to `b`. */
  function Along(a: real, b: real, k: real): real { a + k * (b - a) }

  lemma AlongWithin(a: real, b: real, k: real)
    requires a <= b && 0.0 <= k <= 1.0
    ensures a <= Along(a, b, k) <= b
  {
    StepBetween(k, b - a, k * (b - a));
  }

  lemma AlongSame(a: real, k: real)
    ensures Along(a, a, k) == a
  {}

  lemma AlongBack(x: real, low: real, high: real, k: real)
    ensures Along(x - low, x - high, k) == x - Along(low, high, k)
  {
    StepBack(k, high - low, (x - high) - (x - low));
  }

  lemma AlongAdd(a: real, b: real, x: real, y: real, k: real)
    ensures Along(a, b, k) + Along(x, y, k) == Along(a + x, b + y, k)
  {
    StepSum(k, b - a, y - x, (b + y) - (a + x));
  }

  lemma PointAffine(x: real, low: real, high: real, k: real, lower: real, upper: real)
    requires lower <= upper && low <= high && 0.0 <= k <= 1.0
    requires !(low < x - upper < high) && !(low < x - lower < high)
    ensures Clip(x - Along(low, high, k), lower, upper)
            == Along(Clip(x - low, lower, upper), Clip(x - high, lower, upper), k)
  {
    hide Clip, Along;
    AlongWithin(low, high, k);
    PointMoves(x, low, high, Along(low, high, k), lower, upper);
    AlongBack(x, low, high, k);
    AlongSame(Clip(x - low, lower, upper), k);
  }

  lemma ClipTop(x: real, lower: real, upper: real)
    requires lower <= upper <= x
    ensures Clip(x, lower, upper) == upper
  {}

  lemma ClipBottom(x: real, lower: real, upper: real)
    requires x <= lower <= upper
    ensures Clip(x, lower, upper) == lower
  {}

  lemma ClipMiddle(x: real, lower: real, upper: real)
    requires lower <= x <= upper
    ensures Clip(x, lower, upper) == x
  {}

  lemma StepBetween(k: real, w: real, m: real)
    requires 0.0 <= k <= 1.0 && w >= 0.0 && m == k * w
    ensures 0.0 <= m <= w
  {}

  lemma StepBack(k: real, w: real, d: real)
    requires d == -w
    ensures k * d == -(k * w)
  {}

  lemma StepSum(k: real, a: real, b: real, c: real)
    requires c == a + b
    ensures k * c == k * a + k * b
  {}

  lemma {:induction false} LevelAffine(v: seq<real>, low: real, high: real, k: real, lower: real, upper: real)
    requires lower <= upper && low <= high && 0.0 <= k <= 1.0
    requires Inside(Kinks(v, lower, upper), low, high) == 0
    ensures Level(v, Along(low, high, k), lower, upper)
            == Along(Level(v, low, lower, upper), Level(v, high, lower, upper), k)
  {
    hide Clip, Level, Along, Inside, Kinks;
    var s := Along(low, high, k);
    if v == [] {
      LevelNothing(s, lower, upper);
      LevelNothing(low, lower, upper);
      LevelNothing(high, lower, upper);
      AlongSame(0.0, k);
    } else {
      var n := |v| - 1;
      NoKinks(v, low, high, lower, upper);
      LevelAffine(v[..n], low, high, k, lower, upper);
      PointAffine(v[n], low, high, k, lower, upper);
      LevelStep(v, s, lower, upper);
      LevelStep(v, low, lower, upper);
      LevelStep(v, high, lower, upper);
      AlongAdd(Level(v[..n], low, lower, upper), Level(v[..n], high, lower, upper),
               Clip(v[n] - low, lower, upper), Clip(v[n] - high, lower, upper), k);
    }
  }

  lemma LevelNothing(s: real, lower: real, upper: real)
    ensures Level([], s, lower, upper) == 0.0
  {}

  lemma LevelStep(v: seq<real>, s: real, lower: real, upper: real)
    requires v != []
    ensures var n := |v| - 1;
            Level(v, s, lower, upper) == Level(v[..n], s, lower, upper) + Clip(v[n] - s, lower, upper)
  {
    hide Clip;
    var n := |v| - 1;
    assert ClipShift(v, s, lower, upper)[..n] == ClipShift(v[..n], s, lower, upper);
  }

  lemma NoKinks(v: seq<real>, low: real, high: real, lower: real, upper: real)
    requires v != [] && Inside(Kinks(v, lower, upper), low, high) == 0
    ensures var n := |v| - 1;
            && Inside(Kinks(v[..n], lower, upper), low, high) == 0
            && !(low < v[n] - upper < high) && !(low < v[n] - lower < high)
  {
    var n := |v| - 1;
    var before, ks := Kinks(v[..n], lower, upper), Kinks(v, lower, upper);
    assert ks == before + [v[n] - upper, v[n] - lower];
    assert ks[..|ks| - 1] == before + [v[n] - upper];
    assert (before + [v[n] - upper])[..|before|] == before;
  }

  /** Where a straight line from a to b, with a >= target >= b, meets the target. */
  lemma Crossing(a: real, b: real, target: real) returns (k: real)
    requires a >= target >= b
    ensures 0.0 <= k <= 1.0 && Along(a, b, k) == target
  {
    if a == b {
      k := 0.0;
    } else {
      k := (a - target) / (a - b);
      CrossingAt(a - target, a - b, k);
      StepBack(k, a - b, b - a);
    }
  }

  lemma CrossingAt(x: real, y: real, k: real)
    requires 0.0 <= x <= y && y > 0.0 && k == x / y
    ensures k * y == x && 0.0 <= k <= 1.0
  {}

  lemma {:induction false} ShiftBetween(
      v: seq<real>, low: real, high: real, lower: real, upper: real, target: real) returns (shift: real)
    requires lower <= upper && low <= high
    requires Level(v, low, lower, upper) >= target >= Level(v, high, lower, upper)
    ensures low <= shift <= high && Level(v, shift, lower, upper) == target
    decreases Inside(Kinks(v, lower, upper), low, high)
  {
    hide Level, Inside, Kinks, Along;
    var ks := Kinks(v, lower, upper);
    if Inside(ks, low, high) == 0 {
      var k := Crossing(Level(v, low, lower, upper), Level(v, high, lower, upper), target);
      shift := Along(low, high, k);
      AlongWithin(low, high, k);
      LevelAffine(v, low, high, k, lower, upper);
    } else {
      var i := SomeInside(ks, low, high);
      InsideNarrower(ks, low, high, ks[i], high);
      InsideNarrower(ks, low, high, low, ks[i]);
      if Level(v, ks[i], lower, upper) >= target {
        shift := ShiftBetween(v, ks[i], high, lower, upper, target);
      } else {
        shift := ShiftBetween(v, low, ks[i], lower, upper, target);
      }
    }
  }

  /** Some shift meets the target exactly if and only if the box allows the target. */
  lemma ExactShiftIff(v: seq<real>, lower: real, upper: real, target: real)
    requires v != [] && lower <= upper
    ensures (exists shift :: Level(v, shift, lower, upper) == target)
              <==> (|v| as real * lower <= target <= |v| as real * upper)
  {
    hide Level;
    if |v| as real * lower <= target <= |v| as real * upper {
      LevelAtEdges(v, lower, upper);
      var shift := ShiftBetween(v, Least(v) - upper, Greatest(v) - lower, lower, upper, target);
      assert Level(v, shift, lower, upper) == target;
    }
    if shift :| Level(v, shift, lower, upper) == target { LevelInRange(v, shift, lower, upper); }
  }

  lemma LevelAtEdges(v: seq<real>, lower: real, upper: real)
    requires v != [] && lower <= upper
    ensures Level(v, Least(v) - upper, lower, upper) == |v| as real * upper
    ensures Level(v, Greatest(v) - lower, lower, upper) == |v| as real * lower
    ensures Least(v) - upper <= Greatest(v) - lower
  {
    hide Level, Least, Greatest;
    LevelAtEdge(v, Least(v) - upper, lower, upper, upper);
    LevelAtEdge(v, Greatest(v) - lower, lower, upper, lower);
  }

  lemma LevelInRange(v: seq<real>, shift: real, lower: real, upper: real)
    requires lower <= upper
    ensures |v| as real * lower <= Level(v, shift, lower, upper) <= |v| as real * upper
  {
    hide Clip, Sum, InBox, Times;
    ClipInBox(v, shift, lower, upper);
    SumInRange(ClipShift(v, shift, lower, upper), lower, upper);
    TimesIsProduct(|v|, lower);
    TimesIsProduct(|v|, upper);
  }

  lemma {:induction false} SumInRange(x: seq<real>, lower: real, upper: real)
    requires InBox(x, lower, upper)
    ensures Times(|x|, lower) <= Sum(x) <= Times(|x|, upper)
  {
    if x != [] {
      var n := |x| - 1;
      assert InBox(x[..n], lower, upper);
      SumInRange(x[..n], lower, upper);
      assert lower <= x[n] <= upper;
    }
  }

  /** The exact projection: admissible, and nearer to the scores than any other portfolio. */
  ghost predicate IsProjection(v: seq<real>, x: seq<real>, lower: real, upper: real, target: real) {
    && Admissible(v, x, lower, upper, target)
    && forall y | Admissible(v, y, lower, upper, target) ::
         SquaredDistance(x, v) <= SquaredDistance(y, v)
         && (SquaredDistance(y, v) <= SquaredDistance(x, v) ==> y == x)
  }

  /** The exact projection exists whenever the box allows the target, and a result within the
      bisection's bounds lies within twice the error bound of it. */
  lemma ResultNearProjection(
      v: seq<real>, result: seq<real>, shift: real, lower: real, upper: real, target: real) returns (x: seq<real>)
    requires v != [] && |result| == |v| && lower <= upper
    requires |v| as real * lower <= target <= |v| as real * upper
    requires Abs(target - Level(v, shift, lower, upper)) <= ErrorBound(v, lower, upper)
    requires Apart(result, ClipShift(v, shift, lower, upper)) <= ErrorBound(v, lower, upper)
    ensures IsProjection(v, x, lower, upper, target)
    ensures Apart(result, x) <= 2.0 * ErrorBound(v, lower, upper)
  {
    hide Clip, Sum, SquaredDistance, Apart, ErrorBound, InBox;
    ExactShiftIff(v, lower, upper, target);
    var exact :| Level(v, exact, lower, upper) == target;
    x := ClipShift(v, exact, lower, upper);
    ClipInBox(v, exact, lower, upper);
    NearExactProjection(v, result, shift, exact, lower, upper, target);
    forall y | Admissible(v, y, lower, upper, target)
      ensures SquaredDistance(x, v) <= SquaredDistance(y, v)
              && (SquaredDistance(y, v) <= SquaredDistance(x, v) ==> y == x)
    {
      ClipIsProjection(v, y, exact, lower, upper);
      ZeroDistance(y, x);
    }
  }
}
