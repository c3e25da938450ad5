/** Real vectors: sums, distances, and clipping to a box. */
module Vectors {
  import opened Reals

  function Sum(v: seq<real>): real {
    if v == [] then 0.0 else Sum(v[..|v| - 1]) + v[|v| - 1]
  }

  /** Σ |a_i - b_i| */
  function Apart(a: seq<real>, b: seq<real>): real
    requires |a| == |b|
  {
    if a == [] then 0.0
    else Apart(a[..|a| - 1], b[..|b| - 1]) + Abs(a[|a| - 1] - b[|b| - 1])
  }

  function Square(x: real): real { x * x }

  /** Σ (a_i - b_i)², the squared Euclidean distance */
  function SquaredDistance(a: seq<real>, b: seq<real>): real
    requires |a| == |b|
  {
    if a == [] then 0.0
    else SquaredDistance(a[..|a| - 1], b[..|b| - 1]) + Square(a[|a| - 1] - b[|b| - 1])
  }

  ghost predicate InBox(v: seq<real>, lower: real, upper: real) {
    forall i | 0 <= i < |v| :: lower <= v[i] <= upper
  }

  /** `n * x`, written as repeated addition so that it stays linear. */
  function Times(n: nat, x: real): real {
    if n == 0 then 0.0 else Times(n - 1, x) + x
  }

  lemma {:induction false} TimesIsProduct(n: nat, x: real)
    ensures Times(n, x) == n as real * x
  {
    if n > 0 {
      TimesIsProduct(n - 1, x);
      OneMore(n as real, (n - 1) as real, x);
    }
  }

  lemma {:induction false} TimesMonotone(n: nat, x: real, y: real)
    requires x <= y
    ensures Times(n, x) <= Times(n, y)
  {
    if n > 0 { TimesMonotone(n - 1, x, y); }
  }

  lemma {:induction false} SumConstant(v: seq<real>, c: real)
    requires forall i | 0 <= i < |v| :: v[i] == c
    ensures Sum(v) == Times(|v|, c)
  {
    if v != [] { SumConstant(v[..|v| - 1], c); }
  }

  lemma {:induction false} SumUpdate(v: seq<real>, i: nat, x: real)
    requires i < |v|
    ensures Sum(v[i := x]) == Sum(v) - v[i] + x
  {
    var n := |v| - 1;
    if i < n {
      SumUpdate(v[..n], i, x);
      assert v[i := x][..n] == v[..n][i := x];
    } else {
      assert v[i := x][..n] == v[..n];
    }
  }

  /** Coordinates that differ by between 0 and d give sums that differ by between 0 and n·d. */
  lemma {:induction false} SumGap(a: seq<real>, b: seq<real>, d: real)
    requires |a| == |b|
    requires forall i | 0 <= i < |a| :: 0.0 <= a[i] - b[i] <= d
    ensures 0.0 <= Sum(a) - Sum(b) <= Times(|a|, d)
    ensures Apart(a, b) == Sum(a) - Sum(b)
  {
    if a != [] { SumGap(a[..|a| - 1], b[..|b| - 1], d); }
  }

  lemma {:induction false} OrderedApart(a: seq<real>, b: seq<real>)
    requires |a| == |b|
    requires forall i | 0 <= i < |a| :: b[i] <= a[i]
    ensures Apart(a, b) == Sum(a) - Sum(b) && Apart(b, a) == Sum(a) - Sum(b)
    ensures Sum(b) <= Sum(a)
  {
    if a != [] { OrderedApart(a[..|a| - 1], b[..|b| - 1]); }
  }

  lemma {:induction false} ApartTriangle(a: seq<real>, b: seq<real>, c: seq<real>)
    requires |a| == |b| == |c|
    ensures Apart(a, c) <= Apart(a, b) + Apart(b, c)
  {
    if a != [] { ApartTriangle(a[..|a| - 1], b[..|b| - 1], c[..|c| - 1]); }
  }

  // ----------------------------------------------------------------- clipping

  /** numpy's clip: the lower bound first, then the upper. */
  function Clip(x: real, lower: real, upper: real): real { Min(Max(x, lower), upper) }

  /** `np.clip(values - shift, lower, upper)` */
  function ClipShift(v: seq<real>, shift: real, lower: real, upper: real): seq<real> {
    seq(|v|, i requires 0 <= i < |v| => Clip(v[i] - shift, lower, upper))
  }

  lemma ClipInBox(v: seq<real>, shift: real, lower: real, upper: real)
    requires lower <= upper
    ensures InBox(ClipShift(v, shift, lower, upper), lower, upper)
  {}

  /** Raising the shift lowers every coordinate, by no more than the rise. */
  lemma ClipShiftGap(v: seq<real>, s: real, t: real, lower: real, upper: real)
    requires lower <= upper && s <= t
    ensures Sum(ClipShift(v, t, lower, upper)) <= Sum(ClipShift(v, s, lower, upper))
    ensures Sum(ClipShift(v, s, lower, upper))
            <= Sum(ClipShift(v, t, lower, upper)) + Times(|v|, t - s)
  {
    var a, b := ClipShift(v, s, lower, upper), ClipShift(v, t, lower, upper);
    var d := t - s;
    forall i | 0 <= i < |v| ensures 0.0 <= a[i] - b[i] <= d {}
    SumGap(a, b, d);
    assert |a| == |v| && d == t - s;
    assert Times(|a|, d) == Times(|v|, t - s);
  }

  lemma ClipShiftApart(v: seq<real>, s: real, t: real, lower: real, upper: real)
    requires lower <= upper
    ensures var a, b := ClipShift(v, s, lower, upper), ClipShift(v, t, lower, upper);
            Apart(a, b) == Abs(Sum(a) - Sum(b))
  {
    hide Apart, Sum;
    var a, b := ClipShift(v, s, lower, upper), ClipShift(v, t, lower, upper);
    if s <= t { OrderedApart(a, b); } else { OrderedApart(b, a); }
  }

  /** Any other point of the box is further away, by at least its own distance from the
      clipped vector, once the difference of the sums is paid for at the shift. */
  lemma {:induction false} ClipVariational(
      v: seq<real>, y: seq<real>, shift: real, lower: real, upper: real)
    requires lower <= upper && |y| == |v| && InBox(y, lower, upper)
    ensures var x := ClipShift(v, shift, lower, upper);
            SquaredDistance(y, v) >= SquaredDistance(x, v) + SquaredDistance(y, x)
                                     - 2.0 * (shift * (Sum(y) - Sum(x)))
  {
    hide Square, Clip;
    if v == [] {
      assert ClipShift(v, shift, lower, upper) == [];
      assert Sum(y) - Sum([]) == 0.0;
    } else {
      var n := |v| - 1;
      var x, x' := ClipShift(v, shift, lower, upper), ClipShift(v[..n], shift, lower, upper);
      ClipVariational(v[..n], y[..n], shift, lower, upper);
      assert x' == x[..n];
      ClipPoint(v[n], x[n], y[n], shift, lower, upper);
      var d0, d1, d := Sum(y[..n]) - Sum(x'), y[n] - x[n], Sum(y) - Sum(x);
      AddProducts(shift, d0, d1, d);
      assert SquaredDistance(y, v) == SquaredDistance(y[..n], v[..n]) + Square(y[n] - v[n]);
      assert SquaredDistance(x, v) == SquaredDistance(x', v[..n]) + Square(x[n] - v[n]);
      assert SquaredDistance(y, x) == SquaredDistance(y[..n], x') + Square(y[n] - x[n]);
    }
  }

  lemma AddProducts(s: real, a: real, b: real, c: real)
    requires c == a + b
    ensures s * c == s * a + s * b
  {}

  lemma ClipPoint(v: real, x: real, y: real, shift: real, lower: real, upper: real)
    requires lower <= y <= upper && x == Clip(v - shift, lower, upper)
    ensures Square(y - v) >= Square(x - v) + Square(y - x) - 2.0 * (shift * (y - x))
  {}
}
