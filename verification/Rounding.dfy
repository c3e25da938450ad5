/** Decimal quantisation to cents and to the 1e-6 price grid, over exact reals. */
module Rounding {
  import opened Reals

  /** Nearest integer, ties away from zero (ROUND_HALF_UP). */
  function NearestUp(y: real): int {
    if y >= 0.0 then (y + 0.5).Floor else -(-y + 0.5).Floor
  }

  /** Nearest integer, ties to the even neighbour (ROUND_HALF_EVEN). */
  function NearestEven(y: real): int {
    var f := y.Floor;
    var rest := y - f as real;
    if rest < 0.5 || (rest == 0.5 && f % 2 == 0) then f else f + 1
  }

  function Cents(x: real): real { NearestUp(x * 100.0) as real / 100.0 }
  function CentsEven(x: real): real { NearestEven(x * 100.0) as real / 100.0 }
  function Micros(x: real): real { NearestUp(x * 1000000.0) as real / 1000000.0 }

  predicate OnCents(x: real) { (x * 100.0).Floor as real == x * 100.0 }
  predicate OnMicros(x: real) { (x * 1000000.0).Floor as real == x * 1000000.0 }

  lemma NearestUpNear(y: real)
    ensures -0.5 <= NearestUp(y) as real - y <= 0.5
    ensures y >= 0.0 ==> NearestUp(y) >= 0
  {}

  /** The nearest integer, a tie going away from zero. */
  lemma NearestUpIff(y: real, n: int)
    ensures y >= 0.0 ==> (n == NearestUp(y) <==> n as real - 0.5 <= y < n as real + 0.5)
    ensures y <= 0.0 ==> (n == NearestUp(y) <==> n as real - 0.5 < y <= n as real + 0.5)
  {}

  /** The nearest integer, a tie going to the even one. */
  lemma NearestEvenIff(y: real, n: int)
    ensures n == NearestEven(y) <==> Abs(n as real - y) < 0.5 || (Abs(n as real - y) == 0.5 && n % 2 == 0)
  {
    var f := y.Floor;
    if Abs(n as real - y) <= 0.5 { assert n == f || n == f + 1; }
  }

  lemma NearestUpFixes(y: real, k: int)
    requires y == k as real
    ensures NearestUp(y) == k
  {}

  lemma CentsNear(x: real)
    ensures Abs(Cents(x) - x) <= 0.005
    ensures OnCents(Cents(x))
    ensures x >= 0.0 ==> Cents(x) >= 0.0
    ensures OnCents(x) ==> Cents(x) == x
  {
    NearestUpNear(x * 100.0);
    if OnCents(x) { NearestUpFixes(x * 100.0, (x * 100.0).Floor); }
    WholeFloor(NearestUp(x * 100.0));
  }

  lemma CentsEvenNear(x: real)
    ensures Abs(CentsEven(x) - x) <= 0.005
    ensures OnCents(CentsEven(x))
    ensures x >= 0.0 ==> CentsEven(x) >= 0.0
  {
    WholeFloor(NearestEven(x * 100.0));
  }

  lemma WholeFloor(k: int)
    ensures (k as real).Floor == k
  {}

  lemma MicrosNear(x: real)
    ensures Abs(Micros(x) - x) <= 0.0000005
  {
    NearestUpNear(x * 1000000.0);
  }

  function Ceiling(y: real): int { 0 - (-y).Floor }

  lemma WholeAbove(n: int, y: real)
    ensures n as real >= y <==> n >= Ceiling(y)
  {}

  lemma WholeBelow(n: int, y: real)
    ensures n as real <= y <==> n <= y.Floor
  {}

  lemma NearestUpReaches(x: real, k: int)
    requires k >= 1
    ensures NearestUp(x) >= k <==> x >= k as real - 0.5
  {}

  lemma CeilingSign(y: real)
    requires y > 0.0
    ensures Ceiling(y) >= 1 && y.Floor >= 0
  {}

  /** Rounding to a whole number ends at or above `y` exactly when it starts within a half of
      the first whole number there, and likewise below. */
  lemma NearestUpSide(x: real, y: real)
    requires y > 0.0
    ensures NearestUp(x) as real >= y <==> x >= Ceiling(y) as real - 0.5
    ensures NearestUp(x) as real <= y <==> x < y.Floor as real + 0.5
  {
    hide NearestUp, Ceiling;
    CeilingSign(y);
    WholeAbove(NearestUp(x), y);
    WholeBelow(NearestUp(x), y);
    NearestUpReaches(x, Ceiling(y));
    NearestUpReaches(x, y.Floor + 1);
  }

  /** Which side of a positive mark a price is rounded to. */
  lemma MicrosSide(x: real, mark: real)
    requires mark > 0.0
    ensures Micros(x) >= mark <==> x * 1000000.0 >= Ceiling(mark * 1000000.0) as real - 0.5
    ensures Micros(x) <= mark <==> x * 1000000.0 < (mark * 1000000.0).Floor as real + 0.5
  {
    hide NearestUp, Ceiling;
    NearestUpSide(x * 1000000.0, mark * 1000000.0);
  }

  lemma WholeCeiling(y: real)
    requires y.Floor as real == y
    ensures Ceiling(y) == y.Floor
  {
    WholeFloor(0 - y.Floor);
  }

  lemma OnGridSides(x: real, mark: real)
    requires OnMicros(mark)
    ensures mark <= x ==> x * 1000000.0 >= Ceiling(mark * 1000000.0) as real - 0.5
    ensures x <= mark ==> x * 1000000.0 < (mark * 1000000.0).Floor as real + 0.5
  {
    hide Ceiling;
    WholeCeiling(mark * 1000000.0);
  }
}
