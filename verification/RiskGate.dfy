/** The arithmetic of the hard risk gate: each clamp, the turnover limit with its
    de-risking override, and what is true of the book that comes out. */
module RiskGate {
  import opened Names
  import opened Reals
  import opened Sums

  /** Tolerance of the independent re-check, 1e-12. */
  const TOLERANCE: real := 0.000000000001
  /** Weights of at most 1e-15 in size are dropped from the decision. */
  const DUST: real := 0.000000000000001

  type Book = map<Name, real>

  datatype Policy = Policy(
    maxPosition: real,
    maxGross: real,
    maxNet: real,
    maxTurnover: real,
    minCash: real,
    maxSector: real,
    maxStrategy: real,
    commissionBps: real,
    slippageBps: real,
    allowShorting: bool,
    allowLeverage: bool)

  predicate Fraction(x: real) { 0.0 <= x <= 1.0 }

  /** The field ranges and cross-field rules a policy document must meet. */
  predicate Coherent(p: Policy) {
    && Fraction(p.maxPosition) && Fraction(p.maxNet) && Fraction(p.maxTurnover)
    && Fraction(p.minCash) && Fraction(p.maxSector) && Fraction(p.maxStrategy)
    && p.maxGross > 0.0 && p.commissionBps > 0.0 && p.slippageBps > 0.0
    && (!p.allowLeverage ==> p.maxGross <= 1.0)
    && p.maxPosition <= p.maxGross
    && p.minCash + p.maxNet <= 1.0 + TOLERANCE
  }

  // ---------------------------------------------------------------- exposures

  /** `book.get(ticker, 0.0)` */
  function At(w: Book, t: Name): real { if t in w then w[t] else 0.0 }

  function Signed(w: Book): Name -> real { t => At(w, t) }
  function Sized(w: Book): Name -> real { t => Abs(At(w, t)) }
  function Long(w: Book): Name -> real { t => Max(At(w, t), 0.0) }
  function Gap(w: Book, c: Book): Name -> real { t => Abs(At(w, t) - At(c, t)) }

  function Gross(w: Book): real { Total(w.Keys, Sized(w)) }
  function Net(w: Book): real { Total(w.Keys, Signed(w)) }
  function Turnover(w: Book, c: Book): real { 0.5 * Total(w.Keys + c.Keys, Gap(w, c)) }

  predicate AllClassified(w: Book, sectors: map<Name, Name>) { w.Keys <= sectors.Keys }

  function Members(w: Book, sectors: map<Name, Name>, s: Name): set<Name>
    requires AllClassified(w, sectors)
  {
    set t | t in w && sectors[t] == s
  }

  function SectorNames(w: Book, sectors: map<Name, Name>): set<Name>
    requires AllClassified(w, sectors)
  {
    set t | t in w :: sectors[t]
  }

  function SectorExposure(w: Book, sectors: map<Name, Name>, s: Name): real
    requires AllClassified(w, sectors)
  {
    Total(Members(w, sectors, s), Long(w))
  }

  // ------------------------------------------------------------------- clamps

  function NoShorts(w: Book, p: Policy): Book {
    if p.allowShorting then w else map t | t in w :: if w[t] < 0.0 then 0.0 else w[t]
  }

  function CapPosition(x: real, cap: real): real {
    if Abs(x) > cap then (if x > 0.0 then cap else -cap) else x
  }

  function PositionCapped(w: Book, p: Policy): Book {
    map t | t in w :: CapPosition(w[t], p.maxPosition)
  }

  /** What the sector clamp does to one ticker: longs in an over-exposed sector are scaled. */
  function SectorScaledWeight(w: Book, cap: real, sectors: map<Name, Name>, t: Name): real
    requires AllClassified(w, sectors) && t in w
    requires cap >= 0.0
  {
    var e := SectorExposure(w, sectors, sectors[t]);
    if e > cap && w[t] > 0.0 then (cap / e) * w[t] else w[t]
  }

  function SectorScaled(w: Book, p: Policy, sectors: map<Name, Name>): Book
    requires p.maxSector >= 0.0
  {
    if !AllClassified(w, sectors) then w
    else map t | t in w :: SectorScaledWeight(w, p.maxSector, sectors, t)
  }

  function GrossCap(p: Policy): real { Min(p.maxGross, 1.0 - p.minCash) }

  function ExposureScale(gross: real, net: real, p: Policy): real {
    Min(1.0, Min(if gross != 0.0 then GrossCap(p) / gross else 1.0,
                 if net != 0.0 then p.maxNet / net else 1.0))
  }

  function Scaled(w: Book, k: real): Book { map t | t in w :: k * w[t] }

  function ExposureScaled(w: Book, p: Policy): Book {
    var k := ExposureScale(Gross(w), Abs(Net(w)), p);
    if k < 1.0 then Scaled(w, k) else w
  }

  function Clamped(w: Book, p: Policy, sectors: map<Name, Name>): Book
    requires Coherent(p)
  {
    ExposureScaled(SectorScaled(PositionCapped(NoShorts(w, p), p), p, sectors), p)
  }

  // ----------------------------------------------------------------- turnover

  function Toward(target: real, current: real, k: real): real {
    current + k * (target - current)
  }

  /** The interpolated weight, unless the safe target cuts absolute exposure: then the target. */
  function LimitedWeight(target: real, current: real, k: real): real {
    if Abs(target) < Abs(current) then target else Toward(target, current, k)
  }

  function Limited(w: Book, c: Book, k: real): Book {
    map t | t in w.Keys + c.Keys :: LimitedWeight(At(w, t), At(c, t), k)
  }

  function WithoutDust(w: Book): Book { map t | t in w && Abs(w[t]) > DUST :: w[t] }

  predicate TurnoverBinds(safe: Book, c: Book, p: Policy) { Turnover(safe, c) > p.maxTurnover }

  /** Book handed to the second clamp pass. */
  function Interpolated(safe: Book, c: Book, p: Policy): Book
    requires TurnoverBinds(safe, c, p) && p.maxTurnover >= 0.0
  {
    Limited(safe, c, p.maxTurnover / Turnover(safe, c))
  }

  /** The book after every transformation but the dropping of dust. */
  function Routed(proposal: Book, c: Book, p: Policy, sectors: map<Name, Name>): Book
    requires Coherent(p)
  {
    var safe := Clamped(proposal, p, sectors);
    if TurnoverBinds(safe, c, p) then Clamped(Interpolated(safe, c, p), p, sectors) else safe
  }

  function Final(proposal: Book, c: Book, p: Policy, sectors: map<Name, Name>): Book
    requires Coherent(p)
  {
    WithoutDust(Routed(proposal, c, p, sectors))
  }

  /** Every ticker a clamp pass of this evaluation sees has a sector. */
  predicate Classified(proposal: Book, c: Book, p: Policy, sectors: map<Name, Name>)
    requires Coherent(p)
  {
    && proposal.Keys <= sectors.Keys
    && (TurnoverBinds(Clamped(proposal, p, sectors), c, p) ==> c.Keys <= sectors.Keys)
  }

  predicate StrategiesWithin(strategies: map<Name, real>, p: Policy) {
    forall s | s in strategies :: strategies[s] <= p.maxStrategy + TOLERANCE
  }

  // ------------------------------------------------------- what the clamps give

  /** `v` has the tickers of `w`, each with the same sign and no greater size. */
  ghost predicate Shrinks(v: Book, w: Book) {
    v.Keys == w.Keys
    && forall t | t in w :: 0.0 <= v[t] <= w[t] || w[t] <= v[t] <= 0.0
  }

  /** Every hard limit holds with no tolerance at all. */
  ghost predicate Safe(w: Book, p: Policy, sectors: map<Name, Name>) {
    && (!p.allowShorting ==> forall t | t in w :: w[t] >= 0.0)
    && (forall t | t in w :: Abs(w[t]) <= p.maxPosition)
    && (AllClassified(w, sectors) ==> forall s :: SectorExposure(w, sectors, s) <= p.maxSector)
    && Gross(w) <= GrossCap(p)
    && Abs(Net(w)) <= p.maxNet
  }

  ghost predicate LongOnly(w: Book) { forall t | t in w :: w[t] >= 0.0 }

  lemma ShrinksTransitive(u: Book, v: Book, w: Book)
    requires Shrinks(u, v) && Shrinks(v, w)
    ensures Shrinks(u, w)
  {}

  lemma ShrinkKeepsSectors(v: Book, w: Book, sectors: map<Name, Name>, s: Name)
    requires Shrinks(v, w) && AllClassified(w, sectors)
    ensures AllClassified(v, sectors)
    ensures SectorExposure(v, sectors, s) <= SectorExposure(w, sectors, s)
  {
    hide Total;
    assert Members(v, sectors, s) == Members(w, sectors, s);
    TotalLe(Members(v, sectors, s), Long(v), Long(w));
  }

  lemma ShrinkKeepsGross(v: Book, w: Book)
    requires Shrinks(v, w)
    ensures 0.0 <= Gross(v) <= Gross(w)
  {
    hide Total;
    TotalNonNegative(v.Keys, Sized(v));
    TotalLe(v.Keys, Sized(v), Sized(w));
  }

  lemma NetWithinGross(w: Book)
    ensures Abs(Net(w)) <= Gross(w)
    ensures LongOnly(w) ==> Net(w) == Gross(w)
  {
    hide Total;
    TotalTriangle(w.Keys, Signed(w), Sized(w));
    if LongOnly(w) { TotalSame(w.Keys, Signed(w), Sized(w)); }
  }

  lemma NoShortsShrinks(w: Book, p: Policy)
    ensures Shrinks(NoShorts(w, p), w)
    ensures !p.allowShorting ==> LongOnly(NoShorts(w, p))
  {}

  lemma PositionCappedShrinks(w: Book, p: Policy)
    requires p.maxPosition >= 0.0
    ensures Shrinks(PositionCapped(w, p), w)
    ensures forall t | t in w :: Abs(PositionCapped(w, p)[t]) <= p.maxPosition
  {}

  /** Dividing an exposure above its cap by itself leaves a factor in [0, 1] that meets the cap. */
  lemma CapFactor(cap: real, e: real)
    requires 0.0 <= cap < e
    ensures 0.0 <= cap / e < 1.0
    ensures (cap / e) * e == cap
  {}

  lemma ScaledBetween(x: real, k: real)
    requires 0.0 <= k <= 1.0
    ensures 0.0 <= k * x <= x || x <= k * x <= 0.0
    ensures Abs(k * x) == k * Abs(x)
    ensures Max(k * x, 0.0) == k * Max(x, 0.0)
  {}

  lemma SectorScaledShrinks(w: Book, p: Policy, sectors: map<Name, Name>)
    requires p.maxSector >= 0.0
    ensures Shrinks(SectorScaled(w, p, sectors), w)
  {
    hide Total;
    if AllClassified(w, sectors) {
      forall t | t in w
        ensures var v := SectorScaledWeight(w, p.maxSector, sectors, t); 0.0 <= v <= w[t] || w[t] <= v <= 0.0
      {
        var e := SectorExposure(w, sectors, sectors[t]);
        if e > p.maxSector {
          CapFactor(p.maxSector, e);
          ScaledBetween(w[t], p.maxSector / e);
        }
      }
    }
  }

  lemma LongScaled(x: real, k: real)
    requires 0.0 <= k <= 1.0
    ensures Max(if x > 0.0 then k * x else x, 0.0) == k * Max(x, 0.0)
  {}

  lemma SectorScaledMeetsCap(w: Book, p: Policy, sectors: map<Name, Name>, s: Name)
    requires p.maxSector >= 0.0
    requires AllClassified(w, sectors)
    ensures AllClassified(SectorScaled(w, p, sectors), sectors)
    ensures SectorExposure(SectorScaled(w, p, sectors), sectors, s) <= p.maxSector
  {
    hide Total, SectorScaled, Long;
    var v := SectorScaled(w, p, sectors);
    SectorScaledShrinks(w, p, sectors);
    var e, members := SectorExposure(w, sectors, s), Members(w, sectors, s);
    assert Members(v, sectors, s) == members;
    if e > p.maxSector {
      CapFactor(p.maxSector, e);
      var k := p.maxSector / e;
      forall t | t in members ensures Long(v)(t) == k * Long(w)(t) { SectorMemberScaled(w, p, sectors, t, k); }
      TotalScale(members, Long(w), k, Long(v));
    } else {
      ShrinkKeepsSectors(v, w, sectors, s);
    }
  }

  lemma SectorMemberScaled(w: Book, p: Policy, sectors: map<Name, Name>, t: Name, k: real)
    requires p.maxSector >= 0.0 && AllClassified(w, sectors) && t in w
    requires var e := SectorExposure(w, sectors, sectors[t]); e > p.maxSector && k == p.maxSector / e
    requires 0.0 <= k <= 1.0
    ensures Long(SectorScaled(w, p, sectors))(t) == k * Long(w)(t)
  {
    hide SectorExposure;
    LongScaled(w[t], k);
  }

  lemma ScaledPoint(w: Book, k: real, t: Name)
    requires 0.0 <= k <= 1.0 && t in w
    ensures Scaled(w, k)[t] == k * w[t]
    ensures 0.0 <= Scaled(w, k)[t] <= w[t] || w[t] <= Scaled(w, k)[t] <= 0.0
    ensures Sized(Scaled(w, k))(t) == k * Sized(w)(t)
    ensures Signed(Scaled(w, k))(t) == k * Signed(w)(t)
  {
    hide Total;
    var x := w[t];
    var y := Scaled(w, k)[t];
    assert y == k * x;
    assert Sized(w)(t) == Abs(x) && Sized(Scaled(w, k))(t) == Abs(y);
    ScaledBetween(x, k);
  }

  lemma ScaledShrinks(w: Book, k: real)
    requires 0.0 <= k <= 1.0
    ensures Shrinks(Scaled(w, k), w)
  {
    hide Total;
    forall t | t in w
      ensures 0.0 <= Scaled(w, k)[t] <= w[t] || w[t] <= Scaled(w, k)[t] <= 0.0
    {
      ScaledPoint(w, k, t);
    }
  }

  lemma ScaledGross(w: Book, k: real)
    requires 0.0 <= k <= 1.0
    ensures Gross(Scaled(w, k)) == k * Gross(w)
  {
    hide Total;
    var f, g := Sized(w), Sized(Scaled(w, k));
    forall t | t in w ensures g(t) == k * f(t) { ScaledPoint(w, k, t); }
    TotalScale(w.Keys, f, k, g);
    assert Scaled(w, k).Keys == w.Keys;
  }

  lemma ScaledNet(w: Book, k: real)
    requires 0.0 <= k <= 1.0
    ensures Net(Scaled(w, k)) == k * Net(w)
  {
    hide Total;
    var f, g := Signed(w), Signed(Scaled(w, k));
    forall t | t in w ensures g(t) == k * f(t) { ScaledPoint(w, k, t); }
    TotalScale(w.Keys, f, k, g);
    assert Scaled(w, k).Keys == w.Keys;
  }

  lemma ExposureScaleBounds(gross: real, net: real, p: Policy)
    requires gross >= 0.0 && net >= 0.0
    requires GrossCap(p) >= 0.0 && p.maxNet >= 0.0
    ensures 0.0 <= ExposureScale(gross, net, p) <= 1.0
    ensures ExposureScale(gross, net, p) * gross <= GrossCap(p)
    ensures ExposureScale(gross, net, p) * net <= p.maxNet
    ensures gross <= GrossCap(p) && net <= p.maxNet ==> ExposureScale(gross, net, p) == 1.0
  {
    hide Total;
    var k := ExposureScale(gross, net, p);
    RatioBounds(GrossCap(p), gross, k);
    RatioBounds(p.maxNet, net, k);
  }

  lemma RatioBounds(cap: real, e: real, k: real)
    requires cap >= 0.0 && e >= 0.0
    ensures e != 0.0 ==> cap / e >= 0.0
    ensures e != 0.0 && k <= cap / e ==> k * e <= cap
    ensures e != 0.0 && e <= cap ==> cap / e >= 1.0
  {
    hide Total;
    if e != 0.0 {
      var q := cap / e;
      assert q * e == cap;
      if k <= q { assert k * e <= q * e; }
    }
  }

  lemma ScaledMeetsCaps(w: Book, k: real, grossCap: real, netCap: real)
    requires 0.0 <= k <= 1.0
    requires k * Gross(w) <= grossCap && k * Abs(Net(w)) <= netCap
    ensures Shrinks(Scaled(w, k), w)
    ensures Gross(Scaled(w, k)) <= grossCap
    ensures Abs(Net(Scaled(w, k))) <= netCap
  {
    hide Total, Gross, Net, Scaled, Shrinks;
    ScaledShrinks(w, k);
    ScaledGross(w, k);
    ScaledNet(w, k);
    ScaledBetween(Net(w), k);
  }

  lemma ExposureScaledMeetsCaps(w: Book, p: Policy)
    requires Coherent(p)
    ensures Shrinks(ExposureScaled(w, p), w)
    ensures Gross(ExposureScaled(w, p)) <= GrossCap(p)
    ensures Abs(Net(ExposureScaled(w, p))) <= p.maxNet
    ensures Gross(w) <= GrossCap(p) && Abs(Net(w)) <= p.maxNet ==> ExposureScaled(w, p) == w
  {
    hide Total, ExposureScale, Gross, Net, Scaled, Shrinks;
    var g, n := Gross(w), Abs(Net(w));
    ShrinksSelf(w);
    ShrinkKeepsGross(w, w);
    var k := ExposureScale(g, n, p);
    ExposureScaleBounds(g, n, p);
    if k < 1.0 { ScaledMeetsCaps(w, k, GrossCap(p), p.maxNet); }
  }

  lemma ShrinksSelf(w: Book)
    ensures Shrinks(w, w)
  {}

  /** No clamp undoes an earlier one: after all five every limit holds exactly, and
      the pass only ever removes exposure, ticker by ticker. */
  lemma ClampedIsSafe(w: Book, p: Policy, sectors: map<Name, Name>)
    requires Coherent(p)
    ensures Shrinks(Clamped(w, p, sectors), w)
    ensures Safe(Clamped(w, p, sectors), p, sectors)
  {
    hide Total, NoShorts, PositionCapped, SectorScaled, ExposureScaled, Gross, Net, GrossCap;
    var a := NoShorts(w, p);
    var b := PositionCapped(a, p);
    var c := SectorScaled(b, p, sectors);
    var d := ExposureScaled(c, p);
    NoShortsShrinks(w, p);
    PositionCappedShrinks(a, p);
    SectorScaledShrinks(b, p, sectors);
    ExposureScaledMeetsCaps(c, p);
    ShrinksTransitive(d, c, b);
    ShrinksTransitive(d, b, a);
    ShrinksTransitive(d, a, w);
    if AllClassified(d, sectors) {
      forall s ensures SectorExposure(d, sectors, s) <= p.maxSector {
        SectorScaledMeetsCap(b, p, sectors, s);
        ShrinkKeepsSectors(d, c, sectors, s);
      }
    }
  }

  /** A book that already meets every limit passes through unchanged. */
  lemma ClampedFixesSafe(w: Book, p: Policy, sectors: map<Name, Name>)
    requires Coherent(p) && Safe(w, p, sectors)
    ensures Clamped(w, p, sectors) == w
  {
    hide Total;
    assert NoShorts(w, p) == w;
    assert PositionCapped(w, p) == w;
    if AllClassified(w, sectors) {
      forall t | t in w ensures SectorScaledWeight(w, p.maxSector, sectors, t) == w[t] {
        assert SectorExposure(w, sectors, sectors[t]) <= p.maxSector;
      }
    }
    assert SectorScaled(w, p, sectors) == w;
    ExposureScaledMeetsCaps(w, p);
  }

  lemma ClampedIdempotent(w: Book, p: Policy, sectors: map<Name, Name>)
    requires Coherent(p)
    ensures Clamped(Clamped(w, p, sectors), p, sectors) == Clamped(w, p, sectors)
  {
    hide Total;
    ClampedIsSafe(w, p, sectors);
    ClampedFixesSafe(Clamped(w, p, sectors), p, sectors);
  }

  // ------------------------------------------------------ turnover adds no risk

  lemma Product(x: real, k: real) returns (m: real)
    requires 0.0 <= k <= 1.0
    ensures m == k * x
    ensures 0.0 <= m <= x || x <= m <= 0.0
  {
    ScaledBetween(x, k);
    m := k * x;
  }

  lemma LimitedByStep(target: real, current: real, k: real, d: real, m: real)
    requires Abs(target) >= Abs(current)
    requires d == target - current && m == k * d
    ensures LimitedWeight(target, current, k) == current + m
  {}

  /** The linear half of the argument: a step `m` from `current` towards `target`. */
  lemma StepWithin(target: real, current: real, m: real)
    requires Abs(target) >= Abs(current)
    requires 0.0 <= m <= target - current || target - current <= m <= 0.0
    ensures Abs(current + m) <= Abs(target)
    ensures target >= 0.0 && current >= 0.0 ==> current <= current + m <= target
  {}

  lemma InterpolationWithin(target: real, current: real, k: real)
    requires 0.0 <= k <= 1.0
    ensures Abs(LimitedWeight(target, current, k)) <= Abs(target)
    ensures target >= 0.0 && current >= 0.0 ==>
              var x := LimitedWeight(target, current, k);
              0.0 <= x && (current <= x <= target || target <= x <= current)
  {
    if Abs(target) >= Abs(current) {
      var d := target - current;
      var m := Product(d, k);
      LimitedByStep(target, current, k, d, m);
      StepWithin(target, current, m);
    }
  }

  lemma InterpolationGap(target: real, current: real, k: real)
    requires 0.0 <= k <= 1.0
    requires Abs(target) >= Abs(current)
    ensures Abs(LimitedWeight(target, current, k) - current) == k * Abs(target - current)
  {
    var d := target - current;
    ScaledBetween(d, k);
    LimitedByStep(target, current, k, d, k * d);
    assert Abs(target - current) == Abs(d);
  }

  lemma InterpolationFactor(safe: Book, c: Book, p: Policy)
    requires Coherent(p) && TurnoverBinds(safe, c, p)
    ensures 0.0 <= p.maxTurnover / Turnover(safe, c) < 1.0
  {
    hide Total;
    CapFactor(p.maxTurnover, Turnover(safe, c));
  }

  lemma LimitedAddsNoRisk(safe: Book, c: Book, k: real, t: Name)
    requires 0.0 <= k <= 1.0
    ensures Abs(At(Limited(safe, c, k), t)) <= Abs(At(safe, t))
  {
    hide LimitedWeight;
    InterpolationWithin(At(safe, t), At(c, t), k);
  }

  lemma ShrinksAt(v: Book, w: Book, t: Name)
    requires Shrinks(v, w)
    ensures Abs(At(v, t)) <= Abs(At(w, t))
  {}

  /** Limiting turnover never adds risk: for every ticker the routed weight is no larger
      than the first pass's safe target, hence than the proposal. */
  lemma RoutedAddsNoRisk(proposal: Book, c: Book, p: Policy, sectors: map<Name, Name>, t: Name)
    requires Coherent(p)
    ensures Abs(At(Routed(proposal, c, p, sectors), t)) <= Abs(At(Clamped(proposal, p, sectors), t))
    ensures Abs(At(Clamped(proposal, p, sectors), t)) <= Abs(At(proposal, t))
  {
    hide Total, Clamped, Turnover, Limited, Safe, Shrinks, At;
    var safe := Clamped(proposal, p, sectors);
    ClampedIsSafe(proposal, p, sectors);
    ShrinksAt(safe, proposal, t);
    if TurnoverBinds(safe, c, p) {
      InterpolationFactor(safe, c, p);
      var limited := Interpolated(safe, c, p);
      LimitedAddsNoRisk(safe, c, p.maxTurnover / Turnover(safe, c), t);
      ClampedIsSafe(limited, p, sectors);
      ShrinksAt(Clamped(limited, p, sectors), limited, t);
    }
  }

  /** A long-only book no larger than a safe one, ticker by ticker, is itself safe. */
  lemma SmallerLongBookIsSafe(v: Book, w: Book, p: Policy, sectors: map<Name, Name>)
    requires Coherent(p) && Safe(w, p, sectors) && LongOnly(w)
    requires w.Keys <= v.Keys
    requires forall t | t in v :: 0.0 <= v[t] <= At(w, t)
    ensures Safe(v, p, sectors)
  {
    hide Total;
    TotalExtend(w.Keys, v.Keys, Sized(w));
    TotalLe(v.Keys, Sized(v), Sized(w));
    NetWithinGross(v);
    NetWithinGross(w);
    if AllClassified(v, sectors) {
      forall s ensures SectorExposure(v, sectors, s) <= p.maxSector {
        TotalExtend(Members(w, sectors, s), Members(v, sectors, s), Long(w));
        TotalLe(Members(v, sectors, s), Long(v), Long(w));
        assert SectorExposure(w, sectors, s) <= p.maxSector;
      }
    }
  }

  /** Long-only books on both sides: each limited weight lies between the current
      weight and the safe target, and the second clamp pass changes nothing. */
  lemma LongOnlySecondPassIdentity(proposal: Book, c: Book, p: Policy, sectors: map<Name, Name>)
    requires Coherent(p) && LongOnly(c) && (!p.allowShorting || LongOnly(proposal))
    requires TurnoverBinds(Clamped(proposal, p, sectors), c, p)
    ensures var safe := Clamped(proposal, p, sectors);
            var limited := Interpolated(safe, c, p);
            && (forall t | t in limited ::
                  At(c, t) <= limited[t] <= At(safe, t) || limited[t] == At(safe, t) < At(c, t))
            && Safe(limited, p, sectors)
            && Routed(proposal, c, p, sectors) == limited
  {
    hide Total, Clamped, Turnover, Limited;
    var safe := Clamped(proposal, p, sectors);
    var k := p.maxTurnover / Turnover(safe, c);
    var limited := Limited(safe, c, k);
    ClampedIsSafe(proposal, p, sectors);
    InterpolationFactor(safe, c, p);
    LimitedBetween(safe, c, k);
    LimitedKeys(safe, c, k);
    SmallerLongBookIsSafe(limited, safe, p, sectors);
    ClampedFixesSafe(limited, p, sectors);
  }

  lemma LimitedBetween(safe: Book, c: Book, k: real)
    requires LongOnly(safe) && LongOnly(c) && 0.0 <= k <= 1.0
    ensures var limited := Limited(safe, c, k);
            forall t | t in limited ::
              && 0.0 <= limited[t] <= At(safe, t)
              && (At(c, t) <= limited[t] <= At(safe, t) || limited[t] == At(safe, t) < At(c, t))
  {
    hide Toward;
    var limited := Limited(safe, c, k);
    forall t | t in limited
      ensures 0.0 <= limited[t] <= At(safe, t)
      ensures At(c, t) <= limited[t] <= At(safe, t) || limited[t] == At(safe, t) < At(c, t)
    {
      InterpolationWithin(At(safe, t), At(c, t), k);
    }
  }

  lemma LimitedGap(safe: Book, c: Book, k: real, t: Name)
    requires 0.0 <= k <= 1.0 && t in safe.Keys + c.Keys
    requires Abs(At(safe, t)) >= Abs(At(c, t))
    ensures Gap(Limited(safe, c, k), c)(t) == k * Gap(safe, c)(t)
  {
    hide LimitedWeight;
    InterpolationGap(At(safe, t), At(c, t), k);
  }

  lemma LimitedTurnover(safe: Book, c: Book, k: real)
    requires 0.0 <= k <= 1.0
    requires forall t | t in safe.Keys + c.Keys :: Abs(At(safe, t)) >= Abs(At(c, t))
    ensures Turnover(Limited(safe, c, k), c) == k * Turnover(safe, c)
  {
    hide Total, LimitedWeight, Gap, Limited, At;
    var names := safe.Keys + c.Keys;
    forall t | t in names ensures Gap(Limited(safe, c, k), c)(t) == k * Gap(safe, c)(t) {
      LimitedGap(safe, c, k, t);
    }
    TotalScale(names, Gap(safe, c), k, Gap(Limited(safe, c, k), c));
    assert Limited(safe, c, k).Keys + c.Keys == names by { LimitedKeys(safe, c, k); }
  }

  lemma LimitedKeys(safe: Book, c: Book, k: real)
    ensures Limited(safe, c, k).Keys == safe.Keys + c.Keys
  {}

  /** If nothing needs de-risking, the limit is met exactly: the book moves the allowed
      distance and no further. */
  lemma LimitedTurnoverExact(safe: Book, c: Book, p: Policy)
    requires Coherent(p) && TurnoverBinds(safe, c, p)
    requires forall t | t in safe.Keys + c.Keys :: Abs(At(safe, t)) >= Abs(At(c, t))
    ensures Turnover(Interpolated(safe, c, p), c) == p.maxTurnover
  {
    hide Total, LimitedWeight;
    var k := p.maxTurnover / Turnover(safe, c);
    CapFactor(p.maxTurnover, Turnover(safe, c));
    LimitedTurnover(safe, c, k);
  }

  /** A long-only proposal against a long-only current book stays long-only throughout, whether
      or not the policy allows shorting. */
  lemma RoutedLongOnly(proposal: Book, c: Book, p: Policy, sectors: map<Name, Name>)
    requires Coherent(p) && (!p.allowShorting || (LongOnly(proposal) && LongOnly(c)))
    ensures LongOnly(Routed(proposal, c, p, sectors))
  {
    hide Total, Clamped, Turnover, Limited, SectorExposure, Gross, Net;
    var safe := Clamped(proposal, p, sectors);
    ClampedIsSafe(proposal, p, sectors);
    if TurnoverBinds(safe, c, p) {
      var k := p.maxTurnover / Turnover(safe, c);
      InterpolationFactor(safe, c, p);
      ClampedIsSafe(Limited(safe, c, k), p, sectors);
      if p.allowShorting { LimitedBetween(safe, c, k); }
    }
  }

  // ------------------------------------------------------------ dust and approval

  lemma RoutedIsSafe(proposal: Book, c: Book, p: Policy, sectors: map<Name, Name>)
    requires Coherent(p)
    ensures Safe(Routed(proposal, c, p, sectors), p, sectors)
    ensures Classified(proposal, c, p, sectors) ==> AllClassified(Routed(proposal, c, p, sectors), sectors)
  {
    hide Total;
    ClampedIsSafe(proposal, p, sectors);
    var safe := Clamped(proposal, p, sectors);
    if TurnoverBinds(safe, c, p) {
      ClampedIsSafe(Interpolated(safe, c, p), p, sectors);
    }
  }

  /** Nothing the safe target does cuts absolute exposure, so no cut overrides the limit. */
  ghost predicate NothingToCut(safe: Book, c: Book) {
    forall t | t in safe.Keys + c.Keys :: Abs(At(safe, t)) >= Abs(At(c, t))
  }

  /** What dropping one ticker's dust can add to its distance from the current book. */
  function DustOf(w: Book): Name -> real { t => if t in w && Abs(w[t]) <= DUST then DUST else 0.0 }

  lemma DustPoint(w: Book, c: Book, t: Name)
    ensures Gap(WithoutDust(w), c)(t) <= Gap(w, c)(t) + DustOf(w)(t)
  {}

  lemma DustTurnover(w: Book, c: Book)
    ensures Turnover(WithoutDust(w), c) <= Turnover(w, c) + 0.5 * (|Dusty(w)| as real * DUST)
  {
    hide Total;
    var v, all := WithoutDust(w), w.Keys + c.Keys;
    var sum: Name -> real := t => Gap(w, c)(t) + DustOf(w)(t);
    TotalExtend(v.Keys + c.Keys, all, Gap(v, c));
    forall t | t in all ensures Gap(v, c)(t) <= sum(t) { DustPoint(w, c, t); }
    TotalLe(all, Gap(v, c), sum);
    TotalAdd(all, Gap(w, c), DustOf(w), sum);
    TotalExtend(Dusty(w), all, DustOf(w));
    TotalAtMost(Dusty(w), DustOf(w), DUST);
  }

  /** The turnover limit is exceeded only for de-risking: long-only books with nothing to cut
      end within the limit, up to half the dust dropped. */
  lemma TurnoverWithinLimit(proposal: Book, c: Book, p: Policy, sectors: map<Name, Name>)
    requires Coherent(p) && LongOnly(c) && (!p.allowShorting || LongOnly(proposal))
    requires NothingToCut(Clamped(proposal, p, sectors), c)
    ensures Turnover(Routed(proposal, c, p, sectors), c) <= p.maxTurnover
    ensures Turnover(Final(proposal, c, p, sectors), c)
            <= p.maxTurnover + 0.5 * (|Dusty(Routed(proposal, c, p, sectors))| as real * DUST)
  {
    hide Total, Clamped, Turnover, WithoutDust, Dusty, Limited, At;
    var safe := Clamped(proposal, p, sectors);
    if TurnoverBinds(safe, c, p) {
      LongOnlySecondPassIdentity(proposal, c, p, sectors);
      LimitedTurnoverExact(safe, c, p);
    }
    DustTurnover(Routed(proposal, c, p, sectors), c);
  }

  function Dusty(w: Book): set<Name> { set t | t in w && Abs(w[t]) <= DUST }

  lemma DustSplit(w: Book)
    ensures Net(w) == Net(WithoutDust(w)) + Total(Dusty(w), Signed(w))
    ensures Gross(w) == Gross(WithoutDust(w)) + Total(Dusty(w), Sized(w))
  {
    hide Total;
    var v := WithoutDust(w);
    assert w.Keys == v.Keys + Dusty(w);
    TotalSplit(v.Keys, Dusty(w), Signed(w));
    TotalSplit(v.Keys, Dusty(w), Sized(w));
    TotalSame(v.Keys, Signed(v), Signed(w));
    TotalSame(v.Keys, Sized(v), Sized(w));
  }

  /** Every re-check except the one on net exposure. */
  ghost predicate SafeButNet(w: Book, p: Policy, sectors: map<Name, Name>) {
    && (!p.allowShorting ==> LongOnly(w))
    && (forall t | t in w :: Abs(w[t]) <= p.maxPosition)
    && (AllClassified(w, sectors) ==> forall s :: SectorExposure(w, sectors, s) <= p.maxSector)
    && Gross(w) <= GrossCap(p)
  }

  lemma DustKeepsLimits(w: Book, p: Policy, sectors: map<Name, Name>)
    requires Coherent(p) && Safe(w, p, sectors) && AllClassified(w, sectors)
    ensures SafeButNet(WithoutDust(w), p, sectors)
    ensures Net(WithoutDust(w)) <= 1.0 - p.minCash
  {
    hide Total;
    var v := WithoutDust(w);
    DustSplit(w);
    TotalNonNegative(Dusty(w), Sized(w));
    NetWithinGross(v);
    forall s ensures SectorExposure(v, sectors, s) <= p.maxSector {
      var kept, all := Members(v, sectors, s), Members(w, sectors, s);
      TotalSplit(kept, all - kept, Long(w));
      assert kept + (all - kept) == all;
      TotalNonNegative(all - kept, Long(w));
      TotalSame(kept, Long(v), Long(w));
      assert SectorExposure(w, sectors, s) <= p.maxSector;
    }
  }

  /** Dropping dust can only break the net limit through shorts, and needs more than
      1001 tickers to do it: 1001 dropped weights of 1e-15 leave an empty book. */
  lemma DustKeepsNet(w: Book, p: Policy, sectors: map<Name, Name>)
    requires Coherent(p) && Safe(w, p, sectors)
    requires LongOnly(w) || |w| <= 1001
    ensures Abs(Net(WithoutDust(w))) <= p.maxNet + TOLERANCE
  {
    if LongOnly(w) {
      DustKeepsLongNet(w);
    } else {
      DustMovesNetLittle(w);
    }
  }

  lemma DustKeepsLongNet(w: Book)
    requires LongOnly(w)
    ensures 0.0 <= Net(WithoutDust(w)) <= Net(w)
  {
    hide Total;
    var v := WithoutDust(w);
    DustSplit(w);
    NetWithinGross(w);
    NetWithinGross(v);
    TotalNonNegative(Dusty(w), Sized(w));
    TotalNonNegative(v.Keys, Sized(v));
  }

  lemma DustMovesNetLittle(w: Book)
    requires |w| <= 1001
    ensures WithoutDust(w) != map[] ==> Abs(Net(w) - Net(WithoutDust(w))) <= TOLERANCE
    ensures WithoutDust(w) == map[] ==> Net(WithoutDust(w)) == 0.0
  {
    hide Total, Net;
    var v, d := WithoutDust(w), Dusty(w);
    if v == map[] {
      TotalEmpty(Signed(v));
      assert Net(v) == Total({}, Signed(v)) by { assert v.Keys == {}; NetTotal(v); }
    } else {
      DustSplit(w);
      TotalTriangle(d, Signed(w), Sized(w));
      TotalAtMost(d, Sized(w), DUST);
      var kept :| kept in v;
      assert |d| <= 1000 by {
        SubsetSize(d, w.Keys - {kept});
        assert |w.Keys| == |w|;
      }
      DustTotal(|d|);
    }
  }

  lemma NetTotal(w: Book)
    ensures Net(w) == Total(w.Keys, Signed(w))
  {}

  lemma DustTotal(n: nat)
    requires n <= 1000
    ensures n as real * DUST <= TOLERANCE
  {}

  // The bound of 1001 tickers is sharp, on tickers a proposal accepts.

  predicate TickerChar(c: char) { 'A' <= c <= 'Z' || '0' <= c <= '9' || c == '.' || c == '-' }

  /** One to ten characters, a capital letter first. */
  predicate ValidTicker(t: Name) {
    1 <= |t| <= 10 && 'A' <= t[0] <= 'Z' && forall i | 0 <= i < |t| :: TickerChar(t[i])
  }

  ghost predicate ValidTickers(w: Book) { forall t | t in w :: ValidTicker(t) }

  function Letter(k: nat): (c: char)
    requires k < 26
    ensures 'A' <= c <= 'Z' && c as int - 'A' as int == k
  {
    ('A' as int + k) as char
  }

  /** `k` in base 26, in the given number of capital letters. */
  function Code(k: nat, width: nat): (c: Name)
    ensures |c| == width && forall i | 0 <= i < |c| :: 'A' <= c[i] <= 'Z'
  {
    if width == 0 then [] else Code(k / 26, width - 1) + [Letter(k % 26)]
  }

  function Decode(c: Name): int {
    if c == [] then 0 else 26 * Decode(c[..|c| - 1]) + (c[|c| - 1] as int - 'A' as int)
  }

  function Codes(width: nat): nat { if width == 0 then 1 else 26 * Codes(width - 1) }

  lemma {:induction false} CodeDecodes(k: nat, width: nat)
    requires k < Codes(width)
    ensures Decode(Code(k, width)) == k
  {
    if width > 0 {
      CodeDecodes(k / 26, width - 1);
      assert Code(k, width)[..width - 1] == Code(k / 26, width - 1);
    }
  }

  lemma NineLetters()
    ensures Codes(9) == 5_429_503_678_976
  {
    assert Codes(4) == 456_976;
    assert Codes(8) == 208_827_064_576;
  }

  /** 'S' and nine letters. */
  function DustName(k: nat): (t: Name)
    ensures ValidTicker(t) && t[0] == 'S'
  {
    "S" + Code(k, 9)
  }

  function DustNames(n: nat): (s: set<Name>)
    ensures forall x | x in s :: ValidTicker(x) && x[0] == 'S'
  {
    if n == 0 then {} else DustNames(n - 1) + {DustName(n - 1)}
  }

  lemma {:induction false} DustNamesDistinct(n: nat, k: nat)
    requires n <= k < Codes(9)
    ensures DustName(k) !in DustNames(n)
  {
    hide Code, Decode, Codes;
    if n > 0 {
      DustNamesDistinct(n - 1, k);
      CodeDecodes(k, 9);
      CodeDecodes(n - 1, 9);
      assert DustName(k)[1..] == Code(k, 9) && DustName(n - 1)[1..] == Code(n - 1, 9);
    }
  }

  lemma {:induction false} DustNamesSum(n: nat, f: Name -> real, c: real)
    requires n <= 100_000_000
    requires forall x | x in DustNames(n) :: f(x) == c
    ensures Total(DustNames(n), f) == n as real * c
  {
    hide Total, DustName, Codes;
    if n == 0 {
      TotalEmpty(f);
    } else {
      NineLetters();
      DustNamesDistinct(n - 1, n - 1);
      DustNamesSum(n - 1, f, c);
      var x := DustName(n - 1);
      TotalRemove(DustNames(n), f, x);
      assert DustNames(n) - {x} == DustNames(n - 1);
      OneMore(n as real, (n - 1) as real, c);
    }
  }

  const SHARP_POLICY: Policy :=
    Policy(0.75, 1.0, 0.5, 1.0, 0.0, 1.0, 1.0, 5.0, 5.0, true, false)

  /** One long beside `n` shorts of exactly 1e-15, netting to the cap of 0.5. */
  function SharpBook(n: nat): Book {
    map t | t in DustNames(n) + {"L"} :: if t == "L" then 0.5 + n as real * DUST else -DUST
  }

  function SharpSectors(n: nat): map<Name, Name> { map t | t in SharpBook(n) :: "X" }

  lemma SharpBookShape(n: nat)
    ensures "L" !in DustNames(n)
    ensures SharpBook(n).Keys == DustNames(n) + {"L"}
    ensures At(SharpBook(n), "L") == 0.5 + n as real * DUST
    ensures forall x | x in DustNames(n) :: At(SharpBook(n), x) == -DUST
  {}

  lemma SharpBookSums(n: nat)
    requires n <= 100_000_000
    ensures SharpBook(n).Keys == DustNames(n) + {"L"}
    ensures Net(SharpBook(n)) == 0.5
    ensures Gross(SharpBook(n)) == 0.5 + 2.0 * (n as real * DUST)
  {
    hide Total, SharpBook, DustNames, At;
    var w, names := SharpBook(n), DustNames(n);
    SharpBookShape(n);
    DustNamesSum(n, Signed(w), -DUST);
    DustNamesSum(n, Sized(w), DUST);
    assert w.Keys - {"L"} == names;
    TotalRemove(w.Keys, Signed(w), "L");
    TotalRemove(w.Keys, Sized(w), "L");
    var bulk := n as real * DUST;
    assert n as real * -DUST == -bulk;
    assert 0.0 <= bulk;
  }

  lemma SharpBookIsSafe(n: nat)
    requires n <= 100_000_000
    ensures Coherent(SHARP_POLICY)
    ensures Safe(SharpBook(n), SHARP_POLICY, SharpSectors(n))
  {
    hide Total, DustNames;
    var w, p, sectors := SharpBook(n), SHARP_POLICY, SharpSectors(n);
    SharpBookSums(n);
    var bulk := n as real * DUST;
    assert 0.0 <= bulk <= 0.0000001;
    forall s ensures SectorExposure(w, sectors, s) <= p.maxSector {
      var m := Members(w, sectors, s);
      TotalLe(m, Long(w), Sized(w));
      TotalSplit(m, w.Keys - m, Sized(w));
      assert m + (w.Keys - m) == w.Keys;
      TotalNonNegative(w.Keys - m, Sized(w));
    }
  }

  /** With more than 1000 dust shorts beside one long, all under tickers a proposal accepts, the
      safe book sits on the net limit, dropping the dust lifts it past the tolerance, and the
      gate rejects its own output. */
  lemma DustBoundIsSharp(n: nat)
    requires 1001 <= n <= 100_000_000
    ensures Coherent(SHARP_POLICY) && ValidTickers(SharpBook(n)) && Net(SharpBook(n)) == 0.5
    ensures Classified(SharpBook(n), map[], SHARP_POLICY, SharpSectors(n))
    ensures Routed(SharpBook(n), map[], SHARP_POLICY, SharpSectors(n)) == SharpBook(n)
    ensures Abs(Net(Final(SharpBook(n), map[], SHARP_POLICY, SharpSectors(n))))
            > SHARP_POLICY.maxNet + TOLERANCE
  {
    hide Total, DustNames, Clamped, SharpBook, Safe, ValidTickers;
    var w, p, sectors := SharpBook(n), SHARP_POLICY, SharpSectors(n);
    SharpBookSums(n);
    SharpBookTickers(n);
    SharpBookIsSafe(n);
    ClampedFixesSafe(w, p, sectors);
    var empty: Book := map[];
    assert Turnover(w, empty) == 0.5 * Gross(w) by {
      assert w.Keys + empty.Keys == w.Keys;
      TotalSame(w.Keys, Gap(w, empty), Sized(w));
    }
    SharpBookNet(n);
  }

  lemma SharpBookTickers(n: nat)
    ensures ValidTickers(SharpBook(n))
  {
    hide DustNames;
    assert ValidTicker("L");
  }

  lemma SharpBookNet(n: nat)
    ensures Net(WithoutDust(SharpBook(n))) == 0.5 + n as real * DUST
  {
    hide Total;
    var v := WithoutDust(SharpBook(n));
    assert v.Keys == {"L"};
    TotalRemove(v.Keys, Signed(v), "L");
    assert v.Keys - {"L"} == {};
    TotalEmpty(Signed(v));
  }
}
