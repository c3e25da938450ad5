/** Discounted cash-flow value with a value-driver terminal, and its inversion by bisection. */
module Valuation {
  import opened Reals
  import opened Wrappers

  // ------------------------------------------------------------ enterprise value

  datatype Period = Period(nopat: real, fcff: real)

  datatype Forecast = Forecast(periods: seq<Period>, terminalRoic: real)

  /** What the forecast contract guarantees. */
  predicate Admissible(f: Forecast) { |f.periods| >= 2 && f.terminalRoic > 0.0 }

  datatype ValuationError = InfeasibleRates | RoicBelowGrowth | InvalidPriceOrBounds | UnknownVariable

  datatype Worth = Worth(explicitPv: real, terminal: real, terminalPv: real)

  function Power(b: real, n: nat): real { if n == 0 then 1.0 else b * Power(b, n - 1) }

  lemma {:induction false} PowerPositive(b: real, n: nat)
    requires b > 0.0
    ensures Power(b, n) > 0.0
  {
    if n > 0 { PowerPositive(b, n - 1); }
  }

  /** The divisor of a cash flow `n` years out. */
  function Discount(rate: real, n: nat): (d: real)
    requires rate > 0.0
    ensures d > 0.0
  {
    PowerPositive(1.0 + rate, n);
    Power(1.0 + rate, n)
  }

  function ExplicitPv(periods: seq<Period>, rate: real): real
    requires rate > 0.0
  {
    if periods == [] then 0.0
    else
      ExplicitPv(periods[..|periods| - 1], rate) + periods[|periods| - 1].fcff / Discount(rate, |periods|)
  }

  predicate Rates(rate: real, growth: real) { 0.0 < rate < 1.0 && -1.0 < growth < rate }

  /** Cash flow of the first year past the horizon. */
  function TerminalFcff(last: Period, growth: real, roic: real): real
    requires roic > 0.0
  {
    last.nopat * (1.0 + growth) * (1.0 - growth / roic)
  }

  function EnterpriseValue(f: Forecast, rate: real, growth: real): Result<Worth, ValuationError>
    requires Admissible(f)
  {
    if !Rates(rate, growth) then Err(InfeasibleRates)
    else if growth > 0.0 && f.terminalRoic <= growth then Err(RoicBelowGrowth)
    else
      var terminal := TerminalFcff(f.periods[|f.periods| - 1], growth, f.terminalRoic) / (rate - growth);
      Ok(Worth(ExplicitPv(f.periods, rate), terminal, terminal / Discount(rate, |f.periods|)))
  }

  function Total(w: Worth): real { w.explicitPv + w.terminalPv }

  /** The year after `last` in which nothing changes but scale. */
  function SteadyYear(last: Period, growth: real, roic: real): Period
    requires roic > 0.0
  {
    Period(last.nopat * (1.0 + growth), TerminalFcff(last, growth, roic))
  }

  function WithYear(f: Forecast, year: Period): Forecast { f.(periods := f.periods + [year]) }

  function WithSteadyYears(f: Forecast, growth: real, years: nat): Forecast
    requires Admissible(f)
    ensures Admissible(WithSteadyYears(f, growth, years))
    decreases years
  {
    if years == 0 then f
    else
      WithSteadyYears(WithYear(f, SteadyYear(f.periods[|f.periods| - 1], growth, f.terminalRoic)), growth, years - 1)
  }

  // Arithmetic on single numbers.

  lemma QuotientTimes(a: real, d: real, q: real)
    requires d > 0.0 && q == a / d
    ensures q * d == a
  {}

  lemma ZeroFactor(x: real, e: real, p: real)
    requires e > 0.0 && p == x * e && p == 0.0
    ensures x == 0.0
  {}

  lemma ScaledQuotient(w: real, k: real, w2: real, s: real, a: real, b: real)
    requires s > 0.0 && a == w / s && b == w2 / s && w2 == w * k
    ensures b == a * k
  {}

  lemma OneYear(a: real, b: real, fcff: real, steady: real, rate: real, growth: real, d: real, e: real,
                early: real, late: real, year: real)
    requires d > 0.0 && e > 0.0 && e == (1.0 + rate) * d && a * (rate - growth) == steady
    requires early == a / d && late == b / e && year == fcff / e
    ensures (year + late - early) * e == (fcff - steady) + (b - a * (1.0 + growth))
  {}

  lemma WorthIs(f: Forecast, rate: real, growth: real)
    requires Admissible(f) && EnterpriseValue(f, rate, growth).Ok?
    ensures rate > 0.0 && rate > growth
    ensures var w, n := EnterpriseValue(f, rate, growth).value, |f.periods|;
            && w.explicitPv == ExplicitPv(f.periods, rate)
            && w.terminal == TerminalFcff(f.periods[n - 1], growth, f.terminalRoic) / (rate - growth)
            && w.terminalPv == w.terminal / Discount(rate, n)
  {}

  lemma ExplicitStep(periods: seq<Period>, year: Period, rate: real)
    requires rate > 0.0
    ensures ExplicitPv(periods + [year], rate) == ExplicitPv(periods, rate) + year.fcff / Discount(rate, |periods| + 1)
  {}

  lemma DiscountStep(rate: real, n: nat)
    requires rate > 0.0
    ensures Discount(rate, n + 1) == (1.0 + rate) * Discount(rate, n)
  {}

  lemma StillValued(f: Forecast, year: Period, rate: real, growth: real)
    requires Admissible(f) && EnterpriseValue(f, rate, growth).Ok?
    ensures Admissible(WithYear(f, year)) && EnterpriseValue(WithYear(f, year), rate, growth).Ok?
  {}

  /** What one more explicit year is worth, compounded to that year: its cash flow beyond the
      terminal flow it replaces, and its terminal value beyond the old one grown at `growth`. */
  lemma YearChangesValueBy(f: Forecast, year: Period, rate: real, growth: real)
    requires Admissible(f) && EnterpriseValue(f, rate, growth).Ok?
    ensures EnterpriseValue(WithYear(f, year), rate, growth).Ok?
    ensures var was, now := EnterpriseValue(f, rate, growth).value, EnterpriseValue(WithYear(f, year), rate, growth).value;
            var last := f.periods[|f.periods| - 1];
            (Total(now) - Total(was)) * Discount(rate, |f.periods| + 1) ==
              (year.fcff - TerminalFcff(last, growth, f.terminalRoic))
              + (now.terminal - was.terminal * (1.0 + growth))
  {
    hide EnterpriseValue, TerminalFcff, Discount, ExplicitPv;
    StillValued(f, year, rate, growth);
    WorthIs(f, rate, growth);
    WorthIs(WithYear(f, year), rate, growth);
    ExplicitStep(f.periods, year, rate);
    DiscountStep(rate, |f.periods|);
    var n := |f.periods|;
    var was, now := EnterpriseValue(f, rate, growth).value, EnterpriseValue(WithYear(f, year), rate, growth).value;
    var steady := TerminalFcff(f.periods[n - 1], growth, f.terminalRoic);
    QuotientTimes(steady, rate - growth, was.terminal);
    OneYear(was.terminal, now.terminal, year.fcff, steady, rate, growth,
            Discount(rate, n), Discount(rate, n + 1), was.terminalPv, now.terminalPv,
            year.fcff / Discount(rate, n + 1));
  }

  /** A year of NOPAT grown at the terminal rate leaves the value alone exactly when its cash
      flow is the steady one. */
  lemma SteadyYearIff(f: Forecast, year: Period, rate: real, growth: real)
    requires Admissible(f) && EnterpriseValue(f, rate, growth).Ok?
    requires year.nopat == f.periods[|f.periods| - 1].nopat * (1.0 + growth)
    ensures EnterpriseValue(WithYear(f, year), rate, growth).Ok?
    ensures (Total(EnterpriseValue(WithYear(f, year), rate, growth).value)
              == Total(EnterpriseValue(f, rate, growth).value)) <==>
              year == SteadyYear(f.periods[|f.periods| - 1], growth, f.terminalRoic)
  {
    hide EnterpriseValue, TerminalFcff, Discount, Total;
    WorthIs(f, rate, growth);
    YearChangesValueBy(f, year, rate, growth);
    TerminalGrows(f, year, rate, growth);
    var was, now := EnterpriseValue(f, rate, growth).value, EnterpriseValue(WithYear(f, year), rate, growth).value;
    var gap, e := Total(now) - Total(was), Discount(rate, |f.periods| + 1);
    if year.fcff == TerminalFcff(f.periods[|f.periods| - 1], growth, f.terminalRoic) { ZeroFactor(gap, e, gap * e); }
  }

  lemma TerminalGrows(f: Forecast, year: Period, rate: real, growth: real)
    requires Admissible(f) && EnterpriseValue(f, rate, growth).Ok? && EnterpriseValue(WithYear(f, year), rate, growth).Ok?
    requires year.nopat == f.periods[|f.periods| - 1].nopat * (1.0 + growth)
    ensures EnterpriseValue(WithYear(f, year), rate, growth).value.terminal
              == EnterpriseValue(f, rate, growth).value.terminal * (1.0 + growth)
  {
    hide EnterpriseValue, TerminalFcff;
    WorthIs(f, rate, growth);
    WorthIs(WithYear(f, year), rate, growth);
    var last := f.periods[|f.periods| - 1];
    SteadyFlow(last, year, growth, f.terminalRoic);
    ScaledQuotient(
      TerminalFcff(last, growth, f.terminalRoic), 1.0 + growth, TerminalFcff(year, growth, f.terminalRoic),
      rate - growth, EnterpriseValue(f, rate, growth).value.terminal,
      EnterpriseValue(WithYear(f, year), rate, growth).value.terminal);
  }

  lemma SteadyFlow(last: Period, year: Period, growth: real, roic: real)
    requires roic > 0.0 && year.nopat == last.nopat * (1.0 + growth)
    ensures TerminalFcff(year, growth, roic) == TerminalFcff(last, growth, roic) * (1.0 + growth)
  {}

  /** The value does not depend on how many steady years are forecast explicitly. */
  lemma {:induction false} HorizonIndependence(f: Forecast, rate: real, growth: real, years: nat)
    requires Admissible(f) && EnterpriseValue(f, rate, growth).Ok?
    ensures EnterpriseValue(WithSteadyYears(f, growth, years), rate, growth).Ok?
    ensures Total(EnterpriseValue(WithSteadyYears(f, growth, years), rate, growth).value)
              == Total(EnterpriseValue(f, rate, growth).value)
    decreases years
  {
    hide EnterpriseValue;
    if years > 0 {
      var year := SteadyYear(f.periods[|f.periods| - 1], growth, f.terminalRoic);
      SteadyYearIff(f, year, rate, growth);
      HorizonIndependence(WithYear(f, year), rate, growth, years - 1);
    }
  }

  // ------------------------------------------------------------- absolute value

  lemma {:induction false} ExplicitRolls(periods: seq<Period>, rate: real)
    requires periods != [] && rate > 0.0
    ensures ExplicitPv(periods, rate) * (1.0 + rate) == periods[0].fcff + ExplicitPv(periods[1..], rate)
  {
    hide ExplicitPv, Discount;
    var n := |periods| - 1;
    var front, year := periods[..n], periods[n];
    assert periods == front + [year];
    ExplicitStep(front, year, rate);
    DiscountStep(rate, n);
    if n == 0 {
      assert front == [] && periods[1..] == [];
      NothingForecast(rate);
      RolledYear(year.fcff, Discount(rate, n), Discount(rate, n + 1), 1.0 + rate);
    } else {
      ExplicitRolls(front, rate);
      assert front[1..] + [year] == periods[1..];
      ExplicitStep(front[1..], year, rate);
      RolledYear(year.fcff, Discount(rate, n), Discount(rate, n + 1), 1.0 + rate);
      RolledSum(ExplicitPv(front, rate), year.fcff / Discount(rate, n + 1), 1.0 + rate);
    }
  }

  lemma NothingForecast(rate: real)
    requires rate > 0.0
    ensures ExplicitPv([], rate) == 0.0 && Discount(rate, 0) == 1.0
  {}

  lemma RolledYear(c: real, d: real, e: real, k: real)
    requires d > 0.0 && k > 0.0 && e == k * d && e > 0.0
    ensures (c / e) * k == c / d
  {
    var x, y := c / e, c / d;
    assert x * e == c && y * d == c;
    assert (x * k - y) * d == 0.0;
  }

  lemma RolledSum(a: real, b: real, k: real)
    ensures (a + b) * k == a * k + b * k
  {}

  /** A year on, value has grown at the discount rate and paid out the first year's cash flow. */
  lemma FirstYearOff(f: Forecast, rate: real, growth: real)
    requires |f.periods| > 2 && f.terminalRoic > 0.0 && EnterpriseValue(f, rate, growth).Ok?
    ensures var rest := f.(periods := f.periods[1..]);
            && EnterpriseValue(rest, rate, growth).Ok?
            && Total(EnterpriseValue(f, rate, growth).value) * (1.0 + rate)
               == f.periods[0].fcff + Total(EnterpriseValue(rest, rate, growth).value)
  {
    var rest, n := f.(periods := f.periods[1..]), |f.periods|;
    assert EnterpriseValue(rest, rate, growth).Ok?;
    hide EnterpriseValue, Discount, ExplicitPv, TerminalFcff;
    WorthIs(f, rate, growth);
    WorthIs(rest, rate, growth);
    ExplicitRolls(f.periods, rate);
    DiscountStep(rate, n - 1);
    var was, now := EnterpriseValue(f, rate, growth).value, EnterpriseValue(rest, rate, growth).value;
    assert f.periods[n - 1] == rest.periods[n - 2];
    RolledYear(was.terminal, Discount(rate, n - 1), Discount(rate, n), 1.0 + rate);
    RolledSum(was.explicitPv, was.terminalPv, 1.0 + rate);
  }

  /** Every year scales the one before, the first included. */
  ghost predicate Steady(f: Forecast, growth: real)
    requires Admissible(f)
  {
    && f.periods[0].fcff == f.periods[0].nopat * (1.0 - growth / f.terminalRoic)
    && forall k | 0 <= k < |f.periods| - 1 :: f.periods[k + 1] == SteadyYear(f.periods[k], growth, f.terminalRoic)
  }

  lemma {:induction false} SteadyValueTo(f: Forecast, rate: real, growth: real, n: nat, flow: real)
    requires Admissible(f) && Steady(f, growth) && 0.0 < rate && growth < rate && n <= |f.periods|
    requires flow == (if n == 0 then f.periods[0].fcff else TerminalFcff(f.periods[n - 1], growth, f.terminalRoic))
    ensures ExplicitPv(f.periods[..n], rate) + (flow / (rate - growth)) / Discount(rate, n)
            == f.periods[0].fcff / (rate - growth)
    ensures n < |f.periods| ==> f.periods[n].fcff == flow
  {
    hide ExplicitPv, Discount, TerminalFcff;
    if n == 0 {
      assert f.periods[..0] == [];
      NothingForecast(rate);
    } else {
      var last := f.periods[n - 1];
      SteadyValueTo(f, rate, growth, n - 1, last.fcff);
      FlowGrows(last, growth, f.terminalRoic, f, n - 1);
      assert f.periods[..n] == f.periods[..n - 1] + [last];
      ExplicitStep(f.periods[..n - 1], last, rate);
      DiscountStep(rate, n - 1);
      var s, d, e := rate - growth, Discount(rate, n - 1), Discount(rate, n);
      var a, b := last.fcff / s, flow / s;
      QuotientTimes(last.fcff, s, a);
      ScaledQuotient(last.fcff, 1.0 + growth, flow, s, a, b);
      var early, late, year := a / d, b / e, last.fcff / e;
      OneYear(a, b, last.fcff, last.fcff, rate, growth, d, e, early, late, year);
      ZeroFactor(year + late - early, e, (year + late - early) * e);
      if n < |f.periods| { assert f.periods[(n - 1) + 1] == SteadyYear(last, growth, f.terminalRoic); }
    }
  }

  /** The cash flow after year `n + 1` is that year's, grown. */
  lemma FlowGrows(last: Period, growth: real, roic: real, f: Forecast, n: nat)
    requires Admissible(f) && Steady(f, growth) && n < |f.periods| && last == f.periods[n] && roic == f.terminalRoic
    ensures TerminalFcff(last, growth, roic) == last.fcff * (1.0 + growth)
  {
    var keep := 1.0 - growth / roic;
    if n > 0 {
      var before := f.periods[n - 1];
      assert f.periods[(n - 1) + 1] == SteadyYear(before, growth, roic);
      Scales(before.nopat, last.nopat, 1.0 + growth, keep);
    } else {
      Scales(last.nopat, last.nopat * (1.0 + growth), 1.0 + growth, keep);
    }
  }

  lemma Scales(x: real, y: real, g: real, keep: real)
    requires y == x * g
    ensures y * g * keep == (x * g * keep) * g
    ensures y * keep == (x * keep) * g
  {}

  /** The growing perpetuity: a forecast that is steady from its first year is worth that year's
      cash flow over the spread of rate and growth. */
  lemma SteadyValue(f: Forecast, rate: real, growth: real)
    requires Admissible(f) && Steady(f, growth) && EnterpriseValue(f, rate, growth).Ok?
    ensures Total(EnterpriseValue(f, rate, growth).value) == f.periods[0].fcff / (rate - growth)
  {
    hide EnterpriseValue, Discount, ExplicitPv, TerminalFcff, Steady;
    WorthIs(f, rate, growth);
    var n := |f.periods|;
    SteadyValueTo(f, rate, growth, n, TerminalFcff(f.periods[n - 1], growth, f.terminalRoic));
    assert f.periods[..n] == f.periods;
  }

  // ------------------------------------------------------------- reverse DCF

  /** An answer, the residual there, and whether the iterations ran out. */
  datatype Inversion = Infeasible | Implied(value: real, residual: real, exhausted: bool)

  function Gap(f: real -> real, price: real, x: real): real { f(x) - price }

  /** The gap changes sign over the bracket: strictly, unless a zero may have been kept. */
  ghost predicate Bracket(f: real -> real, price: real, low: real, high: real, strict: bool) {
    && low < high && Gap(f, price, low) != 0.0
    && (Gap(f, price, low) > 0.0 ==> Gap(f, price, high) <= 0.0)
    && (Gap(f, price, low) < 0.0 ==> Gap(f, price, high) >= 0.0)
    && (strict ==> Gap(f, price, high) != 0.0)
  }

  predicate KnownVariable(variable: string) {
    variable in {"revenue_growth", "growth_duration", "operating_margin"}
  }

  function Steps(maxIterations: int): nat { if maxIterations < 0 then 0 else maxIterations }

  /** How often the bracket had been halved when the last midpoint was taken. */
  function Halvings(maxIterations: int): nat { if maxIterations <= 0 then 0 else maxIterations - 1 }

  /** The last midpoint of a bracket halved `k` times inside the bounds. */
  ghost predicate MidpointOf(
      f: real -> real, price: real, lower: real, upper: real, strict: bool, k: nat, x: real) {
    exists low, high ::
      && lower <= low && high <= upper && Bracket(f, price, low, high, strict)
      && high - low == Half(upper - lower, k) && x == (low + high) / 2.0
  }

  method SolveImpliedAssumption(
      f: real -> real, price: real, variable: string, lower: real, upper: real, tolerance: real, maxIterations: int)
    returns (r: Result<Inversion, ValuationError>)
    ensures price <= 0.0 || lower >= upper ==> r == Err(InvalidPriceOrBounds)
    ensures price > 0.0 && lower < upper ==> (r.Err? <==> !KnownVariable(variable))
    ensures price > 0.0 && lower < upper && r.Err? ==> r.error == UnknownVariable
    ensures r.Ok? ==>
              var a, b := Gap(f, price, lower), Gap(f, price, upper);
              r.value.Infeasible? <==> (a > 0.0 && b > 0.0) || (a < 0.0 && b < 0.0)
    ensures r.Ok? && r.value.Implied? ==>
              lower <= r.value.value <= upper && r.value.residual == Gap(f, price, r.value.value)
    ensures r.Ok? && r.value.Implied? && !r.value.exhausted ==>
              Abs(r.value.residual) <= tolerance || r.value.residual == 0.0
    ensures r.Ok? && r.value.Implied? && r.value.exhausted ==>
              MidpointOf(f, price, lower, upper, tolerance >= 0.0, Halvings(maxIterations), r.value.value)
    ensures r.Ok? && r.value.Implied? && r.value.exhausted && maxIterations > 0 ==> Abs(r.value.residual) > tolerance
  {
    if price <= 0.0 || lower >= upper { return Err(InvalidPriceOrBounds); }
    if !KnownVariable(variable) { return Err(UnknownVariable); }
    var lowValue, highValue := f(lower) - price, f(upper) - price;
    if lowValue == 0.0 { return Ok(Implied(lower, 0.0, false)); }
    if highValue == 0.0 { return Ok(Implied(upper, 0.0, false)); }
    SignOfProduct(lowValue, highValue, lowValue * highValue);
    if lowValue * highValue > 0.0 { return Ok(Infeasible); }
    var low, high := lower, upper;
    var implied := (low + high) / 2.0;
    var residual := f(implied) - price;
    assert Bracket(f, price, low, high, tolerance >= 0.0);
    for k := 0 to Steps(maxIterations)
      invariant lower <= low && high <= upper && Bracket(f, price, low, high, tolerance >= 0.0)
      invariant high - low == Half(upper - lower, k) && lowValue == Gap(f, price, low)
      invariant k > 0 ==> Abs(residual) > tolerance
      invariant lower <= implied <= upper && residual == Gap(f, price, implied)
      invariant MidpointOf(f, price, lower, upper, tolerance >= 0.0, Halvings(k), implied)
    {
      implied := (low + high) / 2.0;
      residual := f(implied) - price;
      if Abs(residual) <= tolerance { return Ok(Implied(implied, residual, false)); }
      SignOfProduct(lowValue, residual, lowValue * residual);
      if lowValue * residual <= 0.0 { high := implied; } else { low, lowValue := implied, residual; }
    }
    r := Ok(Implied(implied, residual, true));
  }

  lemma SignOfProduct(x: real, y: real, p: real)
    requires p == x * y && x != 0.0
    ensures p > 0.0 <==> (x > 0.0 && y > 0.0) || (x < 0.0 && y < 0.0)
    ensures p == 0.0 <==> y == 0.0
  {}

  ghost predicate Lipschitz(f: real -> real, lower: real, upper: real, l: real) {
    l >= 0.0 && forall x, y | lower <= x <= upper && lower <= y <= upper :: Abs(f(x) - f(y)) <= l * Abs(x - y)
  }

  ghost predicate StrictlyIncreasing(f: real -> real, lower: real, upper: real) {
    forall x, y | lower <= x < y <= upper :: f(x) < f(y)
  }

  /** For a valuation that changes at most `l` per unit, running out of iterations leaves a
      residual of at most `l` times the bounds' width halved once per iteration. */
  lemma ExhaustedResidual(
      f: real -> real, price: real, lower: real, upper: real, strict: bool, maxIterations: int, x: real, l: real)
    requires lower < upper && Lipschitz(f, lower, upper, l)
    requires MidpointOf(f, price, lower, upper, strict, Halvings(maxIterations), x)
    ensures Abs(Gap(f, price, x)) <= l * Half(upper - lower, Steps(maxIterations))
  {
    hide Lipschitz, Half, Abs, Gap;
    var k := Halvings(maxIterations);
    var low, high :|
      && lower <= low && high <= upper && Bracket(f, price, low, high, strict)
      && high - low == Half(upper - lower, k) && x == (low + high) / 2.0;
    var half := (high - low) / 2.0;
    var bound, last := l * half, Half(upper - lower, Steps(maxIterations));
    HalfStep(upper - lower, k);
    Midway(low, high, x, half);
    ChangesAtMost(f, price, lower, upper, l, x, low, half, bound);
    ChangesAtMost(f, price, lower, upper, l, x, high, half, bound);
    BetweenSigns(Gap(f, price, x), Gap(f, price, low), Gap(f, price, high), bound);
    WiderBound(l, half, last);
  }

  lemma Midway(low: real, high: real, x: real, half: real)
    requires low < high && x == (low + high) / 2.0 && half == (high - low) / 2.0
    ensures low < x < high && Abs(x - low) == half && Abs(x - high) == half
  {}

  lemma ChangesAtMost(
      f: real -> real, price: real, lower: real, upper: real, l: real, x: real, y: real, d: real, m: real)
    requires Lipschitz(f, lower, upper, l) && lower <= x <= upper && lower <= y <= upper
    requires Abs(x - y) == d && m == l * d
    ensures l >= 0.0 && Abs(Gap(f, price, x) - Gap(f, price, y)) <= m
  {}

  lemma BetweenSigns(x: real, a: real, b: real, m: real)
    requires (a > 0.0 && b <= 0.0) || (a < 0.0 && b >= 0.0)
    requires Abs(x - a) <= m && Abs(x - b) <= m
    ensures Abs(x) <= m
  {}

  lemma WiderBound(l: real, a: real, b: real)
    requires l >= 0.0 && a <= b
    ensures l * a <= l * b
  {}

  /** For a strictly increasing valuation the answer is that close to the assumption that
      prices the share exactly, whichever side of it the bounds began. */
  lemma ExhaustedDistance(
      f: real -> real, price: real, lower: real, upper: real, strict: bool, maxIterations: int, x: real, root: real)
    requires lower < upper && StrictlyIncreasing(f, lower, upper)
    requires MidpointOf(f, price, lower, upper, strict, Halvings(maxIterations), x)
    requires lower <= root <= upper && f(root) == price
    ensures Abs(x - root) <= Half(upper - lower, Steps(maxIterations))
  {}

  /** Halving `k` times divides by 2 to the `k`. */
  lemma {:induction false} HalfIsQuotient(w: real, k: nat)
    ensures Half(w, k) * Power(2.0, k) == w
  {
    if k > 0 {
      HalfIsQuotient(w, k - 1);
      var h, p := Half(w, k - 1), Power(2.0, k - 1);
      assert h / 2.0 * (2.0 * p) == h * p;
    }
  }
}
