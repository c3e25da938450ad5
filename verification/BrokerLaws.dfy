/** Conservation and reachability laws of the broker's bookkeeping. */
module BrokerLaws {
  import opened Names
  import opened Reals
  import opened Wrappers
  import opened Rounding
  import opened Broker
  import RiskGate
  import Sums

  // ------------------------------------------------------------- conservation

  /** What a fill costs against the mark: its fee and the price given away. */
  function Cost(f: Fill, mark: real): real {
    f.fee + Direction(f.side) * (f.price - mark) * f.quantity as real
  }

  function Costs(fills: seq<Fill>, marks: map<Name, real>): real {
    if fills == [] then 0.0
    else Costs(fills[..|fills| - 1], marks)
         + Cost(fills[|fills| - 1], Mark(marks, fills[|fills| - 1].ticker))
  }

  /** Σ (fee + slippage), the entry cost a receipt adds back. */
  function Charged(fills: seq<Fill>): real {
    if fills == [] then 0.0
    else Charged(fills[..|fills| - 1]) + (fills[|fills| - 1].fee + fills[|fills| - 1].slippage)
  }

  lemma {:induction false} HoldingsAfter(
      was: map<Name, int>, now: map<Name, int>, marks: map<Name, real>, t: Name, d: int)
    requires forall x | x != t :: Quantity(now, x) == Quantity(was, x)
    requires Quantity(now, t) == Quantity(was, t) + d
    ensures Sums.Total(now.Keys, Worth(now, marks))
            == Sums.Total(was.Keys, Worth(was, marks)) + d as real * Mark(marks, t)
  {
    hide Sums.Total, Worth, Mark;
    var all := was.Keys + now.Keys + {t};
    var f, g := Worth(was, marks), Worth(now, marks);
    forall x | x in all - was.Keys ensures f(x) == 0.0 { WorthNothing(was, marks, x); }
    forall x | x in all - now.Keys ensures g(x) == 0.0 { WorthNothing(now, marks, x); }
    forall x | x in all - {t} ensures f(x) == g(x) { SameWorth(was, now, marks, x); }
    Sums.TotalExtend(was.Keys, all, f);
    Sums.TotalExtend(now.Keys, all, g);
    Sums.TotalRemove(all, f, t);
    Sums.TotalRemove(all, g, t);
    Sums.TotalSame(all - {t}, f, g);
    MoreWorth(was, now, marks, t, d);
  }

  lemma WorthNothing(shares: map<Name, int>, marks: map<Name, real>, x: Name)
    requires x !in shares
    ensures Worth(shares, marks)(x) == 0.0
  {}

  lemma SameWorth(was: map<Name, int>, now: map<Name, int>, marks: map<Name, real>, x: Name)
    requires Quantity(now, x) == Quantity(was, x)
    ensures Worth(was, marks)(x) == Worth(now, marks)(x)
  {}

  lemma MoreWorth(was: map<Name, int>, now: map<Name, int>, marks: map<Name, real>, t: Name, d: int)
    requires Quantity(now, t) == Quantity(was, t) + d
    ensures Worth(now, marks)(t) == Worth(was, marks)(t) + d as real * Mark(marks, t)
  {}

  /** A fill moves value between cash and shares and loses exactly its cost, at any marks. */
  lemma SettleConserves(a: Account, f: Fill, marks: map<Name, real>)
    requires f.quantity > 0 && Quantity(a.shares, f.ticker) >= 0
    ensures RawEquity(Settle(a, f), marks)
            == RawEquity(a, marks) - Cost(f, Mark(marks, f.ticker))
  {
    hide Sums.Total, Settle, Cost, Notional, Worth, Mark;
    var d := if f.side.Buy? then f.quantity as int else 0 - f.quantity as int;
    SettleHolds(a, f, d);
    HoldingsAfter(a.shares, Settle(a, f).shares, marks, f.ticker, d);
    SettlePays(a, f);
    CostIs(f, Mark(marks, f.ticker), d);
  }

  lemma SettleHolds(a: Account, f: Fill, d: int)
    requires f.quantity > 0 && Quantity(a.shares, f.ticker) >= 0
    requires d == if f.side.Buy? then f.quantity as int else 0 - f.quantity as int
    ensures forall x | x != f.ticker :: Quantity(Settle(a, f).shares, x) == Quantity(a.shares, x)
    ensures Quantity(Settle(a, f).shares, f.ticker) == Quantity(a.shares, f.ticker) + d
  {
    hide AverageCost;
  }

  lemma SettlePays(a: Account, f: Fill)
    requires f.quantity > 0 && Quantity(a.shares, f.ticker) >= 0
    ensures Settle(a, f).cash == a.cash - (f.fee + (if f.side.Buy? then Notional(f) else -Notional(f)))
  {
    hide AverageCost;
  }

  lemma CostIs(f: Fill, m: real, d: int)
    requires d == if f.side.Buy? then f.quantity as int else 0 - f.quantity as int
    ensures Cost(f, m) == f.fee + (if f.side.Buy? then Notional(f) else -Notional(f)) - d as real * m
  {
    if f.side.Buy? {
      BuyCost(f.price, m, f.quantity as real);
    } else {
      SellCost(f.price, m, f.quantity as real, d as real);
    }
  }

  lemma BuyCost(price: real, m: real, q: real)
    ensures 1.0 * (price - m) * q == price * q - q * m
  {}

  lemma SellCost(price: real, m: real, q: real, n: real)
    requires n == -q
    ensures -1.0 * (price - m) * q == -(price * q) - n * m
  {}

  /** What a completed run of orders did, fill by fill. */
  lemma {:induction false} RunConserves(
      a: Account, fills: seq<Fill>, seen: set<Name>, orders: seq<Order>, p: Policy, marks: map<Name, real>)
    requires Sound(a)
    ensures RunOrders(a, fills, seen, orders, p).Ok? ==>
            var run := RunOrders(a, fills, seen, orders, p).value;
              && Sound(run.0)
              && RawEquity(run.0, marks) + Costs(run.1, marks) == RawEquity(a, marks) + Costs(fills, marks)
    decreases |orders|
  {
    hide RawEquity, Cost, Settle, FillOf, FillPrice;
    if orders != [] && orders[0].id !in seen && Refusal(a, orders[0], p).None? {
      var f := FillOf(orders[0], p);
      FillShape(orders[0], p);
      SettleSound(a, f);
      SettleConserves(a, f, marks);
      assert (fills + [f])[..|fills|] == fills;
      RunConserves(Settle(a, f), fills + [f], seen + {orders[0].id}, orders[1..], p, marks);
    }
  }

  lemma FillShape(o: Order, p: Policy)
    requires WholeShares(o)
    ensures FillOf(o, p).quantity > 0 && FillOf(o, p).quantity == o.quantity.Floor
    ensures FillOf(o, p).side == o.side && FillOf(o, p).ticker == o.ticker && FillOf(o, p).orderId == o.id
    ensures FillOf(o, p).price == FillPrice(o, p)
  {}

  /** Before rounding, equity falls by exactly the fills' costs; the commit rounds half a cent. */
  lemma BatchConserves(a: Account, orders: seq<Order>, p: Policy, marks: map<Name, real>)
    requires Sound(a)
    ensures Execute(a, orders, p).Ok? ==>
            var done := Execute(a, orders, p).value;
              Abs(RawEquity(done.0, marks) - (RawEquity(a, marks) - Costs(done.1, marks))) <= 0.005
  {
    hide Sums.Total, RunOrders;
    RunConserves(a, [], {}, orders, p, marks);
    if RunOrders(a, [], {}, orders, p).Ok? { CentsNear(RunOrders(a, [], {}, orders, p).value.0.cash); }
  }

  // ---------------------------------------------------- charged against true cost

  /** The slipped price is far enough on the costly side of the reference to be rounded there. */
  predicate Adverse(reference: real, side: Side, p: Policy) {
    var x := SlippedAt(reference, side, p) * 1000000.0;
    if side.Buy? then x >= Ceiling(reference * 1000000.0) as real - 0.5
    else x < (reference * 1000000.0).Floor as real + 0.5
  }

  predicate AtMark(o: Order, p: Policy, marks: map<Name, real>) {
    o.ticker in marks && o.reference == marks[o.ticker] && o.reference > 0.0 && Adverse(o.reference, o.side, p)
  }

  /** A fill never improves on its reference exactly when the order is adverse. */
  predicate FillsAdversely(o: Order, p: Policy) {
    if o.side.Buy? then FillPrice(o, p) >= o.reference else FillPrice(o, p) <= o.reference
  }

  lemma FillSide(o: Order, p: Policy)
    requires o.reference > 0.0
    ensures FillsAdversely(o, p) <==> Adverse(o.reference, o.side, p)
  {
    hide Micros, Ceiling;
    MicrosSide(SlippedPrice(o, p), o.reference);
  }

  /** Every reference on the price grid is adverse, on either side. */
  lemma GridIsAdverse(reference: real, side: Side, p: Policy)
    requires reference > 0.0 && OnMicros(reference) && p.slippageBps > 0.0
    ensures Adverse(reference, side, p)
  {
    hide OnMicros, Ceiling;
    SlippedSide(reference, side, p);
    OnGridSides(SlippedAt(reference, side, p), reference);
  }

  lemma SlippedSide(reference: real, side: Side, p: Policy)
    requires reference > 0.0 && p.slippageBps > 0.0
    ensures side.Buy? ==> SlippedAt(reference, side, p) >= reference
    ensures side.Sell? ==> SlippedAt(reference, side, p) <= reference
  {}

  /** A fill costs its fee and the price given away, in absolute terms, exactly when the order is
      adverse; what is charged is then within half a cent. */
  lemma FillCharges(o: Order, p: Policy, mark: real)
    requires WholeShares(o) && o.reference > 0.0 && mark == o.reference
    ensures var f := FillOf(o, p);
            && (Cost(f, mark) == f.fee + GivenAway(f.price, mark, f.quantity) <==> Adverse(o.reference, o.side, p))
            && (Adverse(o.reference, o.side, p) ==> Abs(Cost(f, mark) - (f.fee + f.slippage)) <= 0.005)
  {
    hide FillPrice, Cents, GivenAway, Adverse, Abs;
    var f := FillOf(o, p);
    FillSide(o, p);
    FillParts(o, p);
    SignedGiven(f.price, mark, f.quantity, f.side);
    GivenCents(f.price, mark, f.quantity);
  }

  lemma FillParts(o: Order, p: Policy)
    requires WholeShares(o)
    ensures var f := FillOf(o, p);
            && f.price == FillPrice(o, p) && f.side == o.side && f.quantity > 0
            && f.quantity == o.quantity.Floor && f.fee == FeeOf(f.price, f.quantity, p)
            && f.slippage == Cents(GivenAway(f.price, o.reference, f.quantity))
  {}

  lemma GivenCents(price: real, m: real, q: nat)
    ensures Abs(GivenAway(price, m, q) - Cents(GivenAway(price, m, q))) <= 0.005
  {
    hide GivenAway;
    CentsNear(GivenAway(price, m, q));
  }

  /** The signed price difference is the amount given away exactly on the costly side. */
  lemma SignedGiven(price: real, m: real, q: nat, side: Side)
    requires q > 0
    ensures Direction(side) * (price - m) * q as real == GivenAway(price, m, q) <==>
              (if side.Buy? then price >= m else price <= m)
  {
    var g, n := price - m, q as real;
    SignedTimes(g, n, g * n, -g * n);
  }

  lemma SignedTimes(g: real, n: real, x: real, y: real)
    requires n > 0.0 && x == g * n && y == -g * n
    ensures y == -x && (x >= 0.0 <==> g >= 0.0) && (x <= 0.0 <==> g <= 0.0)
  {}

  lemma ChargedAtMark(o: Order, p: Policy, marks: map<Name, real>)
    requires WholeShares(o) && AtMark(o, p, marks)
    ensures var f := FillOf(o, p); Abs(Cost(f, Mark(marks, o.ticker)) - (f.fee + f.slippage)) <= 0.005
  {
    hide FillOf, Cost, Adverse;
    FillCharges(o, p, marks[o.ticker]);
  }

  lemma {:induction false} RunCharges(
      a: Account, fills: seq<Fill>, seen: set<Name>, orders: seq<Order>, p: Policy, marks: map<Name, real>)
    requires Sound(a)
    requires forall o | o in orders :: AtMark(o, p, marks)
    ensures RunOrders(a, fills, seen, orders, p).Ok? ==>
            var run := RunOrders(a, fills, seen, orders, p).value;
              && |run.1| == |fills| + |orders|
              && Abs((Costs(run.1, marks) - Charged(run.1)) - (Costs(fills, marks) - Charged(fills)))
                 <= |orders| as real * 0.005
    decreases |orders|
  {
    hide RawEquity, Cost, Settle, FillOf, FillPrice, AtMark, Adverse, GivenAway;
    if orders != [] && orders[0].id !in seen && Refusal(a, orders[0], p).None? {
      var f := FillOf(orders[0], p);
      FillShape(orders[0], p);
      SettleSound(a, f);
      ChargedAtMark(orders[0], p, marks);
      assert (fills + [f])[..|fills|] == fills;
      assert forall o | o in orders[1..] :: o in orders;
      RunCharges(Settle(a, f), fills + [f], seen + {orders[0].id}, orders[1..], p, marks);
    }
  }

  /** The receipt's capital base: post-trade NAV with the charged costs restored is within
      half a cent per fill, plus three, of the equity before the batch. */
  lemma RestoredNavNearEquity(a: Account, orders: seq<Order>, p: Policy, marks: map<Name, real>)
    requires Sound(a)
    requires forall o | o in orders :: AtMark(o, p, marks)
    ensures Execute(a, orders, p).Ok? ==>
            var done := Execute(a, orders, p).value;
              && |done.1| == |orders|
              && Abs(CentsEven(RawEquity(done.0, marks)) + Charged(done.1) - CentsEven(RawEquity(a, marks)))
                 <= 0.005 * (|orders| + 3) as real
  {
    hide RawEquity, RunOrders, CentsEven, Cents, AtMark;
    BatchConserves(a, orders, p, marks);
    RunCharges(a, [], {}, orders, p, marks);
    CentsEvenNear(RawEquity(a, marks));
    if Execute(a, orders, p).Ok? { CentsEvenNear(RawEquity(Execute(a, orders, p).value.0, marks)); }
  }

  /** Off the grid the absolute form fails: a price of 0.0000014 slips up by a tenth of a
      basis point and still rounds down to 0.000001, below its mark. */
  lemma OffGridFillImproves()
    ensures var p := RiskGate.SHARP_POLICY.(slippageBps := 0.1);
            var o := Order("id", "T", Buy, 1.0, 0.0000014);
            ValidOrder(o) && WholeShares(o) && FillPrice(o, p) < o.reference
            && Cost(FillOf(o, p), o.reference) < FillOf(o, p).fee
  {}

  // ------------------------------------------------- what a fill and a weight are

  /** A part of an amount, in basis points. */
  function BpsOf(x: real, bps: real): real { x * bps / 10000.0 }

  /** Slippage moves the price by its rate on the reference, up for buys and down for sells, to
      the nearest grid price; the fee is its rate on what is traded, to the nearest cent. */
  lemma FillTerms(o: Order, p: Policy)
    requires WholeShares(o)
    ensures var f := FillOf(o, p);
            && f.ticker == o.ticker && f.side == o.side && f.quantity as real == o.quantity
            && Abs(f.price - (if o.side.Buy? then o.reference + BpsOf(o.reference, p.slippageBps)
                              else o.reference - BpsOf(o.reference, p.slippageBps))) <= 0.0000005
            && Abs(f.fee - BpsOf(Notional(f), p.commissionBps)) <= 0.005
  {
    hide Abs, FillPrice, FeeOf, BpsOf;
    FillParts(o, p);
    PriceTerm(o, p);
    FeeTerm(FillOf(o, p), p);
  }

  lemma PriceTerm(o: Order, p: Policy)
    ensures Abs(FillPrice(o, p) - (if o.side.Buy? then o.reference + BpsOf(o.reference, p.slippageBps)
                                   else o.reference - BpsOf(o.reference, p.slippageBps))) <= 0.0000005
  {
    hide Micros;
    MicrosNear(SlippedPrice(o, p));
    SlippedBy(o.reference, p.slippageBps, p.slippageBps / 10000.0);
  }

  lemma FeeTerm(f: Fill, p: Policy)
    ensures Abs(FeeOf(f.price, f.quantity, p) - BpsOf(Notional(f), p.commissionBps)) <= 0.005
  {
    hide Cents;
    CentsNear(Commission(f.price, f.quantity, p));
    RatePart(f.price * f.quantity as real, p.commissionBps);
  }

  lemma SlippedBy(reference: real, bps: real, rate: real)
    requires rate == bps / 10000.0
    ensures reference * (1.0 + 1.0 * rate) == reference + BpsOf(reference, bps)
    ensures reference * (1.0 + -1.0 * rate) == reference - BpsOf(reference, bps)
  {}

  lemma RatePart(notional: real, bps: real)
    ensures notional * (bps / 10000.0) == BpsOf(notional, bps)
  {}

  /** Weights times equity are the holdings' worth, and add up to equity less cash but for the
      half cent equity is rounded by. */
  lemma WeightsAddUp(a: Account, marks: map<Name, real>)
    requires WeightsOf(a, marks).Ok?
    ensures var w, equity := WeightsOf(a, marks).value, Equity(a, marks).value;
            && w.Keys == a.shares.Keys
            && (forall t | t in w :: w[t] * equity == Quantity(a.shares, t) as real * Mark(marks, t))
            && equity * Sums.Total(w.Keys, RiskGate.Signed(w)) == RawEquity(a, marks) - a.cash
            && Abs(equity * RiskGate.Net(w) - (equity - a.cash)) <= 0.005
  {
    hide Sums.Total, CentsEven;
    var w, equity := WeightsOf(a, marks).value, Equity(a, marks).value;
    forall t | t in w ensures w[t] * equity == Worth(a.shares, marks)(t) {
      QuotientTimes(Worth(a.shares, marks)(t), equity, w[t]);
    }
    forall t | t in w ensures Worth(a.shares, marks)(t) == equity * RiskGate.Signed(w)(t) {}
    Sums.TotalScale(w.Keys, RiskGate.Signed(w), equity, Worth(a.shares, marks));
    CentsEvenNear(RawEquity(a, marks));
  }

  lemma QuotientTimes(x: real, e: real, q: real)
    requires e > 0.0 && q == x / e
    ensures q * e == x
  {}

  // ------------------------------------------------------------ every session

  /** Shares a log of fills leaves in a ticker, counted from an empty account. */
  function Position(log: seq<Fill>, t: Name): int {
    if log == [] then 0
    else
      var f := log[|log| - 1];
      Position(log[..|log| - 1], t)
      + (if f.ticker != t then 0 else if f.side.Buy? then f.quantity else -(f.quantity as int))
  }

  /** Prices of the buy fills since the ticker's position last stood at zero. */
  function OpenBuys(log: seq<Fill>, t: Name): seq<real> {
    if log == [] then []
    else
      var f, rest := log[|log| - 1], OpenBuys(log[..|log| - 1], t);
      if f.ticker != t then rest
      else if f.side.Buy? then rest + [f.price]
      else if Position(log, t) == 0 then []
      else rest
  }

  function Notional(f: Fill): real { f.price * f.quantity as real }

  /** What was paid for the shares a log leaves in a ticker, sold shares leaving in proportion. */
  function Basis(log: seq<Fill>, t: Name): real {
    if log == [] then 0.0
    else
      var f, before := log[|log| - 1], log[..|log| - 1];
      if f.ticker != t then Basis(before, t)
      else if f.side.Buy? then Basis(before, t) + Notional(f)
      else if Position(log, t) == 0 || Position(before, t) == 0 then 0.0
      else Basis(before, t) * (Position(log, t) as real / Position(before, t) as real)
  }

  /** Average cost times shares. */
  function Invested(a: Account, t: Name): real {
    if t in a.costs then a.costs[t] * Quantity(a.shares, t) as real else 0.0
  }

  ghost predicate Between(x: real, prices: seq<real>) {
    exists i, j :: 0 <= i < |prices| && 0 <= j < |prices| && prices[i] <= x <= prices[j]
  }

  /** The account is what the log says: positions add up, average cost times shares is what was
      paid for them, and each average cost lies between the lowest and the highest price paid
      since the position opened. */
  ghost predicate Explained(a: Account, log: seq<Fill>) {
    && Sound(a)
    && (forall t :: Quantity(a.shares, t) == Position(log, t))
    && (forall t :: Invested(a, t) == Basis(log, t))
    && (forall t | t in a.costs :: Between(a.costs[t], OpenBuys(log, t)))
    && (forall t | t !in a.costs :: OpenBuys(log, t) == [])
  }

  lemma AverageBetween(held: int, cost: real, q: nat, price: real)
    requires held >= 0 && q > 0
    ensures held == 0 ==> AverageCost(held, cost, q, price) == price
    ensures cost <= price ==> held > 0 ==> cost <= AverageCost(held, cost, q, price) <= price
    ensures price <= cost ==> held > 0 ==> price <= AverageCost(held, cost, q, price) <= cost
  {
    var h, r, n := held as real, q as real, (held + q) as real;
    var v := AverageCost(held, cost, q, price);
    MeanBounds(h, cost, r, price, n, v);
  }

  lemma MeanBounds(h: real, cost: real, r: real, price: real, n: real, v: real)
    requires h >= 0.0 && r > 0.0 && n == h + r && v == (cost * h + price * r) / n
    ensures h == 0.0 ==> v == price
    ensures cost <= price ==> h > 0.0 ==> cost <= v <= price
    ensures price <= cost ==> h > 0.0 ==> price <= v <= cost
  {
    assert v * n == cost * h + price * r;
    MeanSolved(h, cost, r, price, n, v);
  }

  lemma MeanSolved(h: real, cost: real, r: real, price: real, n: real, v: real)
    requires h >= 0.0 && r > 0.0 && n == h + r && v * n == cost * h + price * r
    ensures h == 0.0 ==> v == price
    ensures cost <= price ==> h > 0.0 ==> cost <= v <= price
    ensures price <= cost ==> h > 0.0 ==> price <= v <= cost
  {
    var up, down := price - v, v - cost;
    assert v * n == v * h + v * r;
    Lever(up, r, down, h, v, price, cost);
  }

  /** (price - v)·r balances (v - cost)·h, so v lies on the segment. */
  lemma Lever(up: real, r: real, down: real, h: real, v: real, price: real, cost: real)
    requires h >= 0.0 && r > 0.0 && up == price - v && down == v - cost
    requires v * h + v * r == cost * h + price * r
    ensures up * r == down * h
    ensures h == 0.0 ==> up == 0.0
    ensures h > 0.0 ==> (up >= 0.0 <==> down >= 0.0) && (up <= 0.0 <==> down <= 0.0)
  {}

  lemma OtherTickersKept(log: seq<Fill>, f: Fill, t: Name)
    requires t != f.ticker
    ensures Position(log + [f], t) == Position(log, t)
    ensures Basis(log + [f], t) == Basis(log, t)
    ensures OpenBuys(log + [f], t) == OpenBuys(log, t)
  {}

  lemma FillLogged(log: seq<Fill>, f: Fill)
    ensures var t, all := f.ticker, log + [f];
            && Position(all, t) == Position(log, t) + (if f.side.Buy? then f.quantity else 0 - f.quantity as int)
            && OpenBuys(all, t) == (if f.side.Buy? then OpenBuys(log, t) + [f.price]
                                    else if Position(all, t) == 0 then [] else OpenBuys(log, t))
  {}

  lemma BasisLogged(log: seq<Fill>, f: Fill)
    ensures var t, all := f.ticker, log + [f];
            Basis(all, t) == (if f.side.Buy? then Basis(log, t) + Notional(f)
                              else if Position(all, t) == 0 || Position(log, t) == 0 then 0.0
                              else Basis(log, t) * (Position(all, t) as real / Position(log, t) as real))
  {
    assert (log + [f])[..|log + [f]| - 1] == log;
  }

  /** Cost basis across one fill: a buy adds exactly what it pays, a partial sale leaves the
      average alone, a full one removes it, and no other ticker is touched. */
  lemma SettleBasis(a: Account, f: Fill)
    requires Sound(a) && f.quantity > 0
    requires f.side.Sell? ==> f.quantity <= Quantity(a.shares, f.ticker)
    ensures var b, t := Settle(a, f), f.ticker;
            && (f.side.Buy? ==> Invested(b, t) == Invested(a, t) + f.price * f.quantity as real)
            && (f.side.Sell? ==>
                  if f.quantity < Quantity(a.shares, t) then t in a.costs && t in b.costs && b.costs[t] == a.costs[t]
                  else t !in b.costs && Quantity(b.shares, t) == 0)
            && (forall x | x != t ::
                  && Quantity(b.shares, x) == Quantity(a.shares, x)
                  && (x in b.costs <==> x in a.costs) && (x in a.costs ==> b.costs[x] == a.costs[x]))
  {
    if f.side.Buy? { BoughtBasis(a, f); }
  }

  lemma BoughtBasis(a: Account, f: Fill)
    requires Sound(a) && f.quantity > 0 && f.side.Buy?
    ensures Invested(Settle(a, f), f.ticker) == Invested(a, f.ticker) + f.price * f.quantity as real
  {
    var t := f.ticker;
    var held := Quantity(a.shares, t);
    var cost := if t in a.costs then a.costs[t] else 0.0;
    AverageTimes(held, cost, f.quantity, f.price);
  }

  lemma AverageTimes(held: int, cost: real, q: nat, price: real)
    requires held >= 0 && q > 0
    ensures AverageCost(held, cost, q, price) * (held + q) as real == cost * held as real + price * q as real
  {}

  /** A partial sale takes the basis down with the shares. */
  lemma SoldBasis(cost: real, held: real, left: real, basis: real, q: real)
    requires held > 0.0 && basis == cost * held && q == left / held
    ensures basis * q == cost * left
  {
    assert q * held == left;
    assert (cost * held) * q == cost * (q * held);
  }

  lemma SettleInvested(a: Account, f: Fill, log: seq<Fill>, x: Name)
    requires Explained(a, log) && f.quantity > 0
    requires f.side.Sell? ==> f.quantity <= Quantity(a.shares, f.ticker)
    ensures Invested(Settle(a, f), x) == Basis(log + [f], x)
  {
    hide Between, OpenBuys, Position, Basis, AverageCost, Settle;
    var t, b := f.ticker, Settle(a, f);
    SettleBasis(a, f);
    if x != t {
      OtherTickersKept(log, f, x);
    } else {
      FillLogged(log, f);
      BasisLogged(log, f);
      assert Invested(a, t) == Basis(log, t);
      if f.side.Sell? && f.quantity < Quantity(a.shares, t) {
        PartlySold(a, f);
        SoldBasis(a.costs[t], Position(log, t) as real, Position(log + [f], t) as real, Basis(log, t),
                  Position(log + [f], t) as real / Position(log, t) as real);
      }
    }
  }

  lemma PartlySold(a: Account, f: Fill)
    requires Sound(a) && f.side.Sell? && 0 < f.quantity < Quantity(a.shares, f.ticker)
    ensures Quantity(Settle(a, f).shares, f.ticker) == Quantity(a.shares, f.ticker) - f.quantity
  {}

  /** Nothing has been sold since the ticker's position last stood at zero. */
  predicate OnlyBought(log: seq<Fill>, t: Name) {
    log == []
    || var f, before := log[|log| - 1], log[..|log| - 1];
       if f.ticker == t && f.side.Sell? then Position(log, t) == 0 else OnlyBought(before, t)
  }

  /** Σ price × quantity of the buys since then. */
  function Paid(log: seq<Fill>, t: Name): real {
    if log == [] then 0.0
    else
      var f, before := log[|log| - 1], log[..|log| - 1];
      if f.ticker != t then Paid(before, t)
      else if f.side.Buy? then Paid(before, t) + f.price * f.quantity as real
      else if Position(log, t) == 0 then 0.0
      else Paid(before, t)
  }

  lemma {:induction false} BasisOfBuys(log: seq<Fill>, t: Name)
    requires OnlyBought(log, t)
    ensures Basis(log, t) == Paid(log, t)
  {
    hide Position;
    if log != [] && !(log[|log| - 1].ticker == t && log[|log| - 1].side.Sell?) {
      BasisOfBuys(log[..|log| - 1], t);
    }
  }

  /** While a position has only been bought, its average cost times its shares is what was paid. */
  lemma AverageIsWhatWasPaid(a: Account, log: seq<Fill>, t: Name)
    requires Reconciled(a, log) && t in a.costs && OnlyBought(log, t)
    ensures a.costs[t] * Position(log, t) as real == Paid(log, t)
  {
    hide Between, OpenBuys, Position, Basis, Paid, OnlyBought;
    BasisOfBuys(log, t);
    assert Invested(a, t) == Basis(log, t);
    assert Quantity(a.shares, t) == Position(log, t);
  }

  lemma BetweenExtended(cost: real, prices: seq<real>, price: real, v: real)
    requires Between(cost, prices)
    requires cost <= v <= price || price <= v <= cost
    ensures Between(v, prices + [price])
  {
    var i, j :| 0 <= i < |prices| && 0 <= j < |prices| && prices[i] <= cost <= prices[j];
    var all := prices + [price];
    assert all[i] == prices[i] && all[j] == prices[j] && all[|prices|] == price;
  }

  lemma SettleCost(a: Account, f: Fill, log: seq<Fill>)
    requires Explained(a, log) && f.side.Buy? && f.quantity > 0
    ensures Between(Settle(a, f).costs[f.ticker], OpenBuys(log + [f], f.ticker))
  {
    hide AverageCost, Between, Invested, Basis;
    var t := f.ticker;
    var held := Quantity(a.shares, t);
    var cost := if t in a.costs then a.costs[t] else 0.0;
    var v := AverageCost(held, cost, f.quantity, f.price);
    FillLogged(log, f);
    AverageBetween(held, cost, f.quantity, f.price);
    if held == 0 {
      SinglePrice(f.price);
      assert OpenBuys(log, t) == [] && [] + [f.price] == [f.price];
    } else {
      BetweenExtended(cost, OpenBuys(log, t), f.price, v);
    }
  }

  lemma SinglePrice(p: real)
    ensures Between(p, [p])
  {
    assert [p][0] <= p <= [p][0];
  }

  lemma SettleExplained(a: Account, f: Fill, log: seq<Fill>)
    requires Explained(a, log) && f.quantity > 0
    requires f.side.Sell? ==> f.quantity <= Quantity(a.shares, f.ticker)
    ensures Explained(Settle(a, f), log + [f])
  {
    hide AverageCost, Between, Invested, Basis;
    var b, all, t := Settle(a, f), log + [f], f.ticker;
    SettleSound(a, f);
    FillLogged(log, f);
    if f.side.Buy? { SettleCost(a, f, log); }
    forall x ensures Quantity(b.shares, x) == Position(all, x) {
      if x != t { OtherTickersKept(log, f, x); }
    }
    forall x ensures Invested(b, x) == Basis(all, x) { SettleInvested(a, f, log, x); }
    forall x | x in b.costs ensures Between(b.costs[x], OpenBuys(all, x)) {
      if x != t { OtherTickersKept(log, f, x); }
    }
    forall x | x !in b.costs ensures OpenBuys(all, x) == [] {
      if x != t { OtherTickersKept(log, f, x); }
    }
  }

  lemma {:induction false} RunExplained(
      a: Account, fills: seq<Fill>, seen: set<Name>, orders: seq<Order>, p: Policy, log: seq<Fill>)
    requires Explained(a, log + fills)
    ensures RunOrders(a, fills, seen, orders, p).Ok? ==>
            var run := RunOrders(a, fills, seen, orders, p).value;
            Explained(run.0, log + run.1)
    decreases |orders|
  {
    hide Settle, FillOf, FillPrice, Position, OpenBuys, Between, Invested, Basis;
    if orders != [] && orders[0].id !in seen && Refusal(a, orders[0], p).None? {
      var f := FillOf(orders[0], p);
      FillShape(orders[0], p);
      SettleExplained(a, f, log + fills);
      assert log + fills + [f] == log + (fills + [f]);
      SettleSound(a, f);
      RunExplained(Settle(a, f), fills + [f], seen + {orders[0].id}, orders[1..], p, log);
    }
  }

  datatype Batch = Batch(orders: seq<Order>, policy: Policy)

  /** Every batch in turn; a refused one changes nothing. */
  function Session(a: Account, log: seq<Fill>, batches: seq<Batch>): (Account, seq<Fill>)
    requires Sound(a)
    decreases |batches|
  {
    if batches == [] then (a, log)
    else
      var r := Execute(a, batches[0].orders, batches[0].policy);
      ExecuteSound(a, batches[0].orders, batches[0].policy);
      if r.Err? then Session(a, log, batches[1..])
      else Session(r.value.0, log + r.value.1, batches[1..])
  }

  lemma ExecuteSound(a: Account, orders: seq<Order>, p: Policy)
    requires Sound(a)
    ensures Execute(a, orders, p).Ok? ==> Sound(Execute(a, orders, p).value.0)
  {
    hide RunOrders;
    RunConserves(a, [], {}, orders, p, map[]);
  }

  ghost predicate Reconciled(a: Account, log: seq<Fill>) {
    Explained(a, log) && a.cash >= 0.0 && OnCents(a.cash)
  }

  lemma ExecuteReconciled(a: Account, log: seq<Fill>, orders: seq<Order>, p: Policy)
    requires Reconciled(a, log)
    ensures Execute(a, orders, p).Ok? ==>
            var done := Execute(a, orders, p).value;
            Reconciled(done.0, log + done.1)
  {
    hide RunOrders, Position, OpenBuys, Between, Cents, OnCents, Basis;
    assert log + [] == log;
    RunExplained(a, [], {}, orders, p, log);
    if Execute(a, orders, p).Ok? { CentsNear(RunOrders(a, [], {}, orders, p).value.0.cash); }
  }

  /** Over every session from an opening account: cash is never negative and always in whole
      cents, holdings are positive and are what the fills add up to, every holding has a cost,
      that cost times the shares is what was paid for them, and it lies within the prices paid
      since the position opened. */
  lemma {:induction false} EverySession(a: Account, log: seq<Fill>, batches: seq<Batch>)
    requires Reconciled(a, log)
    ensures var end := Session(a, log, batches); Reconciled(end.0, end.1)
    decreases |batches|
  {
    hide Reconciled, Execute;
    assert Sound(a) by { ReconciledSound(a, log); }
    if batches != [] {
      var r := Execute(a, batches[0].orders, batches[0].policy);
      ExecuteSound(a, batches[0].orders, batches[0].policy);
      ExecuteReconciled(a, log, batches[0].orders, batches[0].policy);
      if r.Err? {
        EverySession(a, log, batches[1..]);
      } else {
        EverySession(r.value.0, log + r.value.1, batches[1..]);
      }
    }
  }

  lemma ReconciledSound(a: Account, log: seq<Fill>)
    requires Reconciled(a, log)
    ensures Sound(a)
  {}

  lemma OpeningReconciled(cash: real)
    requires cash >= 0.0 && OnCents(cash)
    ensures Reconciled(Account(cash, map[], map[]), [])
  {}

  lemma {:induction false} CostsConcat(a: seq<Fill>, b: seq<Fill>, marks: map<Name, real>)
    ensures Costs(a + b, marks) == Costs(a, marks) + Costs(b, marks)
  {
    hide Cost, Mark;
    if b == [] {
      assert a + b == a;
    } else {
      var n := |b| - 1;
      assert (a + b)[..|a + b| - 1] == a + b[..n];
      CostsConcat(a, b[..n], marks);
    }
  }

  /** Profit and loss, at any marks: equity is what the session began with less every fill's
      cost against those marks, up to half a cent for each batch that committed. */
  lemma {:induction false} SessionProfitAndLoss(
      a: Account, log: seq<Fill>, batches: seq<Batch>, marks: map<Name, real>)
    requires Sound(a)
    ensures var end := Session(a, log, batches);
            Abs((RawEquity(end.0, marks) + Costs(end.1, marks)) - (RawEquity(a, marks) + Costs(log, marks)))
            <= |batches| as real * 0.005
    decreases |batches|
  {
    hide Execute, RawEquity, Costs;
    if batches != [] {
      var b := batches[0];
      var r := Execute(a, b.orders, b.policy);
      ExecuteSound(a, b.orders, b.policy);
      BatchConserves(a, b.orders, b.policy, marks);
      if r.Err? {
        SessionProfitAndLoss(a, log, batches[1..], marks);
      } else {
        CostsConcat(log, r.value.1, marks);
        SessionProfitAndLoss(r.value.0, log + r.value.1, batches[1..], marks);
      }
    }
  }
}
