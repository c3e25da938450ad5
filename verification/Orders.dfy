/** Whole-share orders that move holdings to target weights, sells before buys, and what a
    batch of them does when the broker runs it. */
module Orders {
  import opened Names
  import opened Reals
  import opened Wrappers
  import opened Rounding
  import opened Broker
  import opened BrokerLaws
  import RiskGate
  import Sums

  datatype OrderError = MissingOrderMark

  /** Digest of an order's content; two tickers never share one. */
  type OrderId = (Name, Side, nat, real) -> Name

  ghost predicate IdsTellTickersApart(id: OrderId) {
    forall t, u, s, s', q, q', m, m' :: id(t, s, q, m) == id(u, s', q', m') ==> t == u
  }

  /** What order construction is given: weights, holdings, marks and equity. */
  datatype Rebalance = Rebalance(
    weights: map<Name, real>, held: map<Name, int>, marks: map<Name, real>, equity: real)

  function Tickers(b: Rebalance): set<Name> { b.weights.Keys + b.held.Keys }

  ghost predicate Priced(b: Rebalance) {
    Tickers(b) <= b.marks.Keys && forall t | t in b.marks :: b.marks[t] > 0.0
  }

  /** ROUND_DOWN: toward zero. */
  function Truncate(x: real): int { if x >= 0.0 then x.Floor else -(-x).Floor }

  function TargetValue(b: Rebalance, t: Name): real { RiskGate.At(b.weights, t) * b.equity }

  function SharesAt(value: real, mark: real): int
    requires mark > 0.0
  {
    Truncate(value / mark)
  }

  function Target(b: Rebalance, t: Name): int
    requires t in b.marks && b.marks[t] > 0.0
  {
    SharesAt(TargetValue(b, t), b.marks[t])
  }

  function Delta(b: Rebalance, t: Name): int
    requires t in b.marks && b.marks[t] > 0.0
  {
    Target(b, t) - Quantity(b.held, t)
  }

  /** The target is the largest whole position the value pays for, short positions likewise. */
  lemma TargetIsLargest(b: Rebalance, t: Name)
    requires t in b.marks && b.marks[t] > 0.0
    ensures var n, m, value := Target(b, t), b.marks[t], TargetValue(b, t);
            && (value >= 0.0 ==> n >= 0 && n as real * m <= value < (n + 1) as real * m)
            && (value <= 0.0 ==> n <= 0 && (n - 1) as real * m < value <= n as real * m)
  {
    var m, value := b.marks[t], TargetValue(b, t);
    var q, n := value / m, Truncate(value / m);
    Portion(value, m, q);
    if value >= 0.0 { WithinSteps(n as real, q, (n + 1) as real, m, value); }
    if value <= 0.0 { WithinSteps(-(n as real), -q, -((n - 1) as real), m, -value); }
  }

  lemma Portion(x: real, m: real, q: real)
    requires m > 0.0 && q == x / m
    ensures q * m == x && (x >= 0.0 <==> q >= 0.0) && (x <= 0.0 <==> q <= 0.0)
  {}

  lemma WithinSteps(low: real, q: real, high: real, m: real, x: real)
    requires m > 0.0 && q * m == x && low <= q < high
    ensures low * m <= x < high * m
  {}

  function Size(d: int): nat { if d < 0 then -d else d }

  function OrderFor(b: Rebalance, id: OrderId, t: Name): Order
    requires t in b.marks && b.marks[t] > 0.0
  {
    var d := Delta(b, t);
    var side := if d > 0 then Buy else Sell;
    Order(id(t, side, Size(d), b.marks[t]), t, side, Size(d) as real, b.marks[t])
  }

  /** The side a delta trades on. */
  predicate Trades(b: Rebalance, side: Side, t: Name)
    requires t in b.marks && b.marks[t] > 0.0
  {
    if side.Buy? then Delta(b, t) > 0 else Delta(b, t) < 0
  }

  /** Orders of one side on some tickers, in ascending order of ticker. */
  function OrdersOn(b: Rebalance, id: OrderId, side: Side, s: set<Name>): seq<Order>
    requires Priced(b) && s <= b.marks.Keys
  {
    if s == {} then [] else
      var t := Least(s);
      (if Trades(b, side, t) then [OrderFor(b, id, t)] else []) + OrdersOn(b, id, side, s - {t})
  }

  function AllOrders(b: Rebalance, id: OrderId): seq<Order>
    requires Priced(b)
  {
    OrdersOn(b, id, Sell, Tickers(b)) + OrdersOn(b, id, Buy, Tickers(b))
  }

  lemma OrdersOnStep(b: Rebalance, id: OrderId, side: Side, s: set<Name>)
    requires Priced(b) && s <= b.marks.Keys && s != {}
    ensures var t := Least(s);
            OrdersOn(b, id, side, s)
            == (if Trades(b, side, t) then [OrderFor(b, id, t)] else []) + OrdersOn(b, id, side, s - {t})
  {}

  method BuildOrders(b: Rebalance, id: OrderId) returns (r: Result<seq<Order>, OrderError>)
    requires forall t | t in b.marks :: b.marks[t] > 0.0
    ensures r.Err? <==> !(Tickers(b) <= b.marks.Keys)
    ensures r.Ok? ==> r.value == AllOrders(b, id)
  {
    hide Delta, OrderFor, OrdersOn;
    var sells: seq<Order>, buys: seq<Order> := [], [];
    var todo := Tickers(b);
    while todo != {}
      invariant todo <= Tickers(b) && Tickers(b) - todo <= b.marks.Keys
      invariant Priced(b) ==>
        sells + OrdersOn(b, id, Sell, todo) == OrdersOn(b, id, Sell, Tickers(b))
        && buys + OrdersOn(b, id, Buy, todo) == OrdersOn(b, id, Buy, Tickers(b))
    {
      var t := Least(todo);
      if t !in b.marks { return Err(MissingOrderMark); }
      ghost var restSells, restBuys :=
        if Priced(b) then OrdersOn(b, id, Sell, todo - {t}) else [],
        if Priced(b) then OrdersOn(b, id, Buy, todo - {t}) else [];
      if Priced(b) {
        OrdersOnStep(b, id, Sell, todo);
        OrdersOnStep(b, id, Buy, todo);
        assert sells + ([OrderFor(b, id, t)] + restSells) == sells + [OrderFor(b, id, t)] + restSells;
        assert buys + ([OrderFor(b, id, t)] + restBuys) == buys + [OrderFor(b, id, t)] + restBuys;
        assert [] + restSells == restSells && [] + restBuys == restBuys;
      }
      todo := todo - {t};
      var delta := Delta(b, t);
      if delta > 0 {
        buys := buys + [OrderFor(b, id, t)];
      } else if delta < 0 {
        sells := sells + [OrderFor(b, id, t)];
      }
    }
    assert Priced(b);
    assert OrdersOn(b, id, Sell, {}) == [] && OrdersOn(b, id, Buy, {}) == [] by {
      NoDeltasNoOrders(b, id, Sell, {});
      NoDeltasNoOrders(b, id, Buy, {});
    }
    assert sells + [] == sells && buys + [] == buys;
    r := Ok(sells + buys);
  }

  // ------------------------------------------------------ what a batch achieves

  /** Shares a list of orders adds to a ticker. */
  function Signed(orders: seq<Order>, t: Name): int {
    if orders == [] then 0
    else
      var o := orders[0];
      (if o.ticker != t then 0 else if o.side.Buy? then o.quantity.Floor else -o.quantity.Floor)
      + Signed(orders[1..], t)
  }

  lemma {:induction false} SignedConcat(a: seq<Order>, b: seq<Order>, t: Name)
    ensures Signed(a + b, t) == Signed(a, t) + Signed(b, t)
  {
    if a == [] {
      assert a + b == b;
    } else {
      assert (a + b)[1..] == a[1..] + b;
      SignedConcat(a[1..], b, t);
    }
  }

  lemma SettleShares(a: Account, f: Fill, t: Name)
    requires Sound(a) && f.quantity > 0
    requires f.side.Sell? ==> f.quantity <= Quantity(a.shares, f.ticker)
    ensures Quantity(Settle(a, f).shares, t) == Quantity(a.shares, t)
      + (if f.ticker != t then 0 else if f.side.Buy? then f.quantity else 0 - f.quantity as int)
  {}

  lemma {:induction false} RunShares(
      a: Account, fills: seq<Fill>, seen: set<Name>, orders: seq<Order>, p: Policy, t: Name)
    requires Sound(a)
    ensures RunOrders(a, fills, seen, orders, p).Ok? ==>
            Quantity(RunOrders(a, fills, seen, orders, p).value.0.shares, t)
            == Quantity(a.shares, t) + Signed(orders, t)
    decreases |orders|
  {
    hide Settle, FillOf, FillPrice;
    if orders != [] && orders[0].id !in seen && Refusal(a, orders[0], p).None? {
      var f := FillOf(orders[0], p);
      FillShape(orders[0], p);
      SettleSound(a, f);
      SettleShares(a, f, t);
      RunShares(Settle(a, f), fills + [f], seen + {orders[0].id}, orders[1..], p, t);
    }
  }

  lemma OrderForShape(b: Rebalance, id: OrderId, t: Name)
    requires t in b.marks && b.marks[t] > 0.0 && Delta(b, t) != 0
    ensures var o, d := OrderFor(b, id, t), Delta(b, t);
            && o.ticker == t && o.reference == b.marks[t]
            && o.quantity.Floor == Size(d) && WholeShares(o) && ValidOrder(o)
            && (o.side.Buy? <==> d > 0)
            && o.id == id(t, o.side, Size(d), b.marks[t])
  {}

  lemma {:induction false} SignedOrdersOn(b: Rebalance, id: OrderId, side: Side, s: set<Name>, t: Name)
    requires Priced(b) && s <= b.marks.Keys
    ensures Signed(OrdersOn(b, id, side, s), t)
            == if t in s && Trades(b, side, t) then Delta(b, t) else 0
  {
    hide Delta, OrderFor;
    if s != {} {
      var u := Least(s);
      SignedOrdersOn(b, id, side, s - {u}, t);
      if Trades(b, side, u) {
        var o, rest := OrderFor(b, id, u), OrdersOn(b, id, side, s - {u});
        OrderForShape(b, id, u);
        SignedConcat([o], rest, t);
        assert [o][1..] == [];
        assert Signed([o], t) == if u == t then Delta(b, t) else 0;
      } else {
        assert [] + OrdersOn(b, id, side, s - {u}) == OrdersOn(b, id, side, s - {u});
      }
    }
  }

  lemma RunTargets(a: Account, b: Rebalance, id: OrderId, p: Policy, t: Name)
    requires Sound(a) && Priced(b) && b.held == a.shares
    requires RunOrders(a, [], {}, AllOrders(b, id), p).Ok?
    ensures Quantity(RunOrders(a, [], {}, AllOrders(b, id), p).value.0.shares, t)
            == if t in Tickers(b) then Target(b, t) else 0
  {
    hide RunOrders, Signed, Truncate, OrdersOn;
    RunShares(a, [], {}, AllOrders(b, id), p, t);
    SignedConcat(OrdersOn(b, id, Sell, Tickers(b)), OrdersOn(b, id, Buy, Tickers(b)), t);
    SignedOrdersOn(b, id, Sell, Tickers(b), t);
    SignedOrdersOn(b, id, Buy, Tickers(b), t);
  }

  /** A batch that runs leaves every ticker at exactly its truncated target, and nothing else held. */
  lemma TargetsReached(a: Account, b: Rebalance, id: OrderId, p: Policy, t: Name)
    requires Sound(a) && Priced(b) && b.held == a.shares
    requires Execute(a, AllOrders(b, id), p).Ok?
    ensures Quantity(Execute(a, AllOrders(b, id), p).value.0.shares, t)
            == if t in Tickers(b) then Target(b, t) else 0
  {
    hide RunOrders, Target, AllOrders;
    RunTargets(a, b, id, p, t);
  }

  lemma {:induction false} NoDeltasNoOrders(b: Rebalance, id: OrderId, side: Side, s: set<Name>)
    requires Priced(b) && s <= b.marks.Keys
    requires forall t | t in s :: Delta(b, t) == 0
    ensures OrdersOn(b, id, side, s) == []
  {
    hide Delta;
    if s != {} { NoDeltasNoOrders(b, id, side, s - {Least(s)}); }
  }

  lemma SameTarget(b: Rebalance, after: Rebalance, t: Name)
    requires t in b.marks && b.marks[t] > 0.0
    requires after.weights == b.weights && after.marks == b.marks && after.equity == b.equity
    ensures Target(after, t) == Target(b, t)
  {
    hide SharesAt;
    assert TargetValue(after, t) == TargetValue(b, t);
  }

  /** Rebuilding from the account a batch leaves, with the same weights, marks and equity,
      gives no orders. */
  lemma RebuildIsEmpty(a: Account, b: Rebalance, id: OrderId, p: Policy)
    requires Sound(a) && Priced(b) && b.held == a.shares
    requires Execute(a, AllOrders(b, id), p).Ok?
    ensures var after := b.(held := Execute(a, AllOrders(b, id), p).value.0.shares);
            Priced(after) && AllOrders(after, id) == []
  {
    hide RunOrders, Truncate, OrdersOn, Execute;
    var now := Execute(a, AllOrders(b, id), p).value.0.shares;
    var after := b.(held := now);
    forall t | t in now ensures t in Tickers(b) {
      TargetsReached(a, b, id, p, t);
      ExecuteSound(a, AllOrders(b, id), p);
    }
    forall t | t in Tickers(after) ensures t in b.marks && Delta(after, t) == 0 {
      TargetsReached(a, b, id, p, t);
      SameTarget(b, after, t);
    }
    NoDeltasNoOrders(after, id, Sell, Tickers(after));
    NoDeltasNoOrders(after, id, Buy, Tickers(after));
  }

  // -------------------------------------------------- why a batch can be refused

  ghost predicate LongTargets(b: Rebalance) {
    b.equity >= 0.0 && forall t | t in b.weights :: b.weights[t] >= 0.0
  }

  /** Non-negative weights never sell more than is held. */
  lemma SellsWithinHoldings(b: Rebalance, id: OrderId, t: Name)
    requires Priced(b) && LongTargets(b) && t in Tickers(b) && Delta(b, t) < 0
    ensures OrderFor(b, id, t).quantity.Floor <= Quantity(b.held, t)
  {}

  /** Orders a broker holding `shares` can only refuse over a worthless fill or the cash check. */
  ghost predicate Fillable(orders: seq<Order>, shares: map<Name, int>) {
    && (forall i | 0 <= i < |orders| ::
          WholeShares(orders[i])
          && (orders[i].side.Sell? ==> orders[i].quantity.Floor <= Quantity(shares, orders[i].ticker)))
    && (forall i, j | 0 <= i < j < |orders| ::
          orders[i].ticker != orders[j].ticker && orders[i].id != orders[j].id)
  }

  lemma {:induction false} FillableRuns(
      a: Account, fills: seq<Fill>, seen: set<Name>, orders: seq<Order>, p: Policy)
    requires Sound(a) && Fillable(orders, a.shares)
    requires forall i | 0 <= i < |orders| :: orders[i].id !in seen
    ensures RunOrders(a, fills, seen, orders, p).Err? ==>
            RunOrders(a, fills, seen, orders, p).error == InvalidFill
    decreases |orders|
  {
    hide Settle, FillOf, FillPrice;
    if orders != [] && Refusal(a, orders[0], p).None? {
      var f := FillOf(orders[0], p);
      FillShape(orders[0], p);
      SettleSound(a, f);
      var rest := orders[1..];
      forall i | 0 <= i < |rest|
        ensures Quantity(Settle(a, f).shares, rest[i].ticker) == Quantity(a.shares, rest[i].ticker)
      {
        assert rest[i] == orders[i + 1];
        SettleShares(a, f, rest[i].ticker);
      }
      FillableRuns(Settle(a, f), fills + [f], seen + {orders[0].id}, rest, p);
    }
  }

  lemma {:induction false} FillableRunsWhole(
      a: Account, fills: seq<Fill>, seen: set<Name>, orders: seq<Order>, p: Policy)
    requires Sound(a) && Fillable(orders, a.shares)
    requires forall i | 0 <= i < |orders| :: orders[i].id !in seen && FillPrice(orders[i], p) > 0.0
    ensures RunOrders(a, fills, seen, orders, p).Ok?
    decreases |orders|
  {
    hide Settle, FillOf, FillPrice;
    if orders != [] {
      var f := FillOf(orders[0], p);
      assert Refusal(a, orders[0], p).None?;
      FillShape(orders[0], p);
      SettleSound(a, f);
      var rest := orders[1..];
      forall i | 0 <= i < |rest|
        ensures Quantity(Settle(a, f).shares, rest[i].ticker) == Quantity(a.shares, rest[i].ticker)
        ensures FillPrice(rest[i], p) > 0.0
      {
        assert rest[i] == orders[i + 1];
        SettleShares(a, f, rest[i].ticker);
      }
      FillableRunsWhole(Settle(a, f), fills + [f], seen + {orders[0].id}, rest, p);
    }
  }

  ghost predicate BuiltFrom(orders: seq<Order>, b: Rebalance, id: OrderId, side: Side, s: set<Name>)
    requires Priced(b) && s <= b.marks.Keys
  {
    && (forall i | 0 <= i < |orders| ::
          orders[i].ticker in s && Trades(b, side, orders[i].ticker)
          && orders[i] == OrderFor(b, id, orders[i].ticker))
    && (forall i, j | 0 <= i < j < |orders| :: orders[i].ticker != orders[j].ticker)
  }

  lemma BuiltCons(rest: seq<Order>, b: Rebalance, id: OrderId, side: Side, s: set<Name>, t: Name)
    requires Priced(b) && s <= b.marks.Keys && t in s && Trades(b, side, t)
    requires BuiltFrom(rest, b, id, side, s - {t})
    requires OrderFor(b, id, t).ticker == t
    ensures BuiltFrom([OrderFor(b, id, t)] + rest, b, id, side, s)
  {
    hide Delta, OrderFor;
    var all := [OrderFor(b, id, t)] + rest;
    forall i | 0 <= i < |all|
      ensures all[i].ticker in s && Trades(b, side, all[i].ticker) && all[i] == OrderFor(b, id, all[i].ticker)
    {
      if i > 0 { assert all[i] == rest[i - 1]; }
    }
    forall i, j | 0 <= i < j < |all| ensures all[i].ticker != all[j].ticker {
      assert all[j] == rest[j - 1];
      if i > 0 { assert all[i] == rest[i - 1]; }
    }
  }

  lemma {:induction false} OrdersOnBuilt(b: Rebalance, id: OrderId, side: Side, s: set<Name>)
    requires Priced(b) && s <= b.marks.Keys
    ensures BuiltFrom(OrdersOn(b, id, side, s), b, id, side, s)
  {
    hide Delta, OrderFor;
    if s != {} {
      var t := Least(s);
      var rest := OrdersOn(b, id, side, s - {t});
      OrdersOnBuilt(b, id, side, s - {t});
      if Trades(b, side, t) {
        OrderForShape(b, id, t);
        BuiltCons(rest, b, id, side, s, t);
      } else {
        assert [] + rest == rest;
      }
    }
  }

  /** Every order comes from its own ticker's gap, and every ticker with a gap has its order. */
  lemma {:induction false} OrdersOnMembers(b: Rebalance, id: OrderId, side: Side, s: set<Name>, o: Order)
    requires Priced(b) && s <= b.marks.Keys
    ensures o in OrdersOn(b, id, side, s) <==> exists t :: t in s && Trades(b, side, t) && o == OrderFor(b, id, t)
  {
    hide Trades, OrderFor;
    if s != {} { OrdersOnMembers(b, id, side, s - {Least(s)}, o); }
  }

  lemma {:induction false} OrdersOnSequence(b: Rebalance, id: OrderId, side: Side, s: set<Name>, i: nat, j: nat)
    requires Priced(b) && s <= b.marks.Keys && i < j < |OrdersOn(b, id, side, s)|
    ensures Less(OrdersOn(b, id, side, s)[i].ticker, OrdersOn(b, id, side, s)[j].ticker)
  {
    hide Trades, OrderFor, Less;
    var t := Least(s);
    var rest := OrdersOn(b, id, side, s - {t});
    if Trades(b, side, t) {
      if i == 0 {
        OrdersOnMembers(b, id, side, s - {t}, rest[j - 1]);
        var u :| u in s - {t} && rest[j - 1] == OrderFor(b, id, u);
        OrderTicker(b, id, t);
        OrderTicker(b, id, u);
      } else {
        OrdersOnSequence(b, id, side, s - {t}, i - 1, j - 1);
      }
    } else {
      assert [] + rest == rest;
      OrdersOnSequence(b, id, side, s - {t}, i, j);
    }
  }

  lemma OrderTicker(b: Rebalance, id: OrderId, t: Name)
    requires t in b.marks && b.marks[t] > 0.0
    ensures OrderFor(b, id, t).ticker == t
  {}

  lemma {:induction false} OrdersOnSide(b: Rebalance, id: OrderId, side: Side, s: set<Name>)
    requires Priced(b) && s <= b.marks.Keys
    ensures forall i | 0 <= i < |OrdersOn(b, id, side, s)| :: OrdersOn(b, id, side, s)[i].side == side
  {
    if s != {} { OrdersOnSide(b, id, side, s - {Least(s)}); }
  }

  /** One order for each ticker whose target differs from what is held, for the difference at its
      mark; sells come before buys, each by ticker. */
  lemma OrdersMeaning(b: Rebalance, id: OrderId)
    requires Priced(b)
    ensures var all := AllOrders(b, id);
            && (forall o :: o in all <==> exists t :: t in Tickers(b) && Delta(b, t) != 0 && o == OrderFor(b, id, t))
            && (forall o | o in all ::
                  && o.ticker in Tickers(b) && o.reference == b.marks[o.ticker]
                  && (if o.side.Buy? then o.quantity else -o.quantity)
                     == (Target(b, o.ticker) - Quantity(b.held, o.ticker)) as real)
            && (forall i, j | 0 <= i < j < |all| ::
                  if all[i].side == all[j].side then Less(all[i].ticker, all[j].ticker) else all[i].side.Sell?)
  {
    hide OrdersOn, OrderFor, Target, Less;
    var sells, buys := OrdersOn(b, id, Sell, Tickers(b)), OrdersOn(b, id, Buy, Tickers(b));
    var all := AllOrders(b, id);
    forall o ensures o in all <==> exists t :: t in Tickers(b) && Delta(b, t) != 0 && o == OrderFor(b, id, t) {
      OrdersOnMembers(b, id, Sell, Tickers(b), o);
      OrdersOnMembers(b, id, Buy, Tickers(b), o);
    }
    forall t | t in Tickers(b) && Delta(b, t) != 0 { OrderForShape(b, id, t); }
    OrdersOnSide(b, id, Sell, Tickers(b));
    OrdersOnSide(b, id, Buy, Tickers(b));
    forall i, j | 0 <= i < j < |all|
      ensures if all[i].side == all[j].side then Less(all[i].ticker, all[j].ticker) else all[i].side.Sell?
    {
      if j < |sells| { OrdersOnSequence(b, id, Sell, Tickers(b), i, j); }
      if i >= |sells| { OrdersOnSequence(b, id, Buy, Tickers(b), i - |sells|, j - |sells|); }
    }
  }

  lemma AllOrdersFillable(b: Rebalance, id: OrderId)
    requires Priced(b) && LongTargets(b) && IdsTellTickersApart(id)
    ensures Fillable(AllOrders(b, id), b.held)
    ensures forall o | o in AllOrders(b, id) ::
              o.ticker in b.marks && o.reference == b.marks[o.ticker] && o.reference > 0.0
  {
    hide Delta, OrderFor, OrdersOn, Quantity;
    var sells, buys := OrdersOn(b, id, Sell, Tickers(b)), OrdersOn(b, id, Buy, Tickers(b));
    var all := AllOrders(b, id);
    OrdersOnBuilt(b, id, Sell, Tickers(b));
    OrdersOnBuilt(b, id, Buy, Tickers(b));
    forall i | 0 <= i < |all|
      ensures var o := all[i];
              && o.ticker in Tickers(b) && Delta(b, o.ticker) != 0 && o == OrderFor(b, id, o.ticker)
              && WholeShares(o) && o.reference == b.marks[o.ticker]
              && (o.side.Sell? ==> o.quantity.Floor <= Quantity(b.held, o.ticker))
    {
      var o := all[i];
      assert o == if i < |sells| then sells[i] else buys[i - |sells|];
      OrderForShape(b, id, o.ticker);
      if Delta(b, o.ticker) < 0 { SellsWithinHoldings(b, id, o.ticker); }
    }
    forall i, j | 0 <= i < j < |all| ensures all[i].ticker != all[j].ticker && all[i].id != all[j].id {
      assert all[i] == if i < |sells| then sells[i] else buys[i - |sells|];
      assert all[j] == if j < |sells| then sells[j] else buys[j - |sells|];
      OrderForShape(b, id, all[i].ticker);
      OrderForShape(b, id, all[j].ticker);
    }
  }

  /** Orders built for a long-only book are refused only for a worthless fill or for cash. */
  lemma OnlyCashRefuses(a: Account, b: Rebalance, id: OrderId, p: Policy)
    requires Sound(a) && Priced(b) && b.held == a.shares && LongTargets(b) && IdsTellTickersApart(id)
    ensures Execute(a, AllOrders(b, id), p).Err? ==>
            Execute(a, AllOrders(b, id), p).error in {InvalidFill, NegativeCash}
  {
    hide RunOrders, Fillable, AllOrders;
    AllOrdersFillable(b, id);
    FillableRuns(a, [], {}, AllOrders(b, id), p);
  }

  // ------------------------------------------------------------ the cash reserve

  function Funded(b: Rebalance): Name -> real { t => b.equity * RiskGate.At(b.weights, t) }

  lemma FundedTotal(b: Rebalance, all: set<Name>)
    requires b.weights.Keys <= all
    ensures Sums.Total(all, Funded(b)) == b.equity * RiskGate.Net(b.weights)
  {
    hide Sums.Total;
    var w := RiskGate.Signed(b.weights);
    Sums.TotalScale(all, w, b.equity, Funded(b));
    Sums.TotalExtend(b.weights.Keys, all, w);
  }

  lemma TargetsWithinBook(b: Rebalance, shares: map<Name, int>)
    requires Priced(b) && LongTargets(b)
    requires forall t :: Quantity(shares, t) == if t in Tickers(b) then Target(b, t) else 0
    ensures Sums.Total(shares.Keys, Worth(shares, b.marks)) <= RiskGate.Net(b.weights) * b.equity
  {
    hide Sums.Total, Target, TargetValue, Worth, Funded, RiskGate.Net;
    var all := shares.Keys + Tickers(b);
    forall t | t in all - shares.Keys ensures Worth(shares, b.marks)(t) == 0.0 { WorthNothing(shares, b.marks, t); }
    Sums.TotalExtend(shares.Keys, all, Worth(shares, b.marks));
    forall t | t in all ensures Worth(shares, b.marks)(t) <= Funded(b)(t) { TargetWorth(b, shares, t); }
    Sums.TotalLe(all, Worth(shares, b.marks), Funded(b));
    FundedTotal(b, all);
  }

  lemma TargetWorth(b: Rebalance, shares: map<Name, int>, t: Name)
    requires Priced(b) && LongTargets(b)
    requires Quantity(shares, t) == if t in Tickers(b) then Target(b, t) else 0
    ensures Worth(shares, b.marks)(t) <= Funded(b)(t)
  {}

  /** The reserve pays for trading: a long-only book that leaves a fraction `reserve` in cash
      keeps, before the commit, at least that much of equity less the costs and half a cent. */
  lemma ReserveCoversCosts(a: Account, b: Rebalance, id: OrderId, p: Policy, reserve: real)
    requires Sound(a) && Priced(b) && b.held == a.shares && LongTargets(b)
    requires b.equity == CentsEven(RawEquity(a, b.marks))
    requires RiskGate.Net(b.weights) <= 1.0 - reserve
    requires RunOrders(a, [], {}, AllOrders(b, id), p).Ok?
    ensures var run := RunOrders(a, [], {}, AllOrders(b, id), p).value;
            run.0.cash >= reserve * b.equity - Costs(run.1, b.marks) - 0.005
  {
    hide RunOrders, AllOrders, Sums.Total, RiskGate.Net, CentsEven, Costs, Target, Quantity;
    var run := RunOrders(a, [], {}, AllOrders(b, id), p).value;
    RunConserves(a, [], {}, AllOrders(b, id), p, b.marks);
    assert Costs([], b.marks) == 0.0 by { NoCosts(b.marks); }
    CentsEvenNear(RawEquity(a, b.marks));
    forall t ensures Quantity(run.0.shares, t) == if t in Tickers(b) then Target(b, t) else 0 {
      RunTargets(a, b, id, p, t);
    }
    TargetsWithinBook(b, run.0.shares);
    var kept := Sums.Total(run.0.shares.Keys, Worth(run.0.shares, b.marks));
    assert run.0.cash + kept + Costs(run.1, b.marks) == RawEquity(a, b.marks);
    ReserveShare(kept, RiskGate.Net(b.weights), reserve, b.equity);
  }

  lemma NoCosts(marks: map<Name, real>)
    ensures Costs([], marks) == 0.0
  {}

  lemma ReserveShare(kept: real, net: real, reserve: real, equity: real)
    requires kept <= net * equity && net <= 1.0 - reserve && equity >= 0.0
    ensures kept <= equity - reserve * equity
  {
    TimesMonotone(net, 1.0 - reserve, equity);
  }

  /** A batch whose costs fit the reserve, less half a cent, is never short of cash. */
  lemma AffordableBatchCommits(a: Account, b: Rebalance, id: OrderId, p: Policy, reserve: real)
    requires Sound(a) && Priced(b) && b.held == a.shares && LongTargets(b)
    requires b.equity == CentsEven(RawEquity(a, b.marks))
    requires RiskGate.Net(b.weights) <= 1.0 - reserve
    requires RunOrders(a, [], {}, AllOrders(b, id), p).Ok?
    requires Costs(RunOrders(a, [], {}, AllOrders(b, id), p).value.1, b.marks)
             <= reserve * b.equity - 0.005
    ensures Execute(a, AllOrders(b, id), p).Ok?
  {
    hide RunOrders, AllOrders, RiskGate.Net, CentsEven, Costs, RawEquity, LongTargets;
    ReserveCoversCosts(a, b, id, p, reserve);
  }

  // ---------------------------------------------- costs known before trading

  /** The most a share can be slipped: the slippage rate and half a step of the price grid. */
  function UnitSlip(mark: real, p: Policy): real { mark * (p.slippageBps / 10000.0) + 0.0000005 }

  function SlipTotal(u: real, q: nat): real { u * q as real }

  /** What an order can cost at most, from its quantity, its reference and the policy's rates. */
  function CostBound(q: nat, mark: real, p: Policy): real {
    SlipTotal(UnitSlip(mark, p), q) + Commission(mark + UnitSlip(mark, p), q, p) + 0.005
  }

  function CostsBound(orders: seq<Order>, p: Policy): real {
    if orders == [] then 0.0
    else CostBound(Size(orders[0].quantity.Floor), orders[0].reference, p) + CostsBound(orders[1..], p)
  }

  lemma SlipWithin(o: Order, p: Policy)
    requires o.reference > 0.0 && p.slippageBps > 0.0
    ensures Abs(FillPrice(o, p) - o.reference) <= UnitSlip(o.reference, p)
  {
    hide Micros;
    MicrosNear(SlippedPrice(o, p));
    var rate := p.slippageBps / 10000.0;
    SlipBy(o.reference, Direction(o.side), rate, Direction(o.side) * rate, o.reference * rate);
  }

  lemma SlipBy(m: real, d: real, rate: real, dr: real, slip: real)
    requires m > 0.0 && rate > 0.0 && (d == 1.0 || d == -1.0) && dr == d * rate && slip == m * rate
    ensures Abs(m * (1.0 + dr) - m) == slip
  {
    assert m * (1.0 + dr) == m + m * dr;
    if d == -1.0 { assert m * dr == -slip; }
  }

  lemma TimesMonotone(x: real, y: real, e: real)
    requires x <= y && e >= 0.0
    ensures x * e <= y * e
  {}

  lemma DirectionBound(side: Side, g: real, u: real, signed: real)
    requires Abs(g) <= u && signed == Direction(side) * g
    ensures signed <= u
  {}

  lemma CommissionMonotone(price: real, top: real, q: nat, p: Policy)
    requires price <= top && p.commissionBps > 0.0
    ensures Commission(price, q, p) <= Commission(top, q, p)
  {
    TimesMonotone(price, top, q as real);
    TimesMonotone(price * q as real, top * q as real, p.commissionBps / 10000.0);
  }

  lemma GivenWithin(f: Fill, mark: real, u: real) returns (given: real)
    requires Abs(f.price - mark) <= u
    ensures Cost(f, mark) == f.fee + given && given <= SlipTotal(u, f.quantity)
  {
    given := Direction(f.side) * (f.price - mark) * f.quantity as real;
    DirectionBound(f.side, f.price - mark, u, Direction(f.side) * (f.price - mark));
    TimesMonotone(Direction(f.side) * (f.price - mark), u, f.quantity as real);
  }

  lemma CostWithin(f: Fill, mark: real, u: real, p: Policy)
    requires Abs(f.price - mark) <= u && f.fee == FeeOf(f.price, f.quantity, p)
    requires u == UnitSlip(mark, p) && p.commissionBps > 0.0
    ensures Cost(f, mark) <= CostBound(f.quantity, mark, p)
  {
    hide Cents, Commission, UnitSlip, SlipTotal, Cost;
    var given := GivenWithin(f, mark, u);
    CommissionMonotone(f.price, mark + u, f.quantity, p);
    CentsNear(Commission(f.price, f.quantity, p));
  }

  lemma FillWithinBound(o: Order, p: Policy)
    requires WholeShares(o) && o.reference > 0.0 && p.slippageBps > 0.0 && p.commissionBps > 0.0
    ensures Cost(FillOf(o, p), o.reference) <= CostBound(o.quantity.Floor, o.reference, p)
  {
    hide FillPrice, UnitSlip, Cost, FillOf, CostBound, FeeOf;
    FillParts(o, p);
    SlipWithin(o, p);
    CostWithin(FillOf(o, p), o.reference, UnitSlip(o.reference, p), p);
  }

  lemma {:induction false} RunWithinBound(
      a: Account, fills: seq<Fill>, seen: set<Name>, orders: seq<Order>, p: Policy, marks: map<Name, real>)
    requires Sound(a) && p.slippageBps > 0.0 && p.commissionBps > 0.0
    requires forall o | o in orders :: o.ticker in marks && o.reference == marks[o.ticker] && o.reference > 0.0
    ensures RunOrders(a, fills, seen, orders, p).Ok? ==>
            Costs(RunOrders(a, fills, seen, orders, p).value.1, marks) <= Costs(fills, marks) + CostsBound(orders, p)
    decreases |orders|
  {
    hide Cost, Settle, FillOf, FillPrice, CostBound;
    if orders != [] && orders[0].id !in seen && Refusal(a, orders[0], p).None? {
      var f := FillOf(orders[0], p);
      FillShape(orders[0], p);
      SettleSound(a, f);
      FillWithinBound(orders[0], p);
      assert (fills + [f])[..|fills|] == fills;
      assert orders[0] in orders && forall o | o in orders[1..] :: o in orders;
      RunWithinBound(Settle(a, f), fills + [f], seen + {orders[0].id}, orders[1..], p, marks);
    }
  }

  /** Affordability known before the batch: if no order's fill is worthless and the bound on what
      the orders can cost fits the reserve less half a cent, the batch commits. */
  lemma AffordableOrdersCommit(a: Account, b: Rebalance, id: OrderId, p: Policy, reserve: real)
    requires Sound(a) && Priced(b) && b.held == a.shares && LongTargets(b) && IdsTellTickersApart(id)
    requires p.slippageBps > 0.0 && p.commissionBps > 0.0
    requires b.equity == CentsEven(RawEquity(a, b.marks))
    requires RiskGate.Net(b.weights) <= 1.0 - reserve
    requires forall o | o in AllOrders(b, id) :: FillPrice(o, p) > 0.0
    requires CostsBound(AllOrders(b, id), p) <= reserve * b.equity - 0.005
    ensures Execute(a, AllOrders(b, id), p).Ok?
  {
    hide RunOrders, AllOrders, RiskGate.Net, CentsEven, RawEquity, LongTargets, IdsTellTickersApart, Fillable, Execute;
    hide Costs, CostsBound, FillPrice;
    var orders := AllOrders(b, id);
    AllOrdersFillable(b, id);
    FillableRunsWhole(a, [], {}, orders, p);
    NoCosts(b.marks);
    RunWithinBound(a, [], {}, orders, p, b.marks);
    AffordableBatchCommits(a, b, id, p, reserve);
  }
}
