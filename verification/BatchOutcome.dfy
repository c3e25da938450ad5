/** When a batch of orders commits, and what it then leaves, read off the orders themselves. */
module BatchOutcome {
  import opened Names
  import opened Reals
  import opened Wrappers
  import opened Rounding
  import opened Broker
  import opened BrokerLaws
  import opened Orders

  /** No order id twice; whole shares at a positive price; and no sale of more than is held when
      its turn comes. */
  ghost predicate Acceptable(a: Account, orders: seq<Order>, p: Policy) {
    && (forall i, j | 0 <= i < j < |orders| :: orders[i].id != orders[j].id)
    && (forall i | 0 <= i < |orders| :: WholeShares(orders[i]))
    && forall i | 0 <= i < |orders| :: OrderAccepted(a, orders, p, i)
  }

  ghost predicate OrderAccepted(a: Account, orders: seq<Order>, p: Policy, i: nat)
    requires i < |orders|
  {
    var o := orders[i];
    && WholeShares(o) && FillPrice(o, p) > 0.0
    && (o.side.Sell? ==> o.quantity.Floor <= Quantity(a.shares, o.ticker) + Signed(orders[..i], o.ticker))
  }

  lemma SettleSigned(a: Account, o: Order, p: Policy, t: Name)
    requires Sound(a) && WholeShares(o) && (o.side.Sell? ==> o.quantity.Floor <= Quantity(a.shares, o.ticker))
    ensures Quantity(Settle(a, FillOf(o, p)).shares, t) == Quantity(a.shares, t) + Signed([o], t)
  {
    hide Settle, FillOf;
    FillShape(o, p);
    SettleShares(a, FillOf(o, p), t);
    assert [o][1..] == [];
  }

  /** The first order is taken, and the rest then are. */
  lemma AcceptedStep(a: Account, orders: seq<Order>, p: Policy)
    requires Sound(a) && orders != [] && OrderAccepted(a, orders, p, 0)
    ensures Acceptable(a, orders, p) <==>
              (forall i | 0 <= i < |orders[1..]| :: orders[1..][i].id != orders[0].id)
              && Acceptable(Settle(a, FillOf(orders[0], p)), orders[1..], p)
  {
    hide Settle, FillOf, FillPrice, WholeShares, Signed;
    var o, rest := orders[0], orders[1..];
    AcceptedSale(a, orders, p);
    FillShape(o, p);
    var next := Settle(a, FillOf(o, p));
    NothingSigned(o.ticker);
    assert orders[..0] == [];
    forall i | 0 <= i < |rest| ensures OrderAccepted(next, rest, p, i) <==> OrderAccepted(a, orders, p, i + 1) {
      var t := rest[i].ticker;
      SettleSigned(a, o, p, t);
      assert orders[..i + 1] == [o] + rest[..i];
      SignedConcat([o], rest[..i], t);
    }
    IdsApart(orders);
    if Acceptable(next, rest, p) {
      forall i | 0 < i < |orders| ensures WholeShares(orders[i]) && OrderAccepted(a, orders, p, i) {
        assert OrderAccepted(next, rest, p, i - 1) && rest[i - 1] == orders[i];
      }
    }
    if Acceptable(a, orders, p) {
      forall i | 0 <= i < |rest| ensures WholeShares(rest[i]) && OrderAccepted(next, rest, p, i) {
        assert OrderAccepted(a, orders, p, i + 1) && rest[i] == orders[i + 1];
      }
    }
  }

  lemma NothingSigned(t: Name)
    ensures Signed([], t) == 0
  {}

  lemma IdsApart(orders: seq<Order>)
    requires orders != []
    ensures (forall i, j | 0 <= i < j < |orders| :: orders[i].id != orders[j].id) <==>
              (forall i | 0 <= i < |orders[1..]| :: orders[1..][i].id != orders[0].id)
              && (forall i, j | 0 <= i < j < |orders[1..]| :: orders[1..][i].id != orders[1..][j].id)
  {
    var rest := orders[1..];
    if (forall i | 0 <= i < |rest| :: rest[i].id != orders[0].id)
       && (forall i, j | 0 <= i < j < |rest| :: rest[i].id != rest[j].id) {
      forall i, j | 0 <= i < j < |orders| ensures orders[i].id != orders[j].id {
        assert orders[j] == rest[j - 1];
        if i > 0 { assert orders[i] == rest[i - 1]; }
      }
    }
    if forall i, j | 0 <= i < j < |orders| :: orders[i].id != orders[j].id {
      forall i, j | 0 <= i < j < |rest| ensures rest[i].id != rest[j].id {
        assert rest[i] == orders[i + 1] && rest[j] == orders[j + 1];
      }
    }
  }

  lemma FirstRefusal(a: Account, orders: seq<Order>, p: Policy)
    requires orders != []
    ensures Refusal(a, orders[0], p).None? <==> OrderAccepted(a, orders, p, 0)
  {
    hide FillPrice;
    assert orders[..0] == [];
    NothingSigned(orders[0].ticker);
  }

  lemma {:induction false} RunsIff(a: Account, fills: seq<Fill>, seen: set<Name>, orders: seq<Order>, p: Policy)
    requires Sound(a)
    ensures RunOrders(a, fills, seen, orders, p).Ok? <==>
              (forall i | 0 <= i < |orders| :: orders[i].id !in seen) && Acceptable(a, orders, p)
    decreases |orders|
  {
    hide Settle, FillOf, FillPrice, Acceptable, OrderAccepted;
    if orders == [] {
      NothingToAccept(a, p);
    } else {
      FirstRefusal(a, orders, p);
      if OrderAccepted(a, orders, p, 0) {
        FillShape(orders[0], p);
        AcceptedSale(a, orders, p);
        SettleSound(a, FillOf(orders[0], p));
        AcceptedStep(a, orders, p);
        RunsIff(Settle(a, FillOf(orders[0], p)), fills + [FillOf(orders[0], p)], seen + {orders[0].id}, orders[1..], p);
        Unseen(orders, seen);
      } else {
        AcceptableFirst(a, orders, p);
      }
    }
  }

  lemma NothingToAccept(a: Account, p: Policy)
    ensures Acceptable(a, [], p)
  {}

  lemma AcceptedSale(a: Account, orders: seq<Order>, p: Policy)
    requires orders != [] && OrderAccepted(a, orders, p, 0)
    ensures WholeShares(orders[0])
    ensures orders[0].side.Sell? ==> orders[0].quantity.Floor <= Quantity(a.shares, orders[0].ticker)
  {
    assert orders[..0] == [];
    NothingSigned(orders[0].ticker);
  }

  lemma AcceptableFirst(a: Account, orders: seq<Order>, p: Policy)
    requires orders != []
    ensures Acceptable(a, orders, p) ==> OrderAccepted(a, orders, p, 0)
  {}

  lemma Unseen(orders: seq<Order>, seen: set<Name>)
    requires orders != []
    ensures (forall i | 0 <= i < |orders| :: orders[i].id !in seen)
            && (forall i | 0 <= i < |orders[1..]| :: orders[1..][i].id != orders[0].id) <==>
              orders[0].id !in seen && forall i | 0 <= i < |orders[1..]| :: orders[1..][i].id !in seen + {orders[0].id}
  {
    var rest := orders[1..];
    if orders[0].id !in seen && forall i | 0 <= i < |rest| :: rest[i].id !in seen + {orders[0].id} {
      forall i | 0 <= i < |orders| ensures orders[i].id !in seen { if i > 0 { assert orders[i] == rest[i - 1]; } }
    }
    if forall i | 0 <= i < |orders| :: orders[i].id !in seen {
      forall i | 0 <= i < |rest| ensures rest[i].id !in seen { assert rest[i] == orders[i + 1]; }
    }
  }

  // ------------------------------------------------------------- what it leaves

  /** Cash a fill takes: what is paid and the fee, less what is received. */
  function Outlay(f: Fill): real { (if f.side.Buy? then Notional(f) else -Notional(f)) + f.fee }

  /** The fills of whole-share orders, one for each. */
  function FillsOf(orders: seq<Order>, p: Policy): seq<Fill>
    requires forall i | 0 <= i < |orders| :: WholeShares(orders[i])
  {
    seq(|orders|, i requires 0 <= i < |orders| => FillOf(orders[i], p))
  }

  function Spent(fills: seq<Fill>): real {
    if fills == [] then 0.0 else Spent(fills[..|fills| - 1]) + Outlay(fills[|fills| - 1])
  }

  lemma {:induction false} RunCash(a: Account, fills: seq<Fill>, seen: set<Name>, orders: seq<Order>, p: Policy)
    requires Sound(a)
    ensures RunOrders(a, fills, seen, orders, p).Ok? ==>
            var run := RunOrders(a, fills, seen, orders, p).value;
            run.0.cash + Spent(run.1) == a.cash + Spent(fills)
    decreases |orders|
  {
    hide Settle, FillOf, FillPrice, Outlay, WholeShares;
    if orders != [] && orders[0].id !in seen && Refusal(a, orders[0], p).None? {
      var o, f := orders[0], FillOf(orders[0], p);
      AcceptedFill(a, o, p);
      SettleSound(a, f);
      SettleCash(a, f);
      assert (fills + [f])[..|fills|] == fills;
      RunCash(Settle(a, f), fills + [f], seen + {o.id}, orders[1..], p);
    }
  }

  lemma {:induction false} RunFills(a: Account, fills: seq<Fill>, seen: set<Name>, orders: seq<Order>, p: Policy)
    requires Sound(a)
    ensures RunOrders(a, fills, seen, orders, p).Ok? ==>
            (forall i | 0 <= i < |orders| :: WholeShares(orders[i]))
            && RunOrders(a, fills, seen, orders, p).value.1 == fills + FillsOf(orders, p)
    decreases |orders|
  {
    hide Settle, FillOf, FillPrice, WholeShares;
    if orders != [] && orders[0].id !in seen && Refusal(a, orders[0], p).None? {
      var o, f := orders[0], FillOf(orders[0], p);
      AcceptedFill(a, o, p);
      SettleSound(a, f);
      RunFills(Settle(a, f), fills + [f], seen + {o.id}, orders[1..], p);
      if RunOrders(a, fills, seen, orders, p).Ok? {
        WholeRest(orders);
        FillsStep(orders, p);
        assert fills + [f] + FillsOf(orders[1..], p) == fills + ([f] + FillsOf(orders[1..], p));
      }
    }
  }

  lemma WholeRest(orders: seq<Order>)
    requires orders != [] && WholeShares(orders[0]) && forall i | 0 <= i < |orders[1..]| :: WholeShares(orders[1..][i])
    ensures forall i | 0 <= i < |orders| :: WholeShares(orders[i])
  {
    forall i | 0 <= i < |orders| ensures WholeShares(orders[i]) { if i > 0 { assert orders[i] == orders[1..][i - 1]; } }
  }

  lemma FillsStep(orders: seq<Order>, p: Policy)
    requires orders != [] && forall i | 0 <= i < |orders| :: WholeShares(orders[i])
    ensures FillsOf(orders, p) == [FillOf(orders[0], p)] + FillsOf(orders[1..], p)
  {
    hide FillOf;
  }

  lemma AcceptedFill(a: Account, o: Order, p: Policy)
    requires Refusal(a, o, p).None?
    ensures WholeShares(o) && FillOf(o, p).quantity > 0
    ensures FillOf(o, p).side == o.side && FillOf(o, p).ticker == o.ticker
    ensures o.side.Sell? ==> FillOf(o, p).quantity <= Quantity(a.shares, o.ticker)
  {
    hide FillPrice;
  }

  lemma SettleCash(a: Account, f: Fill)
    requires f.quantity > 0 && Quantity(a.shares, f.ticker) >= 0
    ensures Settle(a, f).cash == a.cash - Outlay(f)
  {
    hide AverageCost;
  }

  /** A batch commits exactly when its orders are acceptable and their fills can be paid for. It
      then has one fill for each order, in order; cash is what is left, in cents; and each
      position has moved by what was ordered. */
  lemma CommitsIff(a: Account, orders: seq<Order>, p: Policy)
    requires Sound(a)
    ensures Execute(a, orders, p).Ok? <==> Acceptable(a, orders, p) && Spent(FillsOf(orders, p)) <= a.cash
    ensures Execute(a, orders, p).Ok? ==>
            var done := Execute(a, orders, p).value;
            && done.1 == FillsOf(orders, p)
            && done.0.cash == Cents(a.cash - Spent(done.1))
            && forall t :: Quantity(done.0.shares, t) == Quantity(a.shares, t) + Signed(orders, t)
  {
    hide RunOrders, OrderAccepted, FillOf, WholeShares, Signed, Cents, Spent;
    RunsIff(a, [], {}, orders, p);
    RunCash(a, [], {}, orders, p);
    RunFills(a, [], {}, orders, p);
    NothingSpent();
    forall t { RunShares(a, [], {}, orders, p, t); }
    if RunOrders(a, [], {}, orders, p).Ok? { assert [] + FillsOf(orders, p) == FillsOf(orders, p); }
  }

  lemma NothingSpent()
    ensures Spent([]) == 0.0
  {}
}
