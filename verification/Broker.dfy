/** The in-memory long-only broker: what one fill does to an account, what a batch does, and
    the class that runs a batch on copies and commits once. */
module Broker {
  import opened Names
  import opened Reals
  import opened Wrappers
  import opened Rounding
  import RiskGate
  import Sums

  type Policy = RiskGate.Policy

  datatype Side = Buy | Sell

  datatype Order = Order(id: Name, ticker: Name, side: Side, quantity: real, reference: real)

  /** Field rules of an order record. */
  predicate ValidOrder(o: Order) { o.quantity > 0.0 && o.reference > 0.0 }

  datatype Fill = Fill(
    orderId: Name, ticker: Name, side: Side, quantity: nat, price: real, fee: real, slippage: real)

  datatype Account = Account(cash: real, shares: map<Name, int>, costs: map<Name, real>)

  datatype BrokerError =
    | DuplicateOrder | NotWholeShares | ShortSaleDenied | InvalidFill | NegativeCash
    | MissingMark | NonPositiveEquity

  function Quantity(shares: map<Name, int>, t: Name): int { if t in shares then shares[t] else 0 }

  /** Held quantities are positive, and every holding has a cost. */
  ghost predicate Sound(a: Account) {
    a.costs.Keys == a.shares.Keys && forall t | t in a.shares :: a.shares[t] > 0
  }

  // ------------------------------------------------------------------ one order

  function Direction(s: Side): real { if s.Buy? then 1.0 else -1.0 }

  function SlippedAt(reference: real, side: Side, p: Policy): real {
    reference * (1.0 + Direction(side) * (p.slippageBps / 10000.0))
  }

  function SlippedPrice(o: Order, p: Policy): real { SlippedAt(o.reference, o.side, p) }

  function FillPrice(o: Order, p: Policy): real { Micros(SlippedPrice(o, p)) }

  /** Price given away on a fill, before it is rounded to the cent. */
  function GivenAway(price: real, reference: real, q: nat): real {
    Abs(price - reference) * q as real
  }

  /** Commission on a fill, before it is rounded to the cent. */
  function Commission(price: real, q: nat, p: Policy): real { price * q as real * (p.commissionBps / 10000.0) }

  function FeeOf(price: real, q: nat, p: Policy): real { Cents(Commission(price, q, p)) }

  predicate WholeShares(o: Order) { o.quantity.Floor as real == o.quantity && o.quantity > 0.0 }

  function FillOf(o: Order, p: Policy): Fill
    requires WholeShares(o)
  {
    var q := o.quantity.Floor;
    var price := FillPrice(o, p);
    Fill(o.id, o.ticker, o.side, q, price,
         FeeOf(price, q, p),
         Cents(GivenAway(price, o.reference, q)))
  }

  function AverageCost(held: int, cost: real, q: nat, price: real): real
    requires held >= 0 && q > 0
  {
    (cost * held as real + price * q as real) / (held + q) as real
  }

  /** Bookkeeping of one fill. */
  function Settle(a: Account, f: Fill): Account
    requires f.quantity > 0 && Quantity(a.shares, f.ticker) >= 0
  {
    var t, held := f.ticker, Quantity(a.shares, f.ticker);
    var notional := f.price * f.quantity as real;
    if f.side.Buy? then
      var cost := if t in a.costs then a.costs[t] else 0.0;
      Account(a.cash - (notional + f.fee), a.shares[t := held + f.quantity],
              a.costs[t := AverageCost(held, cost, f.quantity, f.price)])
    else if held == f.quantity then
      Account(a.cash + (notional - f.fee), a.shares - {t}, a.costs - {t})
    else
      Account(a.cash + (notional - f.fee), a.shares[t := held - f.quantity], a.costs)
  }

  /** Why an order is refused, if it is, in the order the checks are made. */
  function Refusal(a: Account, o: Order, p: Policy): Option<BrokerError> {
    if !WholeShares(o) then Some(NotWholeShares)
    else if o.side.Sell? && o.quantity.Floor > Quantity(a.shares, o.ticker) then Some(ShortSaleDenied)
    else if FillPrice(o, p) <= 0.0 then Some(InvalidFill)
    else None
  }

  /** Runs the orders on a copy of the account. */
  function RunOrders(a: Account, fills: seq<Fill>, seen: set<Name>, orders: seq<Order>, p: Policy)
    : Result<(Account, seq<Fill>), BrokerError>
    requires Sound(a)
    decreases |orders|
  {
    if orders == [] then Ok((a, fills))
    else
      var o := orders[0];
      if o.id in seen then Err(DuplicateOrder)
      else
        match Refusal(a, o, p)
        case Some(e) => Err(e)
        case None =>
          SettleSound(a, FillOf(o, p));
          RunOrders(Settle(a, FillOf(o, p)), fills + [FillOf(o, p)], seen + {o.id}, orders[1..], p)
  }

  lemma SettleSound(a: Account, f: Fill)
    requires Sound(a) && f.quantity > 0
    requires f.side.Sell? ==> f.quantity <= Quantity(a.shares, f.ticker)
    ensures Sound(Settle(a, f))
  {}

  /** A batch: all orders on a copy, a cash check, one commit rounded to the cent. */
  function Execute(a: Account, orders: seq<Order>, p: Policy): Result<(Account, seq<Fill>), BrokerError>
    requires Sound(a)
  {
    match RunOrders(a, [], {}, orders, p)
    case Err(e) => Err(e)
    case Ok(run) =>
      if run.0.cash < 0.0 then Err(NegativeCash)
      else Ok((run.0.(cash := Cents(run.0.cash)), run.1))
  }

  // ------------------------------------------------------------------ marks

  function Mark(marks: map<Name, real>, t: Name): real { if t in marks then marks[t] else 0.0 }

  function Worth(shares: map<Name, int>, marks: map<Name, real>): Name -> real {
    t => Quantity(shares, t) as real * Mark(marks, t)
  }

  /** Cash plus holdings at the marks, before any rounding. */
  function RawEquity(a: Account, marks: map<Name, real>): real {
    a.cash + Sums.Total(a.shares.Keys, Worth(a.shares, marks))
  }

  function Equity(a: Account, marks: map<Name, real>): Result<real, BrokerError> {
    if a.shares.Keys <= marks.Keys then Ok(CentsEven(RawEquity(a, marks))) else Err(MissingMark)
  }

  function WeightsAt(a: Account, marks: map<Name, real>, equity: real): map<Name, real>
    requires equity != 0.0
  {
    map t | t in a.shares :: Worth(a.shares, marks)(t) / equity
  }

  function WeightsOf(a: Account, marks: map<Name, real>): Result<map<Name, real>, BrokerError> {
    match Equity(a, marks)
    case Err(e) => Err(e)
    case Ok(equity) => if equity <= 0.0 then Err(NonPositiveEquity) else Ok(WeightsAt(a, marks, equity))
  }

  // ------------------------------------------------------------------ the class

  class SimBroker {
    var cash: real
    var shares: map<Name, int>
    var costs: map<Name, real>

    function State(): Account
      reads this
    {
      Account(cash, shares, costs)
    }

    ghost predicate Valid()
      reads this
    {
      Sound(State()) && cash >= 0.0 && OnCents(cash)
    }

    constructor (startingCash: real)
      requires startingCash > 0.0
      ensures Valid()
      ensures State() == Account(CentsEven(startingCash), map[], map[])
    {
      CentsEvenNear(startingCash);
      cash := CentsEven(startingCash);
      shares := map[];
      costs := map[];
    }

    method Restore(state: Account)
      modifies this
      ensures State() == state
    {
      cash := state.cash;
      shares := state.shares;
      costs := state.costs;
    }

    method MarkToMarket(marks: map<Name, real>) returns (r: Result<real, BrokerError>)
      ensures r == Equity(State(), marks)
    {
      hide Sums.Total;
      var total := cash;
      var todo := shares.Keys;
      Sums.TotalEmpty(Worth(shares, marks));
      assert shares.Keys - todo == {};
      while todo != {}
        invariant todo <= shares.Keys
        invariant shares.Keys - todo <= marks.Keys
        invariant total == cash + Sums.Total(shares.Keys - todo, Worth(shares, marks))
      {
        var t := Least(todo);
        if t !in marks { return Err(MissingMark); }
        Sums.TotalRemove(shares.Keys - (todo - {t}), Worth(shares, marks), t);
        assert shares.Keys - (todo - {t}) - {t} == shares.Keys - todo;
        total := total + shares[t] as real * marks[t];
        todo := todo - {t};
      }
      assert shares.Keys - todo == shares.Keys;
      r := Ok(CentsEven(total));
    }

    /** All or nothing: the new state is the batch's, or the old one. */
    method ExecuteBatch(orders: seq<Order>, p: Policy) returns (r: Result<seq<Fill>, BrokerError>)
      requires Valid() && !p.allowShorting
      modifies this
      ensures Valid()
      ensures match Execute(old(State()), orders, p)
              case Ok(done) => r == Ok(done.1) && State() == done.0
              case Err(e) => r == Err(e) && State() == old(State())
    {
      hide FillPrice, AverageCost;
      var now := State();
      var fills: seq<Fill> := [];
      var seen: set<Name> := {};
      var i := 0;
      while i < |orders|
        invariant 0 <= i <= |orders|
        invariant State() == old(State()) && Sound(now)
        invariant RunOrders(old(State()), [], {}, orders, p) == RunOrders(now, fills, seen, orders[i..], p)
      {
        var o := orders[i];
        assert orders[i..][0] == o && orders[i..][1..] == orders[i + 1..];
        if o.id in seen { return Err(DuplicateOrder); }
        seen := seen + {o.id};
        var refusal := Refusal(now, o, p);
        if refusal.Some? { return Err(refusal.value); }
        var fill := FillOf(o, p);
        SettleSound(now, fill);
        now := Settle(now, fill);
        fills := fills + [fill];
        i := i + 1;
      }
      assert orders[i..] == [];
      if now.cash < 0.0 { return Err(NegativeCash); }
      CentsNear(now.cash);
      cash := Cents(now.cash);
      shares := now.shares;
      costs := now.costs;
      r := Ok(fills);
    }
  }
}
