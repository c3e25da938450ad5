/** One cycle: mark the book, run the risk gate, trade, reconcile, build the record and append it,
    rolling back where the program does. */
module Cycle {
  import opened Names
  import opened Reals
  import opened Wrappers
  import opened Rounding
  import opened Broker
  import opened BrokerLaws
  import opened Orders
  import opened RiskGate
  import opened RiskEvaluation
  import Sums

  datatype CycleError =
    | MissingMarks | MissingBundle
    | BrokerFailure(cause: BrokerError)
    | OrderFailure(why: OrderError)
    | NegativeCashFound | ForbiddenShortFound
    | BuildUnreadable | RecordUnbound
    | LedgerRefused

  datatype Proposal = Proposal(weights: Book, cash: real, gross: real)

  /** The master portfolio of an institutional fund. */
  datatype Master = Master(mandateId: Name, asOf: int, proposal: Proposal, allocators: map<Name, real>)

  /** The two generations of funds: a legacy one is given a proposal and strategy weights, an
      institutional one a master portfolio that yields both. */
  datatype Fund =
    | Legacy(direct: Proposal, strategies: map<Name, real>)
    | Institutional(mandateId: Name, master: Master)

  /** What a cycle is given. `bundle` is the dossier's quant research bundle, `buildReadable` says
      that the files the build fingerprint hashes can be read, and `ledgerAccepts` stands for the
      receipt ledger's append. */
  datatype CycleInput = CycleInput(
    tickers: set<Name>, marks: map<Name, real>, fund: Fund, asOf: int, bundle: Option<Name>,
    policy: RiskGate.Policy, sectors: map<Name, Name>, buildReadable: bool, ledgerAccepts: bool)

  function ProposalOf(c: CycleInput): Proposal { if c.fund.Legacy? then c.fund.direct else c.fund.master.proposal }

  function Proposed(c: CycleInput): Book { ProposalOf(c).weights }

  function Allocations(c: CycleInput): map<Name, real> {
    if c.fund.Legacy? then c.fund.strategies else c.fund.master.allocators
  }

  ghost predicate ValidInput(c: CycleInput) {
    Coherent(c.policy) && !c.policy.allowShorting && forall t | t in c.marks :: c.marks[t] > 0.0
  }

  datatype Receipt = Receipt(
    decision: Decision, orders: seq<Order>, fills: seq<Fill>,
    equityBefore: real, cashBefore: real, cashAfter: real, navAfter: real)

  /** A cycle record, with the traces its validator compares. */
  datatype CycleRecord = CycleRecord(
    fund: Fund, secondSchema: bool, asOf: int, proposal: Proposal, master: Option<Master>,
    bundle: Option<Name>, dossierBundle: Option<Name>, receipt: Receipt)

  /** The validator of a record: its traces match its fund's generation. */
  predicate RecordValid(r: CycleRecord) {
    match r.fund
    case Institutional(mandateId, _) =>
      && r.secondSchema && r.master.Some? && r.bundle.Some?
      && r.dossierBundle == r.bundle
      && r.master.value.mandateId == mandateId && r.master.value.asOf == r.asOf
      && r.master.value.proposal.weights == r.proposal.weights
      && Abs(r.master.value.proposal.cash - r.proposal.cash) <= TOLERANCE
      && Abs(r.master.value.proposal.gross - r.proposal.gross) <= TOLERANCE
    case Legacy(_, _) => !r.secondSchema && r.master.None? && r.bundle.None?
  }

  function RecordOf(c: CycleInput, receipt: Receipt): CycleRecord {
    var master := if c.fund.Institutional? then Some(c.fund.master) else None;
    CycleRecord(c.fund, master.Some?, c.asOf, ProposalOf(c), master, c.bundle, c.bundle, receipt)
  }

  /** What the record needs of the inputs: a legacy dossier without a quant bundle, or a bundle and
      a master portfolio of the fund's own mandate at the case's own time. */
  predicate Bound(c: CycleInput) {
    match c.fund
    case Legacy(_, _) => c.bundle.None?
    case Institutional(mandateId, master) =>
      c.bundle.Some? && master.mandateId == mandateId && master.asOf == c.asOf
  }

  lemma RecordValidIff(c: CycleInput, receipt: Receipt)
    ensures RecordValid(RecordOf(c, receipt)) <==> Bound(c)
  {}

  /** The step between trading and the ledger cannot raise. */
  predicate RecordBuilds(c: CycleInput) { c.buildReadable && Bound(c) }

  /** Book weights the cycle starts from: none when nothing is held. */
  function CurrentWeights(a: Account, marks: map<Name, real>): Result<Book, BrokerError> {
    if a.shares == map[] then Ok(map[]) else WeightsOf(a, marks)
  }

  /** Weights of a sound account at positive marks are long-only. */
  lemma CurrentWeightsLong(a: Account, marks: map<Name, real>)
    requires Sound(a) && forall t | t in marks :: marks[t] > 0.0
    ensures CurrentWeights(a, marks).Ok? ==> LongOnly(CurrentWeights(a, marks).value)
  {
    hide RawEquity, CentsEven;
    var r := CurrentWeights(a, marks);
    if r.Ok? && a.shares != map[] {
      var equity := Equity(a, marks).value;
      forall t | t in r.value ensures r.value[t] >= 0.0 {
        var worth := Worth(a.shares, marks)(t);
        PositiveWorth(a.shares[t], marks[t], worth);
        PositiveRatio(worth, equity, worth / equity);
      }
    }
  }

  lemma PositiveWorth(q: int, m: real, w: real)
    requires q > 0 && m > 0.0 && w == q as real * m
    ensures w > 0.0
  {}

  lemma PositiveRatio(w: real, e: real, r: real)
    requires w > 0.0 && e > 0.0 && r == w / e
    ensures r > 0.0
  {}

  lemma RawEquityNonNegative(a: Account, marks: map<Name, real>)
    requires Sound(a) && a.cash >= 0.0 && forall t | t in marks :: marks[t] > 0.0
    ensures RawEquity(a, marks) >= 0.0
  {
    hide Sums.Total;
    forall t | t in a.shares ensures Worth(a.shares, marks)(t) >= 0.0 {
      if t in marks { PositiveWorth(a.shares[t], marks[t], Worth(a.shares, marks)(t)); }
    }
    Sums.TotalNonNegative(a.shares.Keys, Worth(a.shares, marks));
  }

  /** What the gate hands to order construction is long-only and leaves the cash minimum. */
  lemma FinalBook(proposal: Book, c: Book, p: RiskGate.Policy, sectors: map<Name, Name>)
    requires Coherent(p) && !p.allowShorting
    ensures LongOnly(Final(proposal, c, p, sectors))
    ensures Classified(proposal, c, p, sectors) ==> Net(Final(proposal, c, p, sectors)) <= 1.0 - p.minCash
    ensures NetWithinTolerance(Final(proposal, c, p, sectors), p)
  {
    hide Sums.Total, Routed, Net, Gross, Clamped, SectorExposure, NetWithinTolerance, Turnover;
    RoutedIsSafe(proposal, c, p, sectors);
    if Classified(proposal, c, p, sectors) {
      DustKeepsLimits(Routed(proposal, c, p, sectors), p, sectors);
    }
    NetReCheckSilent(proposal, c, p, sectors);
  }

  /** Whether the cycle trades: the gate approves, and the proposal is not just the held book. */
  ghost predicate Trading(a: Account, c: CycleInput, current: Book)
    requires Coherent(c.policy)
  {
    && Classified(Proposed(c), current, c.policy, c.sectors)
    && StrategiesWithin(Allocations(c), c.policy)
    && !(a.shares != map[] && Proposed(c) == current)
  }

  function TradePlan(a: Account, c: CycleInput, current: Book, equity: real): Rebalance
    requires Coherent(c.policy)
  {
    Rebalance(Final(Proposed(c), current, c.policy, c.sectors), a.shares, c.marks, equity)
  }

  /** Cash plus positions, as the reconciliation adds them up again. */
  method CalculatedNav(broker: SimBroker, marks: map<Name, real>) returns (nav: real, shortFound: bool)
    requires broker.shares.Keys <= marks.Keys
    ensures nav == RawEquity(broker.State(), marks)
    ensures shortFound <==> exists t :: t in broker.shares && broker.shares[t] < 0
  {
    hide Sums.Total;
    nav, shortFound := broker.cash, false;
    var shares := broker.shares;
    var todo := shares.Keys;
    Sums.TotalEmpty(Worth(shares, marks));
    assert shares.Keys - todo == {};
    while todo != {}
      invariant todo <= shares.Keys
      invariant nav == broker.cash + Sums.Total(shares.Keys - todo, Worth(shares, marks))
      invariant shortFound <==> exists t :: t in shares && t !in todo && shares[t] < 0
    {
      var t := Least(todo);
      Sums.TotalRemove(shares.Keys - (todo - {t}), Worth(shares, marks), t);
      assert shares.Keys - (todo - {t}) - {t} == shares.Keys - todo;
      nav := nav + shares[t] as real * marks[t];
      if shares[t] < 0 { shortFound := true; }
      todo := todo - {t};
    }
    assert shares.Keys - todo == shares.Keys;
  }

  /** What the trading step leaves: the plan's targets, or an untouched account. */
  ghost predicate Traded(
      before: Account, after: Account, c: CycleInput, current: Book, equity: real,
      id: OrderId, orders: seq<Order>, fills: seq<Fill>)
    requires ValidInput(c) && Sound(before)
  {
    && (!Trading(before, c, current) ==> after == before && orders == [] && fills == [])
    && (Trading(before, c, current) ==>
          var b := TradePlan(before, c, current, equity);
          && Priced(b) && orders == AllOrders(b, id)
          && Execute(before, orders, c.policy) == Ok((after, fills))
          && forall t :: Quantity(after.shares, t) == PlannedQuantity(before, c, current, equity, t))
    && ((forall o | o in orders :: Adverse(o.reference, o.side, c.policy)) ==>
          Abs(CentsEven(RawEquity(after, c.marks)) + Charged(fills) - equity) <= 0.005 * (|fills| + 3) as real)
  }

  /** The receipt a cycle leaves, and what is true of the account it leaves it with. */
  ghost predicate Settled(
      before: Account, after: Account, c: CycleInput, current: Book, id: OrderId, rec: Receipt)
    requires ValidInput(c) && Sound(before)
  {
    && rec.equityBefore == CentsEven(RawEquity(before, c.marks))
    && rec.cashBefore == before.cash && rec.cashAfter == after.cash
    && rec.navAfter == CentsEven(RawEquity(after, c.marks))
    && rec.decision.finalWeights == Final(Proposed(c), current, c.policy, c.sectors)
    && (rec.decision.approved <==>
          Classified(Proposed(c), current, c.policy, c.sectors) && StrategiesWithin(Allocations(c), c.policy))
    && Traded(before, after, c, current, rec.equityBefore, id, rec.orders, rec.fills)
  }

  function PlannedQuantity(a: Account, c: CycleInput, current: Book, equity: real, t: Name): int
    requires Coherent(c.policy) && forall t | t in c.marks :: c.marks[t] > 0.0
  {
    var b := TradePlan(a, c, current, equity);
    if t in Tickers(b) && t in c.marks then Target(b, t) else 0
  }

  /** The ways a long-only trade can fail. */
  predicate TradeError(e: CycleError) {
    e == OrderFailure(MissingOrderMark) || e == BrokerFailure(InvalidFill) || e == BrokerFailure(NegativeCash)
  }

  /** Why trading a plan fails, if it does. */
  ghost function TradeFailure(a: Account, b: Rebalance, id: OrderId, p: RiskGate.Policy): Option<CycleError>
    requires Sound(a)
  {
    if !Priced(b) then Some(OrderFailure(MissingOrderMark))
    else match Execute(a, AllOrders(b, id), p)
         case Err(e) => Some(BrokerFailure(e))
         case Ok(_) => None
  }

  /** Trades the approved book; the broker either reaches the plan's targets or is untouched. */
  method Trade(broker: SimBroker, b: Rebalance, id: OrderId, p: RiskGate.Policy)
    returns (r: Result<(seq<Order>, seq<Fill>), CycleError>)
    requires broker.Valid() && !p.allowShorting && p.slippageBps > 0.0 && IdsTellTickersApart(id)
    requires b.held == broker.shares && LongTargets(b) && forall t | t in b.marks :: b.marks[t] > 0.0
    modifies broker
    ensures broker.Valid()
    ensures r.Err? ==> broker.State() == old(broker.State())
    ensures r.Err? ==> TradeError(r.error) && TradeFailure(old(broker.State()), b, id, p) == Some(r.error)
    ensures r.Ok? ==>
      && Priced(b) && r.value.0 == AllOrders(b, id)
      && Execute(old(broker.State()), r.value.0, p) == Ok((broker.State(), r.value.1))
  {
    hide Execute, AllOrders, LongTargets, IdsTellTickersApart, Sound;
    var built := BuildOrders(b, id);
    if built.Err? { return Err(OrderFailure(built.error)); }
    OnlyCashRefuses(broker.State(), b, id, p);
    var fills := broker.ExecuteBatch(built.value, p);
    if fills.Err? { return Err(BrokerFailure(fills.error)); }
    r := Ok((built.value, fills.value));
  }

  /** Orders and fills of an approved decision; nothing if it is rejected or only holds the book. */
  method TradeIfApproved(
      broker: SimBroker, c: CycleInput, current: Book, equity: real, decision: Decision, id: OrderId)
    returns (r: Result<(seq<Order>, seq<Fill>), CycleError>)
    requires broker.Valid() && ValidInput(c) && IdsTellTickersApart(id)
    requires equity == CentsEven(RawEquity(broker.State(), c.marks))
    requires decision.finalWeights == Final(Proposed(c), current, c.policy, c.sectors)
    requires decision.approved <==>
      (Classified(Proposed(c), current, c.policy, c.sectors) && StrategiesWithin(Allocations(c), c.policy))
    requires broker.shares.Keys <= c.marks.Keys
    modifies broker
    ensures broker.Valid() && broker.shares.Keys <= c.marks.Keys
    ensures r.Err? ==> broker.State() == old(broker.State()) && TradeError(r.error)
    ensures r.Err? ==>
      && Trading(old(broker.State()), c, current)
      && TradeFailure(old(broker.State()), TradePlan(old(broker.State()), c, current, equity), id, c.policy)
         == Some(r.error)
    ensures r.Ok? ==>
      Traded(old(broker.State()), broker.State(), c, current, equity, id, r.value.0, r.value.1)
  {
    hide RawEquity, CentsEven, Execute, Final, Classified, LongTargets, PlannedQuantity;
    ghost var a := broker.State();
    var hold := broker.shares != map[] && Proposed(c) == current;
    if decision.approved && !hold {
      var plan := Rebalance(decision.finalWeights, broker.shares, c.marks, equity);
      RawEquityNonNegative(a, c.marks);
      CentsEvenNear(RawEquity(a, c.marks));
      FinalBook(Proposed(c), current, c.policy, c.sectors);
      PlanIsLong(plan);
      r := Trade(broker, plan, id, c.policy);
      if r.Ok? { TradeSettles(a, plan, id, c, current, r.value.0, broker.State(), r.value.1); }
    } else {
      UntradedReceipt(RawEquity(a, c.marks), []);
      r := Ok(([], []));
    }
  }

  /** The cycle's own reconciliation, on whatever state it finds: it restores the state before
      execution if cash is negative or a position short. Adding up NAV again cannot disagree. */
  method Reconcile(broker: SimBroker, before: Account, marks: map<Name, real>)
    returns (r: Result<real, CycleError>)
    requires broker.shares.Keys <= marks.Keys
    modifies broker
    ensures r.Ok? <==> old(broker.cash >= 0.0 && forall t | t in broker.shares :: broker.shares[t] >= 0)
    ensures r.Ok? ==>
      broker.State() == old(broker.State()) && r.value == CentsEven(RawEquity(broker.State(), marks))
    ensures r.Err? ==> broker.State() == before
  {
    hide RawEquity, CentsEven;
    var nav := broker.MarkToMarket(marks);
    var calculated, shortFound := CalculatedNav(broker, marks);
    CentsEvenNear(RawEquity(broker.State(), marks));
    if broker.cash < 0.0 { broker.Restore(before); return Err(NegativeCashFound); }
    if shortFound { broker.Restore(before); return Err(ForbiddenShortFound); }
    if Abs(calculated - nav.value) > 0.01 { assert false; }
    r := Ok(nav.value);
  }

  /** The cycle reaches the risk gate. */
  ghost predicate ReachesGate(a: Account, c: CycleInput) {
    && c.tickers + a.shares.Keys <= c.marks.Keys
    && CurrentWeights(a, c.marks).Ok?
    && (c.fund.Institutional? ==> c.bundle.Some?)
  }

  /** Why the trading step fails, if it does. */
  ghost function GateFailure(a: Account, c: CycleInput, id: OrderId): Option<CycleError>
    requires ValidInput(c) && Sound(a) && CurrentWeights(a, c.marks).Ok?
  {
    var current := CurrentWeights(a, c.marks).value;
    if Trading(a, c, current)
    then TradeFailure(a, TradePlan(a, c, current, CentsEven(RawEquity(a, c.marks))), id, c.policy)
    else None
  }

  /** The cycle succeeds: it reaches the gate, whatever it trades commits, its record can be built
      and the ledger takes it. */
  ghost predicate Succeeds(a: Account, c: CycleInput, id: OrderId)
    requires ValidInput(c) && Sound(a)
  {
    ReachesGate(a, c) && GateFailure(a, c, id).None? && RecordBuilds(c) && c.ledgerAccepts
  }

  /** The error a cycle raises that does not succeed, in the order of the checks. */
  ghost function Failure(a: Account, c: CycleInput, id: OrderId): CycleError
    requires ValidInput(c) && Sound(a) && !Succeeds(a, c, id)
  {
    if !(c.tickers + a.shares.Keys <= c.marks.Keys) then MissingMarks
    else if CurrentWeights(a, c.marks).Err? then BrokerFailure(CurrentWeights(a, c.marks).error)
    else if !ReachesGate(a, c) then MissingBundle
    else if GateFailure(a, c, id).Some? then GateFailure(a, c, id).value
    else if !c.buildReadable then BuildUnreadable
    else if !Bound(c) then RecordUnbound
    else LedgerRefused
  }

  /** The cycle commits a batch that moves holdings. */
  ghost predicate Moves(a: Account, c: CycleInput, id: OrderId)
    requires ValidInput(c) && Sound(a)
  {
    && ReachesGate(a, c)
    && var current := CurrentWeights(a, c.marks).value;
       var b := TradePlan(a, c, current, CentsEven(RawEquity(a, c.marks)));
       && Trading(a, c, current) && Priced(b) && AllOrders(b, id) != []
       && Execute(a, AllOrders(b, id), c.policy).Ok?
  }

  /** A batch of orders changes the account unless it is empty. */
  lemma BatchMoves(a: Account, b: Rebalance, id: OrderId, p: RiskGate.Policy)
    requires Sound(a) && a.cash >= 0.0 && OnCents(a.cash) && Priced(b) && b.held == a.shares
    requires Execute(a, AllOrders(b, id), p).Ok?
    ensures Execute(a, AllOrders(b, id), p).value.0 == a <==> AllOrders(b, id) == []
  {
    hide Execute, AllOrders, Cents, OnCents;
    if AllOrders(b, id) == [] {
      EmptyBatch(a, p);
    } else {
      var t := OrderedTicker(b, id);
      TargetsReached(a, b, id, p, t);
    }
  }

  lemma EmptyBatch(a: Account, p: RiskGate.Policy)
    requires Sound(a) && a.cash >= 0.0 && OnCents(a.cash)
    ensures Execute(a, [], p) == Ok((a, []))
  {
    hide Cents, OnCents;
    CentsNear(a.cash);
  }

  lemma OrderedTicker(b: Rebalance, id: OrderId) returns (t: Name)
    requires Priced(b) && AllOrders(b, id) != []
    ensures t in Tickers(b) && Delta(b, t) != 0
  {
    hide Delta, OrderFor;
    var o := AllOrders(b, id)[0];
    OrdersOnBuilt(b, id, Sell, Tickers(b));
    OrdersOnBuilt(b, id, Buy, Tickers(b));
    t := o.ticker;
  }

  /** What a trading step that did not fail says of the account and of the cycle's end. */
  lemma TradedMoves(
      a: Account, after: Account, c: CycleInput, current: Book, id: OrderId, orders: seq<Order>, fills: seq<Fill>)
    requires ValidInput(c) && Sound(a) && a.cash >= 0.0 && OnCents(a.cash)
    requires ReachesGate(a, c) && CurrentWeights(a, c.marks) == Ok(current)
    requires Traded(a, after, c, current, CentsEven(RawEquity(a, c.marks)), id, orders, fills)
    ensures after == a <==> !Moves(a, c, id)
    ensures Succeeds(a, c, id) <==> RecordBuilds(c) && c.ledgerAccepts
    ensures !Succeeds(a, c, id) ==>
      Failure(a, c, id)
      == if !c.buildReadable then BuildUnreadable else if !Bound(c) then RecordUnbound else LedgerRefused
  {
    hide RawEquity, CentsEven, Execute, Final, Classified, StrategiesWithin, AllOrders, OnCents, CurrentWeights,
      PlannedQuantity, Adverse, Charged;
    if Trading(a, c, current) {
      BatchMoves(a, TradePlan(a, c, current, CentsEven(RawEquity(a, c.marks))), id, c.policy);
    }
  }

  /** A cycle succeeds exactly when it reaches the gate, its batch commits, its record can be built
      and the ledger takes it; otherwise it raises its first failure. A refusal by the ledger
      rolls the batch back. A cycle that fails leaves the broker as it was if and only if its
      record can be built or it moved nothing: the build fingerprint and the record's validator
      run after the batch has committed, outside any rollback. A success settles the receipt. */
  method RunCycle(broker: SimBroker, c: CycleInput, id: OrderId) returns (r: Result<CycleRecord, CycleError>)
    requires broker.Valid() && ValidInput(c) && IdsTellTickersApart(id)
    modifies broker
    ensures broker.Valid()
    ensures r.Ok? <==> Succeeds(old(broker.State()), c, id)
    ensures r.Err? ==> r.error == Failure(old(broker.State()), c, id)
    ensures r.Ok? ==> c.ledgerAccepts && RecordBuilds(c)
    ensures RecordBuilds(c) && !c.ledgerAccepts ==> r.Err? && broker.State() == old(broker.State())
    ensures r.Err? ==>
      (broker.State() == old(broker.State()) <==> RecordBuilds(c) || !Moves(old(broker.State()), c, id))
    ensures r.Err? ==>
      r.error in {MissingMarks, MissingBundle, BuildUnreadable, RecordUnbound, LedgerRefused}
      || TradeError(r.error) || r.error == BrokerFailure(NonPositiveEquity)
    ensures r.Ok? ==>
      && CurrentWeights(old(broker.State()), c.marks).Ok?
      && r.value == RecordOf(c, r.value.receipt) && RecordValid(r.value)
      && Settled(old(broker.State()), broker.State(), c,
                 CurrentWeights(old(broker.State()), c.marks).value, id, r.value.receipt)
  {
    hide RawEquity, CentsEven, Execute, Final, Classified, Traded, WeightsAt, Moves, OnCents, RecordValid, Bound,
      IdsTellTickersApart, StrategiesWithin, Trading, AllOrders, Coherent, NetWithinTolerance, Succeeds, Failure,
      TradeFailure;
    ghost var a := broker.State();
    if !ReachesGate(a, c) { StopsEarly(a, c, id); }
    if !(c.tickers + broker.shares.Keys <= c.marks.Keys) { return Err(MissingMarks); }
    var marked := broker.MarkToMarket(c.marks);
    var equityBefore, cashBefore := marked.value, broker.cash;
    var weights := CurrentWeights(broker.State(), c.marks);
    if weights.Err? { return Err(BrokerFailure(weights.error)); }
    var current := weights.value;
    if c.fund.Institutional? && c.bundle.None? { return Err(MissingBundle); }
    FinalBook(Proposed(c), current, c.policy, c.sectors);
    var decision, clamps := EvaluateRisk(Proposed(c), c.policy, current, c.sectors, Allocations(c));
    var beforeExecution := broker.State();
    var traded := TradeIfApproved(broker, c, current, equityBefore, decision, id);
    if traded.Err? {
      StopsAtTrade(a, c, current, id, traded.error);
      return Err(traded.error);
    }
    TradedMoves(a, broker.State(), c, current, id, traded.value.0, traded.value.1);
    var nav := Reconcile(broker, beforeExecution, c.marks);
    var receipt := Receipt(
      decision, traded.value.0, traded.value.1, equityBefore, cashBefore, broker.cash, nav.value);
    if !c.buildReadable { return Err(BuildUnreadable); }
    var record := RecordOf(c, receipt);
    RecordValidIff(c, receipt);
    if !RecordValid(record) { return Err(RecordUnbound); }
    if !c.ledgerAccepts {
      broker.Restore(beforeExecution);
      return Err(LedgerRefused);
    }
    r := Ok(record);
  }

  /** What an exit before the gate says of the cycle. */
  lemma StopsEarly(a: Account, c: CycleInput, id: OrderId)
    requires ValidInput(c) && Sound(a) && !ReachesGate(a, c)
    ensures !Moves(a, c, id) && !Succeeds(a, c, id)
    ensures Failure(a, c, id) ==
            if !(c.tickers + a.shares.Keys <= c.marks.Keys) then MissingMarks
            else if CurrentWeights(a, c.marks).Err? then BrokerFailure(CurrentWeights(a, c.marks).error)
            else MissingBundle
  {}

  /** What a failed trade says of it. */
  lemma StopsAtTrade(a: Account, c: CycleInput, current: Book, id: OrderId, e: CycleError)
    requires ValidInput(c) && Sound(a) && ReachesGate(a, c) && CurrentWeights(a, c.marks) == Ok(current)
    requires Trading(a, c, current)
    requires TradeFailure(a, TradePlan(a, c, current, CentsEven(RawEquity(a, c.marks))), id, c.policy) == Some(e)
    ensures !Moves(a, c, id) && !Succeeds(a, c, id) && Failure(a, c, id) == e
  {
    hide RawEquity, CentsEven, Execute, Final, Trading, AllOrders, CurrentWeights, RecordBuilds;
  }

  lemma PlanIsLong(b: Rebalance)
    requires b.equity >= 0.0 && LongOnly(b.weights)
    ensures LongTargets(b)
  {}

  lemma UntradedReceipt(raw: real, fills: seq<Fill>)
    requires fills == []
    ensures Abs(CentsEven(raw) + Charged(fills) - CentsEven(raw)) <= 0.005 * (|fills| + 3) as real
  {}

  lemma TradeSettles(
      a: Account, b: Rebalance, id: OrderId, c: CycleInput, current: Book,
      orders: seq<Order>, after: Account, fills: seq<Fill>)
    requires Sound(a) && ValidInput(c) && IdsTellTickersApart(id) && LongTargets(b)
    requires b == TradePlan(a, c, current, b.equity) && Priced(b)
    requires b.equity == CentsEven(RawEquity(a, c.marks))
    requires orders == AllOrders(b, id) && Execute(a, orders, c.policy) == Ok((after, fills))
    ensures forall t :: Quantity(after.shares, t) == PlannedQuantity(a, c, current, b.equity, t)
    ensures after.shares.Keys <= c.marks.Keys
    ensures (forall o | o in orders :: Adverse(o.reference, o.side, c.policy)) ==>
      Abs(CentsEven(RawEquity(after, c.marks)) + Charged(fills) - b.equity) <= 0.005 * (|fills| + 3) as real
  {
    hide RawEquity, CentsEven, Execute, Final, AllOrders, Target, LongTargets, Adverse, IdsTellTickersApart;
    forall t ensures Quantity(after.shares, t) == PlannedQuantity(a, c, current, b.equity, t) {
      TargetsReached(a, b, id, c.policy, t);
    }
    assert Sound(after) by { ExecuteSound(a, orders, c.policy); }
    forall t | t in after.shares ensures t in c.marks {
      assert Quantity(after.shares, t) > 0;
    }
    if forall o | o in orders :: Adverse(o.reference, o.side, c.policy) {
      AllOrdersFillable(b, id);
      RestoredNavNearEquity(a, orders, c.policy, c.marks);
    }
  }

  /** A cycle the gate approves cannot fail for cash while the bound on its orders' costs, known
      before it trades, fits the cash minimum. */
  lemma ApprovedBatchCommits(a: Account, c: CycleInput, current: Book, id: OrderId)
    requires Sound(a) && a.cash >= 0.0 && ValidInput(c) && IdsTellTickersApart(id)
    requires Classified(Proposed(c), current, c.policy, c.sectors)
    requires var b := TradePlan(a, c, current, CentsEven(RawEquity(a, c.marks)));
             && Priced(b)
             && (forall o | o in AllOrders(b, id) :: FillPrice(o, c.policy) > 0.0)
             && CostsBound(AllOrders(b, id), c.policy) <= c.policy.minCash * b.equity - 0.005
    ensures var b := TradePlan(a, c, current, CentsEven(RawEquity(a, c.marks)));
            Execute(a, AllOrders(b, id), c.policy).Ok?
  {
    hide RawEquity, CentsEven, Execute, Final, AllOrders, Net, Classified, CostsBound, FillPrice, IdsTellTickersApart;
    var b := TradePlan(a, c, current, CentsEven(RawEquity(a, c.marks)));
    RawEquityNonNegative(a, c.marks);
    CentsEvenNear(RawEquity(a, c.marks));
    FinalBook(Proposed(c), current, c.policy, c.sectors);
    PlanIsLong(b);
    AffordableOrdersCommit(a, b, id, c.policy, c.policy.minCash);
  }

  // --------------------------------------------- fills without a record

  /** The policy defaults. */
  const HOUSE_POLICY: RiskGate.Policy :=
    Policy(0.15, 0.9, 0.9, 0.3, 0.1, 0.35, 0.6, 5.0, 5.0, false, false)

  const STRANDED_BOOK: Book := map["AAA" := 0.1]

  /** A legacy fund of two equal strategies whose dossier carries a quant bundle. */
  const STRANDED_INPUT: CycleInput :=
    CycleInput({"AAA"}, map["AAA" := 10.0],
               Legacy(Proposal(STRANDED_BOOK, 0.9, 0.1), map["core" := 0.5, "tilt" := 0.5]), 0, Some("bundle"),
               HOUSE_POLICY, map["AAA" := "Technology"], true, true)

  const STRANDED_ACCOUNT: Account := Account(1000.0, map[], map[])

  lemma StrandedSums(f: Name -> real)
    ensures Sums.Total({"AAA"}, f) == f("AAA")
  {
    hide Sums.Total;
    Sums.TotalRemove({"AAA"}, f, "AAA");
    assert {"AAA"} - {"AAA"} == {};
    Sums.TotalEmpty(f);
  }

  lemma StrandedSector(s: Name)
    ensures AllClassified(STRANDED_BOOK, STRANDED_INPUT.sectors)
    ensures SectorExposure(STRANDED_BOOK, STRANDED_INPUT.sectors, s) <= 0.1
  {
    hide Sums.Total;
    var w, sectors := STRANDED_BOOK, STRANDED_INPUT.sectors;
    StrandedSums(Long(w));
    Sums.TotalEmpty(Long(w));
    assert Members(w, sectors, s) == if s == "Technology" then {"AAA"} else {};
  }

  lemma StrandedExposures()
    ensures Net(STRANDED_BOOK) == 0.1 && Gross(STRANDED_BOOK) == 0.1 && Turnover(STRANDED_BOOK, map[]) == 0.05
  {
    hide Sums.Total;
    var w, none: Book := STRANDED_BOOK, map[];
    assert w.Keys == {"AAA"} && w.Keys + none.Keys == {"AAA"};
    StrandedSums(RiskGate.Signed(w));
    StrandedSums(Sized(w));
    StrandedSums(RiskGate.Gap(w, none));
  }

  lemma StrandedFinal()
    ensures ValidInput(STRANDED_INPUT) && Net(STRANDED_BOOK) == 0.1
    ensures Classified(STRANDED_BOOK, map[], HOUSE_POLICY, STRANDED_INPUT.sectors)
    ensures Final(STRANDED_BOOK, map[], HOUSE_POLICY, STRANDED_INPUT.sectors) == STRANDED_BOOK
  {
    hide Sums.Total, Clamped, SectorExposure, Net, Gross, Turnover;
    var w, p, sectors := STRANDED_BOOK, HOUSE_POLICY, STRANDED_INPUT.sectors;
    StrandedExposures();
    forall s ensures SectorExposure(w, sectors, s) <= p.maxSector { StrandedSector(s); }
    ClampedFixesSafe(w, p, sectors);
    assert WithoutDust(w) == w;
  }

  lemma StrandedEquity()
    ensures RawEquity(STRANDED_ACCOUNT, STRANDED_INPUT.marks) == 1000.0
    ensures CentsEven(1000.0) == 1000.0 && OnCents(1000.0)
  {
    Sums.TotalEmpty(Worth(STRANDED_ACCOUNT.shares, STRANDED_INPUT.marks));
    assert STRANDED_ACCOUNT.shares.Keys == {};
    WholeFloor(100000);
  }

  /** On that input the cycle buys ten shares and then cannot build its record: by the contract of
      `RunCycle` it raises and the broker keeps the fills. */
  lemma LegacyBundleStrandsFills(id: OrderId)
    requires IdsTellTickersApart(id)
    ensures ValidInput(STRANDED_INPUT) && Sound(STRANDED_ACCOUNT) && OnCents(STRANDED_ACCOUNT.cash)
    ensures Moves(STRANDED_ACCOUNT, STRANDED_INPUT, id) && !RecordBuilds(STRANDED_INPUT)
  {
    hide Sums.Total, Final, Classified, RawEquity, CentsEven, Execute, Net, AllOrders, IdsTellTickersApart, OnCents;
    StrandedFinal();
    StrandedEquity();
    var b := Rebalance(STRANDED_BOOK, map[], STRANDED_INPUT.marks, 1000.0);
    StrandedOrders(b, id);
    AffordableOrdersCommit(STRANDED_ACCOUNT, b, id, HOUSE_POLICY, 0.9);
  }

  lemma StrandedOrders(b: Rebalance, id: OrderId)
    requires b == Rebalance(STRANDED_BOOK, map[], STRANDED_INPUT.marks, 1000.0)
    ensures Priced(b) && |AllOrders(b, id)| == 1
    ensures CostsBound(AllOrders(b, id), HOUSE_POLICY) <= 0.9 * b.equity - 0.005
    ensures FillPrice(AllOrders(b, id)[0], HOUSE_POLICY) > 0.0
  {
    assert Tickers(b) == {"AAA"};
    StrandedDelta(b);
    assert Least({"AAA"}) == "AAA";
    assert {"AAA"} - {"AAA"} == {};
    OrdersOnStep(b, id, Sell, {"AAA"});
    OrdersOnStep(b, id, Buy, {"AAA"});
    assert AllOrders(b, id) == [OrderFor(b, id, "AAA")];
  }

  lemma StrandedDelta(b: Rebalance)
    requires b == Rebalance(STRANDED_BOOK, map[], STRANDED_INPUT.marks, 1000.0)
    ensures Delta(b, "AAA") == 10
  {
    WholeFloor(10);
  }
}
