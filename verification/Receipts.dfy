/** Return observations derived from adjacent cycle receipts. */
module Receipts {
  import opened Names
  import opened Wrappers
  import opened Broker
  import opened BrokerLaws

  /** The fields of a stored cycle record that the derivation reads. `institutional` stands for
      the checks that a record is an institutional, historical, bundle-bearing receipt. */
  datatype CycleRecord = CycleRecord(
    asOf: int, institutional: bool, mandate: Name, equityBefore: real, navAfter: real, fills: seq<Fill>)

  datatype Observation = Observation(
    predictionTime: int, labelTime: int, entryCost: real, fillNotional: real,
    grossReturn: real, turnover: real)

  datatype SeriesError =
    | TooFewReceipts | NotInstitutional | MandateMismatch | CutoffsNotIncreasing
    | InvalidDenominator | InvalidObservation

  function FillNotional(fills: seq<Fill>): real {
    if fills == [] then 0.0
    else FillNotional(fills[..|fills| - 1]) + Notional(fills[|fills| - 1])
  }

  /** Post-trade NAV with the charged entry costs restored. */
  function CapitalBase(r: CycleRecord): real { r.navAfter + Charged(r.fills) }

  predicate UsablePair(prediction: CycleRecord) {
    CapitalBase(prediction) > 0.0 && prediction.equityBefore > 0.0
  }

  function Observe(prediction: CycleRecord, outcome: CycleRecord): Observation
    requires UsablePair(prediction)
  {
    Observation(prediction.asOf, outcome.asOf, Charged(prediction.fills), FillNotional(prediction.fills),
                outcome.equityBefore / CapitalBase(prediction) - 1.0,
                FillNotional(prediction.fills) / prediction.equityBefore)
  }

  /** Field rules of an observation record. */
  predicate ValidObservation(o: Observation) {
    o.predictionTime < o.labelTime && o.entryCost >= 0.0 && o.fillNotional >= 0.0
    && o.turnover >= 0.0 && o.grossReturn > -1.0
  }

  ghost predicate StreamAdmitted(records: seq<CycleRecord>, mandate: Name) {
    && |records| >= 2
    && (forall i | 0 <= i < |records| :: records[i].institutional && records[i].mandate == mandate)
    && (forall i | 0 <= i < |records| - 1 :: records[i].asOf < records[i + 1].asOf)
  }

  ghost predicate PairAdmitted(prediction: CycleRecord, outcome: CycleRecord) {
    UsablePair(prediction) && ValidObservation(Observe(prediction, outcome))
  }

  method CheckStream(records: seq<CycleRecord>, mandate: Name) returns (r: Option<SeriesError>)
    ensures r.None? <==> StreamAdmitted(records, mandate)
  {
    if |records| < 2 { return Some(TooFewReceipts); }
    for i := 0 to |records|
      invariant forall j | 0 <= j < i :: records[j].institutional
    {
      if !records[i].institutional { return Some(NotInstitutional); }
    }
    for i := 0 to |records|
      invariant forall j | 0 <= j < i :: records[j].mandate == mandate
    {
      if records[i].mandate != mandate { return Some(MandateMismatch); }
    }
    for i := 0 to |records| - 1
      invariant forall j | 0 <= j < i :: records[j].asOf < records[j + 1].asOf
    {
      if records[i + 1].asOf <= records[i].asOf { return Some(CutoffsNotIncreasing); }
    }
    r := None;
  }

  method DeriveObservations(records: seq<CycleRecord>, mandate: Name)
    returns (r: Result<seq<Observation>, SeriesError>)
    ensures r.Ok? <==>
      (StreamAdmitted(records, mandate)
       && forall i | 0 <= i < |records| - 1 :: PairAdmitted(records[i], records[i + 1]))
    ensures r.Ok? ==>
      |r.value| == |records| - 1
      && forall i | 0 <= i < |records| - 1 :: r.value[i] == Observe(records[i], records[i + 1])
  {
    hide Charged, FillNotional, CapitalBase;
    var refused := CheckStream(records, mandate);
    if refused.Some? { return Err(refused.value); }
    var output: seq<Observation> := [];
    for i := 0 to |records| - 1
      invariant |output| == i
      invariant forall j | 0 <= j < i ::
        PairAdmitted(records[j], records[j + 1]) && output[j] == Observe(records[j], records[j + 1])
    {
      assert PairAdmitted(records[i], records[i + 1]) <==>
        UsablePair(records[i]) && ValidObservation(Observe(records[i], records[i + 1]));
      if !UsablePair(records[i]) { return Err(InvalidDenominator); }
      var o := Observe(records[i], records[i + 1]);
      if !ValidObservation(o) { return Err(InvalidObservation); }
      output := output + [o];
    }
    r := Ok(output);
  }

  /** What an observation says of its two receipts: the base grown by the return is the next
      receipt's opening equity, and turnover is what was traded against this one's. */
  lemma ObservationMeaning(prediction: CycleRecord, outcome: CycleRecord)
    requires UsablePair(prediction)
    ensures var o := Observe(prediction, outcome);
            && (1.0 + o.grossReturn) * (prediction.navAfter + o.entryCost) == outcome.equityBefore
            && o.turnover * prediction.equityBefore == o.fillNotional
            && o.predictionTime == prediction.asOf && o.labelTime == outcome.asOf
  {
    hide Charged, FillNotional;
    Divided(outcome.equityBefore, CapitalBase(prediction), outcome.equityBefore / CapitalBase(prediction));
    Divided(FillNotional(prediction.fills), prediction.equityBefore, Observe(prediction, outcome).turnover);
  }

  lemma Divided(x: real, d: real, q: real)
    requires d > 0.0 && q == x / d
    ensures q * d == x
  {}

  /** Carried at unchanged marks, the next receipt opens at this one's NAV, and the "gross"
      return is the entry cost as a loss: restoring it to the base alone does not remove it. */
  lemma FlatMarksReturn(prediction: CycleRecord, outcome: CycleRecord)
    requires UsablePair(prediction) && outcome.equityBefore == prediction.navAfter
    ensures Observe(prediction, outcome).grossReturn * CapitalBase(prediction) == -Charged(prediction.fills)
    ensures Observe(prediction, outcome).grossReturn == 0.0 <==> Charged(prediction.fills) == 0.0
  {}

  /** The derived return is the held book's own return exactly when nothing was charged or the
      label is worthless. */
  lemma GrossIsCostFreeOnlyWithoutCosts(prediction: CycleRecord, outcome: CycleRecord)
    requires UsablePair(prediction) && prediction.navAfter > 0.0
    ensures Observe(prediction, outcome).grossReturn == outcome.equityBefore / prediction.navAfter - 1.0
            <==> Charged(prediction.fills) == 0.0 || outcome.equityBefore == 0.0
  {}
}
