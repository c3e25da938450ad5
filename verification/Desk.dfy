/** The research desk as a step machine: which role may run when, what its node returns, and
    how the reducers merge what it returns into the shared state. */
module Desk {
  import opened Names
  import opened Wrappers

  type EvidenceId = string
  type Digest = int

  datatype Role =
    | Coordinator | Quant | Fundamentals | EventBehavioral | Auditor
    | Bull | Bear | BaseRate | Cio | Verifier

  datatype Forecast = Forecast(
    ticker: Name, asOf: int, horizon: int, abstained: bool, evidence: set<EvidenceId>, reason: string)

  /** `output.get("evidence_ids")` */
  datatype EvidenceField = Absent | NotAList | Listed(ids: set<EvidenceId>)

  /** `output.get("forecasts")`: no list, a list with an item that fails validation, or forecasts. */
  datatype ForecastField = NoList | Invalid | Parsed(forecasts: seq<Forecast>)

  datatype Output = Output(evidence: EvidenceField, approved: bool, passed: bool, forecasts: ForecastField)

  /** What the sealed replay provider answers a role: it depends on nothing else. */
  datatype Reply = Failed(error: string) | Answered(output: Output)

  /** The role-specific part of an artifact's payload. */
  datatype Extra =
    | NoExtra
    | AuditedBundle(specialists: seq<Digest>)
    | OpeningInputs(audit: Digest, specialists: seq<Digest>)
    | SynthesisInputs(artifacts: map<Role, Digest>)
    | Checks(passed: bool)

  datatype Payload = Payload(role: Role, output: Output, extra: Extra)

  datatype Artifact = Artifact(
    role: Role, evidence: set<EvidenceId>, payload: Payload, warned: bool, contentHash: Digest)

  datatype Status = Started | Synthesized | SynthesizedAbstention | Verified | ForcedAbstention

  datatype State = State(
    artifacts: map<Role, Artifact>,
    events: map<Role, bool>,
    failed: set<Role>,
    approved: set<EvidenceId>,
    forecasts: seq<Forecast>,
    status: Status)

  /** Everything fixed for a run. `audit` is the deterministic evidence audit of the
      specialists' claims and `hash` the canonical digest. */
  datatype Case = Case(
    bundle: set<EvidenceId>, tickers: set<Name>, asOf: int, horizon: int,
    replies: Role -> Reply, audit: seq<Artifact> -> bool, hash: Payload -> Digest)

  /** What a node returns; None for a channel it does not write. */
  datatype Update = Update(
    artifact: Artifact, failed: set<Role>, approved: Option<set<EvidenceId>>,
    forecasts: Option<seq<Forecast>>, status: Option<Status>)

  const SILENT: Output := Output(Listed({}), false, false, NoList)

  // ------------------------------------------------------------------- reducers

  function MergeMaps<T>(left: map<Role, T>, right: map<Role, T>): map<Role, T> { left + right }

  function MergeRoles(left: set<Role>, right: set<Role>): set<Role> { left + right }

  function Merge(s: State, u: Update): State {
    State(MergeMaps(s.artifacts, map[u.artifact.role := u.artifact]),
          MergeMaps(s.events, map[u.artifact.role := u.artifact.warned]),
          MergeRoles(s.failed, u.failed),
          if u.approved.Some? then u.approved.value else s.approved,
          if u.forecasts.Some? then u.forecasts.value else s.forecasts,
          if u.status.Some? then u.status.value else s.status)
  }

  // ---------------------------------------------------------------------- nodes

  function Ids(o: Output): set<EvidenceId> { if o.evidence.Listed? then o.evidence.ids else {} }

  function Build(c: Case, r: Role, output: Output, extra: Extra, warned: bool): Artifact {
    var payload := Payload(r, output, extra);
    Artifact(r, Ids(output), payload, warned, c.hash(payload))
  }

  /** A provider-backed artifact; None when it cites evidence outside what is allowed. */
  function Invoke(c: Case, r: Role, extra: Extra, allowed: set<EvidenceId>): Option<Artifact> {
    match c.replies(r)
    case Failed(_) => Some(Build(c, r, SILENT, extra, true))
    case Answered(output) =>
      if Ids(output) <= allowed then Some(Build(c, r, output, extra, false)) else None
  }

  /** The abstention written without asking the provider once the auditor has failed. */
  function Synthetic(c: Case, r: Role, extra: Extra): Artifact { Build(c, r, SILENT, extra, true) }

  function Plain(a: Artifact): Update {
    Update(a, if a.warned then {a.role} else {}, None, None, None)
  }

  function SimpleNode(c: Case, r: Role): Option<Update> {
    match Invoke(c, r, NoExtra, c.bundle)
    case None => None
    case Some(a) => Some(Plain(a))
  }

  function Specialists(s: State): seq<Artifact>
    requires {Quant, Fundamentals, EventBehavioral} <= s.artifacts.Keys
  {
    [s.artifacts[Quant], s.artifacts[Fundamentals], s.artifacts[EventBehavioral]]
  }

  function SpecialistHashes(s: State): seq<Digest>
    requires {Quant, Fundamentals, EventBehavioral} <= s.artifacts.Keys
  {
    [s.artifacts[Quant].contentHash, s.artifacts[Fundamentals].contentHash,
     s.artifacts[EventBehavioral].contentHash]
  }

  function AuditNode(c: Case, s: State): Option<Update>
    requires {Quant, Fundamentals, EventBehavioral} <= s.artifacts.Keys
  {
    if !c.audit(Specialists(s)) then None
    else
      match Invoke(c, Auditor, AuditedBundle(SpecialistHashes(s)), c.bundle)
      case None => None
      case Some(a) =>
        if a.warned then Some(Update(a, {Auditor}, Some({}), None, None))
        else if !a.payload.output.approved || !a.payload.output.evidence.Listed? then None
        else if !(Ids(a.payload.output) <= c.bundle) then None
        else Some(Update(a, {}, Some(Ids(a.payload.output)), None, None))
  }

  function ReviewNode(c: Case, s: State, r: Role): Option<Update>
    requires {Quant, Fundamentals, EventBehavioral, Auditor} <= s.artifacts.Keys
  {
    var extra := OpeningInputs(s.artifacts[Auditor].contentHash, SpecialistHashes(s));
    if Auditor in s.failed then Some(Plain(Synthetic(c, r, extra)))
    else
      match Invoke(c, r, extra, s.approved)
      case None => None
      case Some(a) => Some(Plain(a))
  }

  function BlankAbstentions(c: Case, names: seq<Name>): seq<Forecast> {
    if names == [] then []
    else [Forecast(names[0], c.asOf, c.horizon, true, {}, "research model stage failed")]
         + BlankAbstentions(c, names[1..])
  }

  function SynthesisHashes(s: State): map<Role, Digest> {
    map r | r in s.artifacts && r != Coordinator :: s.artifacts[r].contentHash
  }

  function CioArtifact(c: Case, s: State): Option<Artifact> {
    var extra := SynthesisInputs(SynthesisHashes(s));
    if Auditor in s.failed then Some(Synthetic(c, Cio, extra)) else Invoke(c, Cio, extra, s.approved)
  }

  /** The synthesised forecasts, empty when any role has failed or the list is unusable. */
  function CioForecasts(s: State, a: Artifact): seq<Forecast> {
    if s.failed == {} && !a.warned && a.payload.output.forecasts.Parsed?
    then a.payload.output.forecasts.forecasts else []
  }

  function CioNode(c: Case, s: State): Option<Update> {
    match CioArtifact(c, s)
    case None => None
    case Some(a) =>
      var forecasts := CioForecasts(s, a);
      if forecasts == [] then
        Some(Update(a, s.failed + {Cio}, None, Some(BlankAbstentions(c, Sorted(c.tickers))),
                    Some(SynthesizedAbstention)))
      else
        Some(Update(a, {}, None, Some(forecasts), Some(Synthesized)))
  }

  predicate ForecastsValid(c: Case, s: State) {
    && (set f | f in s.forecasts :: f.ticker) == c.tickers
    && (forall f | f in s.forecasts :: f.asOf == c.asOf && f.horizon == c.horizon)
    && (forall f | f in s.forecasts :: f.abstained || f.evidence <= s.approved)
  }

  function Abstain(f: Forecast): Forecast {
    f.(abstained := true, evidence := {}, reason := "forecast verifier rejected synthesis")
  }

  function AbstainAll(fs: seq<Forecast>): seq<Forecast> {
    seq(|fs|, i requires 0 <= i < |fs| => Abstain(fs[i]))
  }

  function VerifierArtifact(c: Case, s: State): Option<Artifact> {
    var extra := Checks(ForecastsValid(c, s));
    if Auditor in s.failed then Some(Synthetic(c, Verifier, extra)) else Invoke(c, Verifier, extra, s.approved)
  }

  function VerifierNode(c: Case, s: State): Option<Update> {
    match VerifierArtifact(c, s)
    case None => None
    case Some(a) =>
      if !ForecastsValid(c, s) || !a.payload.output.passed then
        Some(Update(a, {}, None, Some(AbstainAll(s.forecasts)), Some(ForcedAbstention)))
      else
        Some(Update(a, {}, None, None, Some(Verified)))
  }

  // ---------------------------------------------------------------- the machine

  /** The graph's edges: a role waits for every role of the stage before its own. */
  function Preds(r: Role): set<Role> {
    match r
    case Coordinator => {}
    case Quant => {Coordinator}
    case Fundamentals => {Coordinator}
    case EventBehavioral => {Coordinator}
    case Auditor => {Quant, Fundamentals, EventBehavioral}
    case Bull => {Auditor}
    case Bear => {Auditor}
    case BaseRate => {Auditor}
    case Cio => {Bull, Bear, BaseRate}
    case Verifier => {Cio}
  }

  ghost predicate Closed(s: State) {
    forall r | r in s.artifacts :: Preds(r) <= s.artifacts.Keys
  }

  predicate Enabled(s: State, r: Role) { r !in s.artifacts && Preds(r) <= s.artifacts.Keys }

  function Node(c: Case, s: State, r: Role): Option<Update>
    requires Closed(s) && Enabled(s, r)
  {
    match r
    case Auditor => AuditNode(c, s)
    case Bull => ReviewNode(c, s, r)
    case Bear => ReviewNode(c, s, r)
    case BaseRate => ReviewNode(c, s, r)
    case Cio => CioNode(c, s)
    case Verifier => VerifierNode(c, s)
    case _ => SimpleNode(c, r)
  }

  /** A run in progress, or one that raised an integrity error. */
  datatype Run = Raised | Going(state: State)

  function Start(): State { State(map[], map[], {}, {}, [], Started) }

  lemma NodeRole(c: Case, s: State, r: Role)
    requires Closed(s) && Enabled(s, r) && Node(c, s, r).Some?
    ensures Node(c, s, r).value.artifact.role == r
  {
    hide SpecialistHashes, Specialists, SynthesisHashes, BlankAbstentions, ForecastsValid, AbstainAll, Ids;
  }

  function Exec(c: Case, s: State, r: Role): (run: Run)
    requires Closed(s) && Enabled(s, r)
    ensures run.Going? ==> Closed(run.state) && run.state.artifacts.Keys == s.artifacts.Keys + {r}
  {
    match Node(c, s, r)
    case None => Raised
    case Some(u) =>
      NodeRole(c, s, r);
      Going(Merge(s, u))
  }
}
