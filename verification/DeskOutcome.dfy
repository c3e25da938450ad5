/** The exact outcome of a desk run: when the synthesised forecasts stand, and that they stand
    unaltered. */
module DeskOutcome {
  import opened Names
  import opened Desk
  import opened DeskLaws

  /** The forecasts the CIO answers with, if it answers with a usable list. */
  function Synthesis(c: Case): seq<Forecast> {
    var reply := c.replies(Cio);
    if reply.Answered? && reply.output.forecasts.Parsed? then reply.output.forecasts.forecasts else []
  }

  /** Every role that has run was answered, the CIO with forecasts. */
  ghost predicate Unbroken(c: Case, done: set<Role>) {
    && (forall r | r in done && r != Verifier :: c.replies(r).Answered?)
    && (Cio in done ==> Synthesis(c) != [])
  }

  /** The verifier passes, and the deterministic checks hold of the synthesis against the
      evidence the auditor approved. */
  ghost predicate VerifierAgrees(c: Case) {
    && c.replies(Verifier).Answered? && c.replies(Verifier).output.passed
    && c.replies(Auditor).Answered?
    && ForecastsValid(c, Start().(forecasts := Synthesis(c), approved := Ids(c.replies(Auditor).output)))
  }

  /** One forecast for each of the case's tickers, in order, at the case's time and horizon. */
  ghost predicate PerTicker(c: Case, fs: seq<Forecast>) {
    |fs| == |Sorted(c.tickers)|
    && forall i | 0 <= i < |fs| ::
         fs[i].ticker == Sorted(c.tickers)[i] && fs[i].asOf == c.asOf && fs[i].horizon == c.horizon
  }

  /** The same tickers, times and horizons, one by one. */
  ghost predicate SameSubjects(fs: seq<Forecast>, gs: seq<Forecast>) {
    |fs| == |gs|
    && forall i | 0 <= i < |fs| ::
         fs[i].ticker == gs[i].ticker && fs[i].asOf == gs[i].asOf && fs[i].horizon == gs[i].horizon
  }

  /** What the forecasts are about once the CIO has run. */
  ghost predicate Subjects(c: Case, s: State) {
    if s.failed == {} then SameSubjects(s.forecasts, Synthesis(c)) else PerTicker(c, s.forecasts)
  }

  ghost predicate Outcome(c: Case, s: State) {
    && Inv(c, s)
    && (s.failed == {} <==> Unbroken(c, s.artifacts.Keys))
    && (s.failed == {} && Cio in s.artifacts ==>
          if Verifier !in s.artifacts || VerifierAgrees(c) then s.forecasts == Synthesis(c) else AllAbstain(s.forecasts))
    && (Cio in s.artifacts ==> Subjects(c, s))
  }

  lemma StartOutcome(c: Case)
    ensures Outcome(c, Start())
  {}

  lemma OutcomeInv(c: Case, s: State)
    requires Outcome(c, s)
    ensures Inv(c, s) && Closed(s)
  {}

  /** A role other than the CIO and the verifier adds a failure exactly when it, or the auditor
      before it, was not answered. */
  lemma FailureOf(c: Case, s: State, r: Role)
    requires Inv(c, s) && Closed(s) && Enabled(s, r) && r !in {Cio, Verifier} && Exec(c, s, r).Going?
    ensures var t := Exec(c, s, r).state;
            && t.artifacts.Keys == s.artifacts.Keys + {r}
            && (t.failed == {} <==> s.failed == {} && c.replies(r).Answered?)
  {
    hide SpecialistHashes, Specialists, Ids, CioNode, VerifierNode, Preds, Vouched, AllAbstain;
  }

  lemma UnbrokenLonger(c: Case, done: set<Role>, r: Role)
    requires r !in {Cio, Verifier}
    ensures Unbroken(c, done + {r}) <==> Unbroken(c, done) && c.replies(r).Answered?
  {}

  lemma EarlyKeepsOutcome(c: Case, s: State, r: Role)
    requires Outcome(c, s) && Closed(s) && Enabled(s, r) && r !in {Cio, Verifier} && Exec(c, s, r).Going?
    ensures Outcome(c, Exec(c, s, r).state)
  {
    hide Exec, Inv, Unbroken, Closed, Enabled;
    OutcomeInv(c, s);
    ExecKeepsInv(c, s, r);
    LateRoles(s, r);
    FailureOf(c, s, r);
    UnbrokenLonger(c, s.artifacts.Keys, r);
  }

  /** The CIO keeps the slate clean exactly when nothing failed and its list is usable. */
  lemma CioSpeaks(c: Case, s: State)
    requires Closed(s) && Enabled(s, Cio) && Exec(c, s, Cio).Going?
    ensures var t := Exec(c, s, Cio).state;
            && t.artifacts.Keys == s.artifacts.Keys + {Cio}
            && (t.failed == {} <==> s.failed == {} && Synthesis(c) != [])
            && (t.failed == {} ==> t.forecasts == Synthesis(c))
            && (t.failed != {} ==> PerTicker(c, t.forecasts))
  {
    hide CioNode, Preds, Closed, Synthesis, PerTicker;
    CioNodeSpeaks(c, s);
  }

  lemma {:induction false} BlanksPerName(c: Case, names: seq<Name>)
    ensures var fs := BlankAbstentions(c, names);
            |fs| == |names| && forall i | 0 <= i < |fs| ::
              fs[i].ticker == names[i] && fs[i].asOf == c.asOf && fs[i].horizon == c.horizon
              && fs[i].abstained && fs[i].evidence == {}
  {
    if names != [] { BlanksPerName(c, names[1..]); }
  }

  lemma CioNodeSpeaks(c: Case, s: State)
    requires CioNode(c, s).Some?
    ensures var u := CioNode(c, s).value;
            && u.artifact.role == Cio && u.forecasts.Some?
            && (s.failed + u.failed == {} <==> s.failed == {} && Synthesis(c) != [])
            && (u.failed == {} ==> u.forecasts.value == Synthesis(c))
            && (s.failed + u.failed != {} ==> PerTicker(c, u.forecasts.value))
  {
    hide CioArtifact, BlankAbstentions, Synthesis;
    BlanksPerName(c, Sorted(c.tickers));
    CioArtifactSpeaks(c, s);
  }

  /** With nothing failed the CIO's artifact carries exactly the synthesis. */
  lemma CioArtifactSpeaks(c: Case, s: State)
    requires CioArtifact(c, s).Some?
    ensures CioArtifact(c, s).value.role == Cio
    ensures s.failed == {} ==> CioForecasts(s, CioArtifact(c, s).value) == Synthesis(c)
    ensures s.failed != {} ==> CioForecasts(s, CioArtifact(c, s).value) == []
  {
    hide SynthesisHashes, Ids;
  }

  lemma UnbrokenCio(c: Case, done: set<Role>)
    requires Cio !in done
    ensures Unbroken(c, done + {Cio}) <==> Unbroken(c, done) && Synthesis(c) != []
  {}

  lemma CioKeepsOutcome(c: Case, s: State)
    requires Outcome(c, s) && Closed(s) && Enabled(s, Cio) && Exec(c, s, Cio).Going?
    ensures Outcome(c, Exec(c, s, Cio).state)
  {
    hide Exec, Inv, Unbroken, Closed, Synthesis, VerifierAgrees, PerTicker;
    OutcomeInv(c, s);
    ExecKeepsInv(c, s, Cio);
    LateRoles(s, Cio);
    CioSpeaks(c, s);
    UnbrokenCio(c, s.artifacts.Keys);
  }

  lemma SameChecks(c: Case, s: State, t: State)
    requires s.forecasts == t.forecasts && s.approved == t.approved
    ensures ForecastsValid(c, s) <==> ForecastsValid(c, t)
  {}

  lemma VerifierDecides(c: Case, s: State)
    requires Inv(c, s) && Closed(s) && Enabled(s, Verifier) && Exec(c, s, Verifier).Going?
    requires s.failed == {} && s.forecasts == Synthesis(c)
    requires c.replies(Auditor).Answered? && s.approved == Ids(c.replies(Auditor).output)
    ensures var t := Exec(c, s, Verifier).state;
            if VerifierAgrees(c) then t.forecasts == Synthesis(c) else AllAbstain(t.forecasts)
  {
    hide ForecastsValid, Synthesis, Inv, Closed, Preds, Ids;
    AbstainAllAbstains(s.forecasts);
    SameChecks(c, s, Start().(forecasts := Synthesis(c), approved := Ids(c.replies(Auditor).output)));
  }

  lemma VerifierLeavesFailures(c: Case, s: State)
    requires Closed(s) && Enabled(s, Verifier) && Exec(c, s, Verifier).Going?
    ensures var t := Exec(c, s, Verifier).state;
            t.artifacts.Keys == s.artifacts.Keys + {Verifier} && t.failed == s.failed
  {
    hide ForecastsValid, AbstainAll, Preds, Closed;
  }

  /** Forcing abstention changes what a forecast says, not what it is about. */
  lemma VerifierKeepsSubjects(c: Case, s: State)
    requires Closed(s) && Enabled(s, Verifier) && Exec(c, s, Verifier).Going? && Subjects(c, s)
    ensures Subjects(c, Exec(c, s, Verifier).state)
  {
    hide VerifierNode, Subjects, SameSubjects, Preds, Closed;
    VerifierRewords(c, s);
    SubjectsKept(c, s, Exec(c, s, Verifier).state);
  }

  lemma VerifierRewords(c: Case, s: State)
    requires VerifierNode(c, s).Some?
    ensures var u := VerifierNode(c, s).value;
            u.failed == {} && SameSubjects(if u.forecasts.Some? then u.forecasts.value else s.forecasts, s.forecasts)
  {
    hide ForecastsValid, VerifierArtifact;
  }

  lemma SubjectsKept(c: Case, s: State, t: State)
    requires Subjects(c, s) && SameSubjects(t.forecasts, s.forecasts) && t.failed == s.failed
    ensures Subjects(c, t)
  {}

  lemma AuditedEvidence(c: Case, s: State)
    requires Inv(c, s) && Auditor in s.artifacts && s.failed == {}
    ensures c.replies(Auditor).Answered? && s.approved == Ids(c.replies(Auditor).output)
  {}

  lemma UnbrokenVerifier(c: Case, done: set<Role>)
    ensures Unbroken(c, done + {Verifier}) <==> Unbroken(c, done)
  {}

  lemma VerifierKeepsOutcome(c: Case, s: State)
    requires Outcome(c, s) && Closed(s) && Enabled(s, Verifier) && Exec(c, s, Verifier).Going?
    ensures Outcome(c, Exec(c, s, Verifier).state)
  {
    hide Exec, Inv, Unbroken, Closed, Synthesis, VerifierAgrees, AllAbstain, PerTicker, SameSubjects;
    OutcomeInv(c, s);
    ExecKeepsInv(c, s, Verifier);
    DoneBelow(s, Verifier);
    VerifierLeavesFailures(c, s);
    UnbrokenVerifier(c, s.artifacts.Keys);
    VerifierKeepsSubjects(c, s);
    if s.failed == {} {
      AuditedEvidence(c, s);
      VerifierDecides(c, s);
    }
  }

  lemma ExecKeepsOutcome(c: Case, s: State, r: Role)
    requires Outcome(c, s) && Closed(s) && Enabled(s, r) && Exec(c, s, r).Going?
    ensures Outcome(c, Exec(c, s, r).state)
  {
    hide Exec, Outcome, Closed, Enabled;
    match r
    case Cio => CioKeepsOutcome(c, s);
    case Verifier => VerifierKeepsOutcome(c, s);
    case _ => EarlyKeepsOutcome(c, s, r);
  }

  lemma {:induction false} RunKeepsOutcome(c: Case, run: Run, schedule: seq<Role>)
    requires run.Going? ==> Outcome(c, run.state) && Closed(run.state)
    requires Complete(c, run, schedule)
    ensures End(c, run, schedule).Going? ==> Outcome(c, End(c, run, schedule).state)
    decreases |schedule|
  {
    hide Node, Merge, Outcome, Closed;
    if run.Going? && schedule != [] {
      var next := Exec(c, run.state, schedule[0]);
      if next.Going? { ExecKeepsOutcome(c, run.state, schedule[0]); }
      RunKeepsOutcome(c, next, schedule[1..]);
    }
  }

  /** On every interleaving that ends without an integrity error: the CIO's forecasts stand,
      unaltered, if every role was answered, the verifier passed and its checks hold; and
      otherwise every forecast abstains. A run that was not answered throughout still ends with
      one abstention for each of the case's tickers. */
  lemma DeskSpeaksExactlyWhenSanctioned(c: Case, schedule: seq<Role>)
    requires Complete(c, Going(Start()), schedule)
    ensures End(c, Going(Start()), schedule).Going? ==>
            var s := End(c, Going(Start()), schedule).state;
            && (if Unbroken(c, ROLES) && VerifierAgrees(c) then s.forecasts == Synthesis(c)
                else AllAbstain(s.forecasts))
            && (if Unbroken(c, ROLES) then SameSubjects(s.forecasts, Synthesis(c)) else PerTicker(c, s.forecasts))
  {
    hide Node, Merge, Complete, End, Unbroken, VerifierAgrees, Synthesis, SameSubjects, PerTicker;
    StartOutcome(c);
    StartInv(c);
    RunKeepsInv(c, Going(Start()), schedule);
    RunKeepsOutcome(c, Going(Start()), schedule);
    if End(c, Going(Start()), schedule).Going? { NothingLeft(End(c, Going(Start()), schedule).state); }
  }
}
