/** Confluence and fail-closed safety of every run of the research desk. */
module DeskLaws {
  import opened Names
  import opened Wrappers
  import opened Desk

  const ROLES: set<Role> :=
    {Coordinator, Quant, Fundamentals, EventBehavioral, Auditor, Bull, Bear, BaseRate, Cio, Verifier}

  // --------------------------------------------------------------- commutation

  /** Two roles that may both run next are parallel: both specialists or both reviewers. */
  predicate Parallel(a: Role, b: Role) {
    var specialists := {Quant, Fundamentals, EventBehavioral};
    var reviewers := {Bull, Bear, BaseRate};
    (a in specialists && b in specialists) || (a in reviewers && b in reviewers)
  }

  lemma DoneBelow(s: State, r: Role)
    requires Closed(s) && Preds(r) <= s.artifacts.Keys
    ensures r in {Auditor} ==> {Coordinator, Quant, Fundamentals, EventBehavioral} <= s.artifacts.Keys
    ensures r in {Bull, Bear, BaseRate} ==>
              {Coordinator, Quant, Fundamentals, EventBehavioral, Auditor} <= s.artifacts.Keys
    ensures r == Cio ==> ROLES - {Cio, Verifier} <= s.artifacts.Keys
    ensures r == Verifier ==> ROLES - {Verifier} <= s.artifacts.Keys
  {
    assert Quant in s.artifacts ==> Preds(Quant) <= s.artifacts.Keys;
    assert Auditor in s.artifacts ==> Preds(Auditor) <= s.artifacts.Keys;
    assert Bull in s.artifacts ==> Preds(Bull) <= s.artifacts.Keys;
    assert Cio in s.artifacts ==> Preds(Cio) <= s.artifacts.Keys;
  }

  lemma EnabledTogether(s: State, a: Role, b: Role)
    requires Closed(s) && Enabled(s, a) && Enabled(s, b) && a != b
    ensures Parallel(a, b)
  {
    DoneBelow(s, a);
    DoneBelow(s, b);
  }

  lemma StillEnabled(c: Case, s: State, a: Role, b: Role)
    requires Closed(s) && Enabled(s, a) && Enabled(s, b) && a != b && Exec(c, s, a).Going?
    ensures Enabled(Exec(c, s, a).state, b)
  {
    hide Node, Merge;
  }

  /** A parallel role writes nothing its sibling reads. */
  lemma NodeFrame(c: Case, s: State, a: Role, b: Role)
    requires Closed(s) && Enabled(s, a) && Enabled(s, b) && a != b && Exec(c, s, a).Going?
    ensures Enabled(Exec(c, s, a).state, b)
    ensures Node(c, Exec(c, s, a).state, b) == Node(c, s, b)
  {
    hide Exec;
    EnabledTogether(s, a, b);
    StillEnabled(c, s, a, b);
    if a in {Bull, Bear, BaseRate} {
      hide SimpleNode, AuditNode, CioNode, VerifierNode, ReviewNode;
      DoneBelow(s, a);
      ReviewFrame(c, s, a, b);
    } else {
      hide SimpleNode, AuditNode, CioNode, VerifierNode, ReviewNode;
    }
  }

  lemma PlainShape(c: Case, s: State, r: Role)
    requires Closed(s) && Enabled(s, r)
    requires r in {Quant, Fundamentals, EventBehavioral, Bull, Bear, BaseRate}
    requires Node(c, s, r).Some?
    ensures Node(c, s, r).value == Plain(Node(c, s, r).value.artifact)
    ensures Node(c, s, r).value.artifact.role == r
  {}

  lemma ReviewFrame(c: Case, s: State, a: Role, b: Role)
    requires Closed(s) && Enabled(s, a) && Enabled(s, b) && a != b && Exec(c, s, a).Going?
    requires a in {Bull, Bear, BaseRate} && b in {Bull, Bear, BaseRate}
    requires {Quant, Fundamentals, EventBehavioral, Auditor} <= s.artifacts.Keys
    ensures {Quant, Fundamentals, EventBehavioral, Auditor} <= Exec(c, s, a).state.artifacts.Keys
    ensures ReviewNode(c, Exec(c, s, a).state, b) == ReviewNode(c, s, b)
  {
    hide Invoke, Synthetic, Node;
    PlainShape(c, s, a);
    var t := Exec(c, s, a).state;
    assert SpecialistHashes(t) == SpecialistHashes(s);
  }

  function ExecRun(c: Case, run: Run, r: Role): Run
    requires run.Going? ==> Closed(run.state) && Enabled(run.state, r)
  {
    if run.Raised? then Raised else Exec(c, run.state, r)
  }

  /** A superstep: both nodes read the same state, then the reducers merge both updates. */
  function Superstep(c: Case, s: State, a: Role, b: Role): Run
    requires Closed(s) && Enabled(s, a) && Enabled(s, b)
  {
    var u, v := Node(c, s, a), Node(c, s, b);
    if u.None? || v.None? then Raised else Going(Merge(Merge(s, u.value), v.value))
  }

  /** Reading one snapshot and merging is the same as running one after the other. */
  lemma SuperstepIsInterleaving(c: Case, s: State, a: Role, b: Role)
    requires Closed(s) && Enabled(s, a) && Enabled(s, b) && a != b
    ensures Exec(c, s, a).Going? ==> Enabled(Exec(c, s, a).state, b)
    ensures Superstep(c, s, a, b) == ExecRun(c, Exec(c, s, a), b)
  {
    hide Node, Merge, Enabled;
    if Exec(c, s, a).Going? { NodeFrame(c, s, a, b); }
  }

  lemma SuperstepSymmetric(c: Case, s: State, a: Role, b: Role)
    requires Closed(s) && Enabled(s, a) && Enabled(s, b) && a != b
    ensures Superstep(c, s, a, b) == Superstep(c, s, b, a)
  {
    hide Node, Merge, Plain;
    EnabledTogether(s, a, b);
    if Node(c, s, a).Some? && Node(c, s, b).Some? {
      PlainShape(c, s, a);
      PlainShape(c, s, b);
      MergeCommutes(s, Node(c, s, a).value, Node(c, s, b).value);
    }
  }

  /** The diamond: parallel roles give the same outcome in either order, errors included. */
  lemma Commute(c: Case, s: State, a: Role, b: Role)
    requires Closed(s) && Enabled(s, a) && Enabled(s, b) && a != b
    ensures Exec(c, s, a).Going? ==> Enabled(Exec(c, s, a).state, b)
    ensures Exec(c, s, b).Going? ==> Enabled(Exec(c, s, b).state, a)
    ensures ExecRun(c, Exec(c, s, a), b) == ExecRun(c, Exec(c, s, b), a)
  {
    hide Node, Merge, Enabled, Superstep, ExecRun;
    SuperstepIsInterleaving(c, s, a, b);
    SuperstepIsInterleaving(c, s, b, a);
    SuperstepSymmetric(c, s, a, b);
  }

  lemma WritesCommute<T>(m: map<Role, T>, a: Role, x: T, b: Role, y: T)
    requires a != b
    ensures MergeMaps(MergeMaps(m, map[a := x]), map[b := y]) == MergeMaps(MergeMaps(m, map[b := y]), map[a := x])
  {}

  /** The reducers do not care about order when the keys differ. */
  lemma MergeCommutes(s: State, u: Update, v: Update)
    requires u == Plain(u.artifact) && v == Plain(v.artifact) && u.artifact.role != v.artifact.role
    ensures Merge(Merge(s, u), v) == Merge(Merge(s, v), u)
  {
    hide MergeMaps;
    WritesCommute(s.artifacts, u.artifact.role, u.artifact, v.artifact.role, v.artifact);
    WritesCommute(s.events, u.artifact.role, u.artifact.warned, v.artifact.role, v.artifact.warned);
  }

  // --------------------------------------------------------------------- runs

  /** A schedule that runs to the end: to an error, or until no role may run. */
  ghost predicate Complete(c: Case, run: Run, schedule: seq<Role>)
    requires run.Going? ==> Closed(run.state)
    decreases |schedule|
  {
    if run.Raised? then schedule == []
    else if schedule == [] then forall r :: !Enabled(run.state, r)
    else Enabled(run.state, schedule[0]) && Complete(c, Exec(c, run.state, schedule[0]), schedule[1..])
  }

  function End(c: Case, run: Run, schedule: seq<Role>): Run
    requires run.Going? ==> Closed(run.state)
    requires Complete(c, run, schedule)
    decreases |schedule|
  {
    if run.Raised? || schedule == [] then run
    else End(c, Exec(c, run.state, schedule[0]), schedule[1..])
  }

  function Left(run: Run): nat {
    if run.Raised? then 0 else 1 + |ROLES - run.state.artifacts.Keys|
  }

  lemma AllRoles(r: Role)
    ensures r in ROLES
  {}

  lemma ExecProgress(c: Case, s: State, r: Role)
    requires Closed(s) && Enabled(s, r)
    ensures Left(Exec(c, s, r)) < Left(Going(s))
  {
    hide Node, Merge, Exec;
    AllRoles(r);
    FewerLeft(ROLES, s.artifacts.Keys, r);
  }

  lemma FewerLeft(all: set<Role>, done: set<Role>, r: Role)
    requires r in all && r !in done
    ensures |all - (done + {r})| < |all - done|
  {
    assert all - done == (all - (done + {r})) + {r};
  }

  /** Every run can be carried to the end: the machine never deadlocks. */
  lemma {:induction false} Completes(c: Case, run: Run) returns (schedule: seq<Role>)
    requires run.Going? ==> Closed(run.state)
    ensures Complete(c, run, schedule)
    decreases Left(run)
  {
    hide Node, Merge, Enabled, Exec, Left;
    schedule := [];
    if run.Going? {
      if r :| Enabled(run.state, r) {
        ExecProgress(c, run.state, r);
        var rest := Completes(c, Exec(c, run.state, r));
        schedule := [r] + rest;
        assert schedule[1..] == rest;
      }
    }
  }

  lemma Extend(c: Case, s: State, r: Role, rest: seq<Role>)
    requires Closed(s) && Enabled(s, r) && Complete(c, Exec(c, s, r), rest)
    ensures Complete(c, Going(s), [r] + rest)
    ensures End(c, Going(s), [r] + rest) == End(c, Exec(c, s, r), rest)
  {
    hide Node;
    assert ([r] + rest)[1..] == rest;
  }

  /** Confluence: however the parallel roles interleave, every completed run from a state ends
      the same way, in the same final state or in an error. */
  lemma {:induction false} Confluent(c: Case, run: Run, p: seq<Role>, q: seq<Role>)
    requires run.Going? ==> Closed(run.state)
    requires Complete(c, run, p) && Complete(c, run, q)
    ensures End(c, run, p) == End(c, run, q)
    decreases Left(run), 0
  {
    hide Node, Merge;
    if run.Going? && p != [] {
      assert q != [] by { assert Enabled(run.state, p[0]); }
      var s, a, b := run.state, p[0], q[0];
      ExecProgress(c, s, a);
      ExecProgress(c, s, b);
      if a == b {
        Confluent(c, Exec(c, s, a), p[1..], q[1..]);
      } else {
        Diamond(c, s, a, b, p[1..], q[1..]);
      }
    }
  }

  lemma {:induction false} Diamond(c: Case, s: State, a: Role, b: Role, p: seq<Role>, q: seq<Role>)
    requires Closed(s) && Enabled(s, a) && Enabled(s, b) && a != b
    requires Complete(c, Exec(c, s, a), p) && Complete(c, Exec(c, s, b), q)
    ensures End(c, Exec(c, s, a), p) == End(c, Exec(c, s, b), q)
    decreases Left(Going(s)) - 1, 1
  {
    hide Node, Merge, Enabled;
    ExecProgress(c, s, a);
    ExecProgress(c, s, b);
    Commute(c, s, a, b);
    var left, right := Exec(c, s, a), Exec(c, s, b);
    var meet := ExecRun(c, left, b);
    var rest := Completes(c, meet);
    if left.Going? {
      Extend(c, left.state, b, rest);
      Confluent(c, left, p, [b] + rest);
    }
    if right.Going? {
      Extend(c, right.state, a, rest);
      Confluent(c, right, q, [a] + rest);
    }
  }

  // ------------------------------------------------- stages are interleavings

  ghost predicate Runnable(s: State, rs: seq<Role>) {
    Closed(s)
    && (forall i | 0 <= i < |rs| :: Enabled(s, rs[i]))
    && (forall i, j | 0 <= i < j < |rs| :: rs[i] != rs[j])
  }

  lemma RunnableNext(c: Case, s: State, rs: seq<Role>)
    requires rs != [] && Runnable(s, rs) && Exec(c, s, rs[0]).Going?
    ensures Runnable(Exec(c, s, rs[0]).state, rs[1..])
    ensures forall i | 1 <= i < |rs| ::
              Enabled(s, rs[i]) && Enabled(Exec(c, s, rs[0]).state, rs[i])
              && Node(c, Exec(c, s, rs[0]).state, rs[i]) == Node(c, s, rs[i])
  {
    hide Node, Merge, Enabled, Exec;
    forall i | 1 <= i < |rs|
      ensures Enabled(s, rs[i]) && Enabled(Exec(c, s, rs[0]).state, rs[i])
      ensures Node(c, Exec(c, s, rs[0]).state, rs[i]) == Node(c, s, rs[i])
    {
      NodeFrame(c, s, rs[0], rs[i]);
    }
  }

  /** The roles one after the other, each reading what the last one left. */
  function InTurn(c: Case, s: State, rs: seq<Role>): Run
    requires Runnable(s, rs)
    decreases |rs|
  {
    if rs == [] then Going(s)
    else
      var run := Exec(c, s, rs[0]);
      if run.Raised? then Raised else
        RunnableNext(c, s, rs);
        InTurn(c, run.state, rs[1..])
  }

  /** The roles at once: every node reads `read`, then the reducers merge all updates into `s`. */
  function AtOnce(c: Case, read: State, s: State, rs: seq<Role>): Run
    requires Runnable(read, rs)
    decreases |rs|
  {
    if rs == [] then Going(s)
    else
      var u := Node(c, read, rs[0]);
      if u.None? then Raised else AtOnce(c, read, Merge(s, u.value), rs[1..])
  }

  /** A stage of parallel roles, of any size and in any order, run at once from one snapshot
      gives exactly what running it role by role gives. */
  lemma {:induction false} StageIsInterleaving(c: Case, read: State, s: State, rs: seq<Role>)
    requires Runnable(read, rs) && Runnable(s, rs)
    requires forall i | 0 <= i < |rs| :: Node(c, read, rs[i]) == Node(c, s, rs[i])
    ensures AtOnce(c, read, s, rs) == InTurn(c, s, rs)
    decreases |rs|
  {
    hide Node, Merge, Enabled;
    if rs != [] && Exec(c, s, rs[0]).Going? {
      RunnableNext(c, s, rs);
      var t, rest := Exec(c, s, rs[0]).state, rs[1..];
      forall i | 0 <= i < |rest| ensures Enabled(t, rest[i]) && Node(c, read, rest[i]) == Node(c, t, rest[i]) {
        assert rest[i] == rs[i + 1];
      }
      StageIsInterleaving(c, read, t, rest);
    }
  }

  // ---------------------------------------------------------------- fail closed

  ghost predicate AllAbstain(fs: seq<Forecast>) { forall f | f in fs :: f.abstained }

  /** What every reachable state satisfies. */
  ghost predicate Inv(c: Case, s: State) {
    && Closed(s)
    && s.failed <= s.artifacts.Keys
    && (forall r | r in s.artifacts && r != Verifier && c.replies(r).Failed? :: r in s.failed)
    && s.approved <= c.bundle
    && (Auditor !in s.artifacts ==> s.approved == {})
    && (Auditor in s.failed ==> s.approved == {})
    && (Auditor in s.artifacts && Auditor !in s.failed ==>
          c.replies(Auditor).Answered? && s.approved == Ids(c.replies(Auditor).output))
    && (Cio !in s.artifacts ==> s.forecasts == [])
    && (Cio in s.artifacts && s.failed != {} ==> AllAbstain(s.forecasts))
    && (Verifier in s.artifacts ==> AllAbstain(s.forecasts) || Vouched(c, s))
  }

  /** What the verifier has checked when it lets any forecast stand. */
  ghost predicate Vouched(c: Case, s: State) {
    && c.replies(Verifier).Answered? && c.replies(Verifier).output.passed
    && ForecastsValid(c, s)
  }

  lemma StartInv(c: Case)
    ensures Inv(c, Start())
  {}

  lemma {:induction false} BlankAbstain(c: Case, names: seq<Name>)
    ensures AllAbstain(BlankAbstentions(c, names))
  {
    if names != [] { BlankAbstain(c, names[1..]); }
  }

  /** What a specialist, reviewer or coordinator leaves: its artifact, and itself among the
      failed if it was not answered. */
  ghost predicate PlainAfter(c: Case, s: State, t: State, r: Role) {
    && Closed(t) && t.artifacts.Keys == s.artifacts.Keys + {r}
    && (t.failed == s.failed || t.failed == s.failed + {r})
    && (c.replies(r).Failed? ==> r in t.failed)
    && t.approved == s.approved && t.forecasts == s.forecasts
  }

  lemma PlainOutcome(c: Case, s: State, r: Role)
    requires Closed(s) && Enabled(s, r) && r !in {Auditor, Cio, Verifier}
    ensures Exec(c, s, r).Going? ==> PlainAfter(c, s, Exec(c, s, r).state, r)
  {
    hide SpecialistHashes, Ids, AuditNode, CioNode, VerifierNode, Preds;
  }

  lemma PlainKeepsInv(c: Case, s: State, r: Role)
    requires Inv(c, s) && Enabled(s, r) && r !in {Auditor, Cio, Verifier}
    ensures Exec(c, s, r).Going? ==> Inv(c, Exec(c, s, r).state)
  {
    hide Node, Exec, Closed, Preds;
    assert Closed(s);
    LateRoles(s, r);
    PlainOutcome(c, s, r);
  }

  lemma LateRoles(s: State, r: Role)
    requires Closed(s) && Enabled(s, r)
    ensures r != Verifier ==> Verifier !in s.artifacts
    ensures r !in {Cio, Verifier} ==> Cio !in s.artifacts
  {}

  lemma AuditKeepsInv(c: Case, s: State)
    requires Inv(c, s) && Enabled(s, Auditor)
    ensures Exec(c, s, Auditor).Going? ==> Inv(c, Exec(c, s, Auditor).state)
  {
    LateRoles(s, Auditor);
  }

  /** The CIO either records a failure and abstains everywhere, or nothing has failed. */
  lemma CioOutcome(c: Case, s: State)
    requires Closed(s) && Enabled(s, Cio) && Node(c, s, Cio).Some?
    ensures var u := Node(c, s, Cio).value;
            && u.artifact.role == Cio && u.approved.None? && u.forecasts.Some?
            && (u.failed == s.failed + {Cio} || (u.failed == {} && s.failed == {}))
            && (u.failed != {} ==> AllAbstain(u.forecasts.value))
            && (c.replies(Cio).Failed? ==> u.failed != {})
  {
    hide SynthesisHashes, BlankAbstentions, Ids, Preds, Closed;
    BlankAbstain(c, Sorted(c.tickers));
  }

  lemma CioInv(c: Case, s: State, t: State, failed: set<Role>)
    requires Inv(c, s) && Closed(t) && t.artifacts.Keys == s.artifacts.Keys + {Cio}
    requires Verifier !in s.artifacts && Auditor in s.artifacts
    requires t.failed == s.failed + failed && t.approved == s.approved
    requires failed == s.failed + {Cio} || (failed == {} && s.failed == {})
    requires failed != {} ==> AllAbstain(t.forecasts)
    requires c.replies(Cio).Failed? ==> failed != {}
    ensures Inv(c, t)
  {
    hide Vouched, Preds, Closed, AllAbstain;
  }

  lemma CioKeepsInv(c: Case, s: State)
    requires Inv(c, s) && Enabled(s, Cio)
    ensures Exec(c, s, Cio).Going? ==> Inv(c, Exec(c, s, Cio).state)
  {
    hide Node, Inv, AllAbstain;
    InvClosed(c, s);
    LateRoles(s, Cio);
    DoneBelow(s, Cio);
    if Node(c, s, Cio).Some? {
      CioOutcome(c, s);
      CioInv(c, s, Exec(c, s, Cio).state, Node(c, s, Cio).value.failed);
    }
  }

  lemma AbstainAllAbstains(fs: seq<Forecast>)
    ensures AllAbstain(AbstainAll(fs))
  {}

  /** The verifier either abstains every forecast or leaves a state it has vouched for. */
  lemma VerifierOutcome(c: Case, s: State)
    requires Closed(s) && Enabled(s, Verifier) && Node(c, s, Verifier).Some?
    ensures var u := Node(c, s, Verifier).value;
            && u.artifact.role == Verifier && u.failed == {} && u.approved.None?
            && (u.forecasts.Some? ==> u.forecasts.value == AbstainAll(s.forecasts))
            && (u.forecasts.None? ==> Vouched(c, s))
  {
    hide ForecastsValid;
  }

  lemma VouchedKept(c: Case, s: State, t: State)
    requires t.forecasts == s.forecasts && t.approved == s.approved && Vouched(c, s)
    ensures Vouched(c, t)
  {}

  lemma VerifiedInv(c: Case, s: State, t: State)
    requires Inv(c, s) && Closed(t) && t.artifacts.Keys == s.artifacts.Keys + {Verifier}
    requires Cio in s.artifacts && Auditor in s.artifacts
    requires t.failed == s.failed && t.approved == s.approved
    requires AllAbstain(t.forecasts) || (t.forecasts == s.forecasts && Vouched(c, s))
    ensures Inv(c, t)
  {
    hide Vouched, Preds, Closed;
    if !AllAbstain(t.forecasts) { VouchedKept(c, s, t); }
  }

  lemma VerifierKeepsInv(c: Case, s: State)
    requires Inv(c, s) && Enabled(s, Verifier)
    ensures Exec(c, s, Verifier).Going? ==> Inv(c, Exec(c, s, Verifier).state)
  {
    hide Node, AbstainAll, Inv, Vouched, AllAbstain;
    InvClosed(c, s);
    DoneBelow(s, Verifier);
    AbstainAllAbstains(s.forecasts);
    if Node(c, s, Verifier).Some? {
      VerifierOutcome(c, s);
      VerifiedInv(c, s, Exec(c, s, Verifier).state);
    }
  }

  lemma ExecKeepsInv(c: Case, s: State, r: Role)
    requires Inv(c, s) && Enabled(s, r)
    ensures Exec(c, s, r).Going? ==> Inv(c, Exec(c, s, r).state)
  {
    hide Node, Merge, Inv;
    match r
    case Auditor => AuditKeepsInv(c, s);
    case Cio => CioKeepsInv(c, s);
    case Verifier => VerifierKeepsInv(c, s);
    case _ => PlainKeepsInv(c, s, r);
  }

  lemma InvClosed(c: Case, s: State)
    requires Inv(c, s)
    ensures Closed(s)
  {}

  lemma {:induction false} RunKeepsInv(c: Case, run: Run, schedule: seq<Role>)
    requires run.Going? ==> Inv(c, run.state) && Closed(run.state)
    requires Complete(c, run, schedule)
    ensures End(c, run, schedule).Going? ==>
            Inv(c, End(c, run, schedule).state)
            && forall r :: !Enabled(End(c, run, schedule).state, r)
    decreases |schedule|
  {
    hide Node, Merge, Inv, Closed;
    if run.Going? && schedule != [] {
      ExecKeepsInv(c, run.state, schedule[0]);
      RunKeepsInv(c, Exec(c, run.state, schedule[0]), schedule[1..]);
    }
  }

  /** With nothing left to run, every role has run. */
  lemma NothingLeft(s: State)
    requires Closed(s) && forall r :: !Enabled(s, r)
    ensures s.artifacts.Keys == ROLES
  {
    assert !Enabled(s, Coordinator);
    assert Coordinator in s.artifacts;
    assert !Enabled(s, Quant) && !Enabled(s, Fundamentals) && !Enabled(s, EventBehavioral);
    assert Preds(Auditor) <= s.artifacts.Keys;
    assert !Enabled(s, Auditor);
    assert Auditor in s.artifacts;
    assert !Enabled(s, Bull) && !Enabled(s, Bear) && !Enabled(s, BaseRate);
    assert Preds(Cio) <= s.artifacts.Keys;
    assert !Enabled(s, Cio);
    assert Cio in s.artifacts;
    assert !Enabled(s, Verifier);
    assert Verifier in s.artifacts;
    forall r | r in s.artifacts ensures r in ROLES { AllRoles(r); }
  }

  /** The desk fails closed, on every interleaving: if a role up to the CIO fails, or the
      verifier fails or withholds its pass, every final forecast abstains; and a forecast that
      stands covers a case ticker at the case's time and horizon and cites only evidence the
      auditor approved, which is within the bundle. */
  lemma DeskFailsClosed(c: Case, schedule: seq<Role>)
    requires Complete(c, Going(Start()), schedule)
    ensures End(c, Going(Start()), schedule).Going? ==>
            var s := End(c, Going(Start()), schedule).state;
            && s.artifacts.Keys == ROLES
            && ((exists r :: r != Verifier && c.replies(r).Failed?) ==> AllAbstain(s.forecasts))
            && (s.failed != {} ==> AllAbstain(s.forecasts))
            && (c.replies(Verifier).Failed? || !c.replies(Verifier).output.passed ==> AllAbstain(s.forecasts))
            && (forall f | f in s.forecasts && !f.abstained ::
                  && f.ticker in c.tickers && f.asOf == c.asOf && f.horizon == c.horizon
                  && c.replies(Auditor).Answered?
                  && f.evidence <= Ids(c.replies(Auditor).output) <= c.bundle)
  {
    hide Node, Merge, Complete, End;
    StartInv(c);
    RunKeepsInv(c, Going(Start()), schedule);
    var end := End(c, Going(Start()), schedule);
    if end.Going? {
      var s := end.state;
      NothingLeft(s);
      forall f | f in s.forecasts && !f.abstained ensures f.ticker in c.tickers {
        assert f.ticker in (set g | g in s.forecasts :: g.ticker);
      }
      if r :| r != Verifier && c.replies(r).Failed? {
        AllRoles(r);
        assert r in s.failed;
      }
    }
  }
}
