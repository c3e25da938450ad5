/** The risk gate as the program runs it: loops that overwrite the book in place and
    append to the clamp and violation logs, then the decision. */
module RiskEvaluation {
  import opened Names
  import opened Reals
  import opened Sums
  import opened RiskGate
  import ExposureLaws

  datatype Rule =
    | NoShorting | MaxPosition | MaximumSector | GrossNetAndCash | MaxTurnover | DeRiskOverride

  /** One log entry; `subject` is a ticker, a sector, or empty for a book-wide rule. */
  datatype RiskClamp = RiskClamp(rule: Rule, subject: Name, before: real, after: real)

  datatype Violation =
    | ShortRemains
    | PositionCapExceeded
    | MissingSectors(names: seq<Name>)
    | SectorExceeded(sector: Name, exposure: real)
    | GrossCapExceeded
    | NetCapExceeded
    | LeverageRemains
    | CashTooLow
    | StrategyExceeded(strategy: Name)

  datatype Decision = Decision(
    approved: bool, finalWeights: Book, violations: seq<Violation>, turnoverWarning: bool)

  function Noted(violations: seq<Violation>, v: Violation): seq<Violation> {
    if v in violations then violations else violations + [v]
  }

  function MissingNames(w: Book, sectors: map<Name, Name>): seq<Name> { Sorted(w.Keys - sectors.Keys) }

  lemma ShrinksBothWays(u: Book, v: Book)
    requires Shrinks(u, v) && Shrinks(v, u)
    ensures u == v
  {}

  // ------------------------------------------------------------- one clamp pass
  //
  // `for name in sorted(names)` is written as a loop that takes the least name left.

  /** A per-ticker pass that has reached `goal` everywhere but on `todo`. */
  ghost predicate Partly(result: Book, w: Book, goal: Book, todo: set<Name>)
    requires goal.Keys == w.Keys
  {
    && result.Keys == w.Keys
    && forall t | t in w :: result[t] == if t in todo then w[t] else goal[t]
  }

  /** The log of a step: in ascending order, each subject whose measure changed, with the measure
      before and after. */
  function Changes(rule: Rule, names: set<Name>, before: Name -> real, after: Name -> real): seq<RiskClamp> {
    if names == {} then []
    else
      var t := Least(names);
      (if before(t) == after(t) then [] else [RiskClamp(rule, t, before(t), after(t))])
      + Changes(rule, names - {t}, before, after)
  }

  /** Every entry is a real change of its subject, and every change has its entry. */
  lemma {:induction false} ChangesMembers(
      rule: Rule, names: set<Name>, before: Name -> real, after: Name -> real, e: RiskClamp)
    ensures e in Changes(rule, names, before, after) <==>
              e.rule == rule && e.subject in names
              && e.before == before(e.subject) && e.after == after(e.subject) && e.before != e.after
  {
    if names != {} { ChangesMembers(rule, names - {Least(names)}, before, after, e); }
  }

  /** Entries come in ascending order of subject, so each subject has one at most. */
  lemma {:induction false} ChangesAscending(
      rule: Rule, names: set<Name>, before: Name -> real, after: Name -> real, i: nat, j: nat)
    requires i < j < |Changes(rule, names, before, after)|
    ensures Less(Changes(rule, names, before, after)[i].subject, Changes(rule, names, before, after)[j].subject)
  {
    hide Less;
    var t := Least(names);
    var rest := Changes(rule, names - {t}, before, after);
    if before(t) == after(t) {
      assert [] + rest == rest;
      ChangesAscending(rule, names - {t}, before, after, i, j);
    } else if i == 0 {
      ChangesMembers(rule, names - {t}, before, after, rest[j - 1]);
    } else {
      ChangesAscending(rule, names - {t}, before, after, i - 1, j - 1);
    }
  }

  lemma {:induction false} NoChanges(rule: Rule, names: set<Name>, before: Name -> real, after: Name -> real)
    ensures Changes(rule, names, before, after) == [] <==> forall t | t in names :: before(t) == after(t)
  {
    if names != {} { NoChanges(rule, names - {Least(names)}, before, after); }
  }

  lemma ChangesStep(
      rule: Rule, names: set<Name>, before: Name -> real, after: Name -> real,
      log: seq<RiskClamp>, log': seq<RiskClamp>)
    requires names != {}
    requires var t := Least(names);
             log' == if before(t) == after(t) then log else log + [RiskClamp(rule, t, before(t), after(t))]
    ensures log' + Changes(rule, names - {Least(names)}, before, after) == log + Changes(rule, names, before, after)
  {}

  lemma SameBook(v: Book, w: Book)
    requires v.Keys == w.Keys
    ensures v == w <==> forall t | t in w.Keys :: Signed(w)(t) == Signed(v)(t)
  {
    if forall t | t in w.Keys :: Signed(w)(t) == Signed(v)(t) {
      forall t | t in w ensures v[t] == w[t] { assert Signed(w)(t) == Signed(v)(t); }
    }
  }

  /** The log of a step that overwrites single weights. */
  function WeightLog(rule: Rule, was: Book, now: Book): seq<RiskClamp> {
    Changes(rule, was.Keys, Signed(was), Signed(now))
  }

  method ClampShorts(w: Book, p: Policy, log: seq<RiskClamp>)
    returns (result: Book, clamps: seq<RiskClamp>)
    ensures result == NoShorts(w, p)
    ensures clamps == log + WeightLog(NoShorting, w, result)
    ensures clamps == log <==> result == w
  {
    hide Changes;
    result, clamps := w, log;
    ghost var goal := NoShorts(w, p);
    NoChanges(NoShorting, w.Keys, Signed(w), Signed(goal));
    SameBook(goal, w);
    if !p.allowShorting {
      var todo := w.Keys;
      while todo != {}
        invariant todo <= w.Keys
        invariant Partly(result, w, goal, todo)
        invariant clamps + Changes(NoShorting, todo, Signed(w), Signed(goal))
                  == log + Changes(NoShorting, w.Keys, Signed(w), Signed(goal))
      {
        var t := Least(todo);
        ghost var was, left := clamps, todo;
        todo := todo - {t};
        if result[t] < 0.0 {
          clamps := clamps + [RiskClamp(NoShorting, t, result[t], 0.0)];
          result := result[t := 0.0];
        }
        ChangesStep(NoShorting, left, Signed(w), Signed(goal), was, clamps);
      }
      NoChanges(NoShorting, {}, Signed(w), Signed(goal));
    }
  }

  method ClampPositions(w: Book, p: Policy, log: seq<RiskClamp>)
    returns (result: Book, clamps: seq<RiskClamp>)
    requires p.maxPosition >= 0.0
    ensures result == PositionCapped(w, p)
    ensures clamps == log + WeightLog(MaxPosition, w, result)
    ensures clamps == log <==> result == w
  {
    hide Changes;
    result, clamps := w, log;
    ghost var goal := PositionCapped(w, p);
    NoChanges(MaxPosition, w.Keys, Signed(w), Signed(goal));
    SameBook(goal, w);
    var todo := w.Keys;
    while todo != {}
      invariant todo <= w.Keys
      invariant Partly(result, w, goal, todo)
      invariant clamps + Changes(MaxPosition, todo, Signed(w), Signed(goal))
                == log + Changes(MaxPosition, w.Keys, Signed(w), Signed(goal))
    {
      var t := Least(todo);
      ghost var was, left := clamps, todo;
      todo := todo - {t};
      var before := result[t];
      if Abs(before) > p.maxPosition {
        var after := if before > 0.0 then p.maxPosition else -p.maxPosition;
        clamps := clamps + [RiskClamp(MaxPosition, t, before, after)];
        result := result[t := after];
      }
      ChangesStep(MaxPosition, left, Signed(w), Signed(goal), was, clamps);
    }
    NoChanges(MaxPosition, {}, Signed(w), Signed(goal));
  }

  /** Scales the longs of one over-exposed sector. */
  method ScaleMembers(w: Book, members: set<Name>, k: real) returns (result: Book)
    requires members <= w.Keys
    ensures result.Keys == w.Keys
    ensures forall t | t in w ::
      result[t] == (if t in members && w[t] > 0.0 then k * w[t] else w[t])
  {
    result := w;
    ghost var goal: Book := map t | t in w :: if t in members && w[t] > 0.0 then k * w[t] else w[t];
    var todo := members;
    while todo != {}
      invariant todo <= members
      invariant Partly(result, w, goal, todo)
    {
      var t := Least(todo);
      todo := todo - {t};
      if result[t] > 0.0 { result := result[t := k * result[t]]; }
    }
  }

  /** Sectors are disjoint, so scaling one leaves every other exposure as it was. */
  lemma ExposureOfAgreeing(v: Book, w: Book, sectors: map<Name, Name>, s: Name)
    requires v.Keys == w.Keys && AllClassified(w, sectors)
    requires forall t | t in w && sectors[t] == s :: v[t] == w[t]
    ensures AllClassified(v, sectors)
    ensures Members(v, sectors, s) == Members(w, sectors, s)
    ensures SectorExposure(v, sectors, s) == SectorExposure(w, sectors, s)
  {
    hide Total;
    TotalSame(Members(w, sectors, s), Long(v), Long(w));
  }

  ghost predicate SectorsPartly(result: Book, w: Book, cap: real, sectors: map<Name, Name>, todo: set<Name>)
    requires AllClassified(w, sectors) && cap >= 0.0
  {
    && result.Keys == w.Keys
    && forall t | t in w ::
         result[t] == if sectors[t] in todo then w[t] else SectorScaledWeight(w, cap, sectors, t)
  }

  /** Scales one sector of the book, if it is over its cap. */
  method ClampSector(w: Book, p: Policy, sectors: map<Name, Name>, s: Name, log: seq<RiskClamp>)
    returns (result: Book, clamps: seq<RiskClamp>)
    requires Coherent(p) && AllClassified(w, sectors)
    ensures result.Keys == w.Keys
    ensures forall t | t in w ::
      result[t] == (if sectors[t] == s then SectorScaledWeight(w, p.maxSector, sectors, t) else w[t])
    ensures var e := SectorExposure(w, sectors, s);
            clamps == log + (if e > p.maxSector then [RiskClamp(MaximumSector, s, e, p.maxSector)] else [])
  {
    hide Total;
    result, clamps := w, log;
    var members := Members(w, sectors, s);
    var exposure := SectorExposure(w, sectors, s);
    if exposure > p.maxSector {
      result := ScaleMembers(w, members, p.maxSector / exposure);
      clamps := clamps + [RiskClamp(MaximumSector, s, exposure, p.maxSector)];
    }
  }

  lemma SectorStep(
      v: Book, result: Book, w: Book, cap: real, sectors: map<Name, Name>, todo: set<Name>, s: Name)
    requires AllClassified(w, sectors) && AllClassified(v, sectors) && cap >= 0.0
    requires s in todo && SectorsPartly(result, w, cap, sectors, todo)
    requires AllClassified(result, sectors)
    requires v.Keys == w.Keys
    requires forall t | t in w ::
      v[t] == (if sectors[t] == s then SectorScaledWeight(result, cap, sectors, t) else result[t])
    ensures SectorsPartly(v, w, cap, sectors, todo - {s})
    ensures SectorExposure(result, sectors, s) == SectorExposure(w, sectors, s)
  {
    hide SectorExposure;
    ExposureOfAgreeing(result, w, sectors, s);
  }

  function Exposures(w: Book, sectors: map<Name, Name>): Name -> real
    requires AllClassified(w, sectors)
  {
    s => SectorExposure(w, sectors, s)
  }

  /** The log of the sector step, which an unclassified book skips. */
  function SectorLog(was: Book, now: Book, sectors: map<Name, Name>): seq<RiskClamp> {
    if AllClassified(was, sectors) && AllClassified(now, sectors)
    then Changes(MaximumSector, SectorNames(was, sectors), Exposures(was, sectors), Exposures(now, sectors)) else []
  }

  method ClampSectors(w: Book, p: Policy, sectors: map<Name, Name>, log: seq<RiskClamp>)
    returns (result: Book, clamps: seq<RiskClamp>)
    requires Coherent(p) && AllClassified(w, sectors)
    ensures result == SectorScaled(w, p, sectors)
    ensures clamps == log + SectorLog(w, result, sectors)
    ensures clamps == log <==> result == w
  {
    hide SectorExposure, SectorScaledWeight, Changes, Exposures, SectorScaled, SectorsPartly;
    result, clamps := w, log;
    ghost var goal := SectorScaled(w, p, sectors);
    SectorsStart(w, p, sectors);
    var all := SectorNames(w, sectors);
    ghost var before, after := Exposures(w, sectors), Exposures(goal, sectors);
    var todo := all;
    while todo != {}
      invariant todo <= all && result.Keys == w.Keys && AllClassified(result, sectors)
      invariant SectorsPartly(result, w, p.maxSector, sectors, todo)
      invariant clamps + Changes(MaximumSector, todo, before, after) == log + Changes(MaximumSector, all, before, after)
    {
      var s := Least(todo);
      var next, log' := ClampSector(result, p, sectors, s, clamps);
      SectorStep(next, result, w, p.maxSector, sectors, todo, s);
      SectorChange(w, p, sectors, s);
      ChangesStep(MaximumSector, todo, before, after, clamps, log');
      result, clamps, todo := next, log', todo - {s};
    }
    SectorsEnd(result, w, p, sectors);
    SectorLogIs(w, goal, sectors);
    NoChanges(MaximumSector, {}, before, after);
    SectorsLogged(w, p, sectors);
  }

  lemma SectorsStart(w: Book, p: Policy, sectors: map<Name, Name>)
    requires Coherent(p) && AllClassified(w, sectors)
    ensures SectorsPartly(w, w, p.maxSector, sectors, SectorNames(w, sectors))
    ensures AllClassified(SectorScaled(w, p, sectors), sectors)
  {
    hide SectorScaledWeight;
  }

  lemma SectorsEnd(result: Book, w: Book, p: Policy, sectors: map<Name, Name>)
    requires Coherent(p) && AllClassified(w, sectors) && SectorsPartly(result, w, p.maxSector, sectors, {})
    ensures result == SectorScaled(w, p, sectors)
  {
    hide SectorScaledWeight;
  }

  lemma SectorLogIs(w: Book, v: Book, sectors: map<Name, Name>)
    requires AllClassified(w, sectors) && AllClassified(v, sectors)
    ensures SectorLog(w, v, sectors)
            == Changes(MaximumSector, SectorNames(w, sectors), Exposures(w, sectors), Exposures(v, sectors))
  {}

  /** A sector's exposure changes exactly when it is over its cap, and then to the cap. */
  lemma SectorChange(w: Book, p: Policy, sectors: map<Name, Name>, s: Name)
    requires Coherent(p) && AllClassified(w, sectors)
    ensures AllClassified(SectorScaled(w, p, sectors), sectors)
    ensures Exposures(w, sectors)(s) == SectorExposure(w, sectors, s)
    ensures Exposures(SectorScaled(w, p, sectors), sectors)(s) == Min(SectorExposure(w, sectors, s), p.maxSector)
  {
    hide SectorExposure, SectorScaled;
    ExposureLaws.SectorEndsAtCap(w, p, sectors, s);
  }

  lemma SectorsLogged(w: Book, p: Policy, sectors: map<Name, Name>)
    requires Coherent(p) && AllClassified(w, sectors)
    ensures AllClassified(SectorScaled(w, p, sectors), sectors)
    ensures Changes(MaximumSector, SectorNames(w, sectors), Exposures(w, sectors),
                    Exposures(SectorScaled(w, p, sectors), sectors)) == []
            <==> SectorScaled(w, p, sectors) == w
  {
    hide SectorExposure, SectorScaled, SectorNames, Exposures, Changes;
    SectorsStart(w, p, sectors);
    var all, v := SectorNames(w, sectors), SectorScaled(w, p, sectors);
    NoChanges(MaximumSector, all, Exposures(w, sectors), Exposures(v, sectors));
    SectorLogComplete(w, p, sectors);
    forall s { SectorChange(w, p, sectors, s); }
  }

  /** A sector above its cap has a long in it, which the clamp strictly reduces. */
  lemma SectorLogComplete(w: Book, p: Policy, sectors: map<Name, Name>)
    requires Coherent(p) && AllClassified(w, sectors)
    ensures SectorScaled(w, p, sectors) == w <==>
            forall s | s in SectorNames(w, sectors) :: SectorExposure(w, sectors, s) <= p.maxSector
  {
    hide Total, SectorExposure;
    if s :| s in SectorNames(w, sectors) && SectorExposure(w, sectors, s) > p.maxSector {
      OverExposedShrinks(w, p, sectors, s);
    }
  }

  lemma OverExposedShrinks(w: Book, p: Policy, sectors: map<Name, Name>, s: Name)
    requires Coherent(p) && AllClassified(w, sectors) && SectorExposure(w, sectors, s) > p.maxSector
    ensures SectorScaled(w, p, sectors) != w
  {
    hide Total;
    var e := SectorExposure(w, sectors, s);
    var t := TotalPositiveTerm(Members(w, sectors, s), Long(w));
    assert w[t] > 0.0 && sectors[t] == s;
    CapFactor(p.maxSector, e);
    StrictlyLess(p.maxSector / e, w[t]);
    assert SectorScaled(w, p, sectors)[t] == SectorScaledWeight(w, p.maxSector, sectors, t) != w[t];
  }

  lemma StrictlyLess(k: real, x: real)
    requires k < 1.0 && x > 0.0
    ensures k * x < x
  {}

  /** Multiplies every weight by `k`. */
  method ScaleBook(w: Book, k: real) returns (result: Book)
    ensures result == Scaled(w, k)
  {
    result := w;
    ghost var goal := Scaled(w, k);
    var todo := w.Keys;
    while todo != {}
      invariant todo <= w.Keys
      invariant Partly(result, w, goal, todo)
    {
      var t := Least(todo);
      todo := todo - {t};
      result := result[t := k * result[t]];
    }
  }

  /** The one entry of the common scaling. */
  function ExposureLog(was: Book, now: Book): seq<RiskClamp> {
    if now == was then [] else [RiskClamp(GrossNetAndCash, "", Gross(was), Gross(now))]
  }

  method ClampExposure(w: Book, p: Policy, log: seq<RiskClamp>)
    returns (result: Book, clamps: seq<RiskClamp>)
    requires Coherent(p)
    ensures result == ExposureScaled(w, p)
    ensures clamps == log + ExposureLog(w, result)
    ensures clamps == log <==> result == w
  {
    hide Total, Gross, Net, Scaled, ExposureScale;
    result, clamps := w, log;
    var gross, net := Gross(w), Abs(Net(w));
    var scale := ExposureScale(gross, net, p);
    if scale < 1.0 {
      result := ScaleBook(w, scale);
      ScalingChanges(w, p);
      clamps := clamps + [RiskClamp(GrossNetAndCash, "", gross, Gross(result))];
    }
  }

  lemma ScalingChanges(w: Book, p: Policy)
    requires Coherent(p) && ExposureScale(Gross(w), Abs(Net(w)), p) < 1.0
    ensures Scaled(w, ExposureScale(Gross(w), Abs(Net(w)), p)) != w
  {
    hide Total, Scaled;
    var g, n := Gross(w), Abs(Net(w));
    NetWithinGross(w);
    ExposureScaledMeetsCaps(w, p);
    if g <= GrossCap(p) && n <= p.maxNet {
      ExposureScaleBounds(g, n, p);
    }
  }

  /** The log of one pass over a book, clamp by clamp. */
  function PassLog(w: Book, p: Policy, sectors: map<Name, Name>): seq<RiskClamp>
    requires Coherent(p)
  {
    var a := NoShorts(w, p);
    var b := PositionCapped(a, p);
    var c := SectorScaled(b, p, sectors);
    WeightLog(NoShorting, w, a)
    + (WeightLog(MaxPosition, a, b) + (SectorLog(b, c, sectors) + ExposureLog(c, ExposureScaled(c, p))))
  }

  lemma PassLogIs(w: Book, a: Book, b: Book, c: Book, d: Book, p: Policy, sectors: map<Name, Name>)
    requires Coherent(p)
    requires a == NoShorts(w, p) && b == PositionCapped(a, p)
    requires c == SectorScaled(b, p, sectors) && d == ExposureScaled(c, p)
    ensures d == Clamped(w, p, sectors)
    ensures PassLog(w, p, sectors)
            == WeightLog(NoShorting, w, a)
               + (WeightLog(MaxPosition, a, b) + (SectorLog(b, c, sectors) + ExposureLog(c, d)))
  {
    hide WeightLog, SectorLog, ExposureLog, NoShorts, PositionCapped, SectorScaled, ExposureScaled;
  }

  lemma Joined(log: seq<RiskClamp>, x: seq<RiskClamp>, y: seq<RiskClamp>, z: seq<RiskClamp>, u: seq<RiskClamp>)
    ensures log + x + y + z + u == log + (x + (y + (z + u)))
  {}

  /** One whole pass. The log is complete: it grows exactly when the book changes. */
  method ApplySafetyClamps(
      w: Book, p: Policy, sectors: map<Name, Name>, log: seq<RiskClamp>, violations0: seq<Violation>)
    returns (result: Book, clamps: seq<RiskClamp>, violations: seq<Violation>)
    requires Coherent(p)
    ensures result == Clamped(w, p, sectors)
    ensures clamps == log + PassLog(w, p, sectors)
    ensures PassLog(w, p, sectors) == [] <==> result == w
    ensures violations == if AllClassified(w, sectors) then violations0
                          else Noted(violations0, MissingSectors(MissingNames(w, sectors)))
  {
    hide Total, Shrinks, NoShorts, PositionCapped, SectorScaled, ExposureScaled, Clamped, MissingNames,
      WeightLog, SectorLog, ExposureLog, PassLog;
    violations := violations0;
    var a, log1 := ClampShorts(w, p, log);
    var b, log2 := ClampPositions(a, p, log1);
    var c, log3 := b, log2;
    StagesShrink(w, a, b, p, sectors);
    SameNames(w, a, b, sectors);
    if !AllClassified(b, sectors) {
      violations := Noted(violations, MissingSectors(MissingNames(b, sectors)));
      NoSectorLog(b, sectors);
    } else {
      c, log3 := ClampSectors(b, p, sectors, log2);
    }
    result, clamps := ClampExposure(c, p, log3);
    PassLogIs(w, a, b, c, result, p, sectors);
    Joined(log, WeightLog(NoShorting, w, a), WeightLog(MaxPosition, a, b), SectorLog(b, c, sectors),
           ExposureLog(c, result));
    if result == w { StagesIdentity(w, a, b, c, result); }
  }

  lemma SameNames(w: Book, a: Book, b: Book, sectors: map<Name, Name>)
    requires Shrinks(a, w) && Shrinks(b, a)
    ensures AllClassified(b, sectors) <==> AllClassified(w, sectors)
    ensures MissingNames(b, sectors) == MissingNames(w, sectors)
  {}

  lemma NoSectorLog(w: Book, sectors: map<Name, Name>)
    requires !AllClassified(w, sectors)
    ensures SectorLog(w, w, sectors) == []
  {}

  lemma StagesShrink(w: Book, a: Book, b: Book, p: Policy, sectors: map<Name, Name>)
    requires Coherent(p) && a == NoShorts(w, p) && b == PositionCapped(a, p)
    ensures Shrinks(a, w) && Shrinks(b, a)
    ensures Shrinks(SectorScaled(b, p, sectors), b)
    ensures Shrinks(ExposureScaled(SectorScaled(b, p, sectors), p), SectorScaled(b, p, sectors))
    ensures Shrinks(ExposureScaled(b, p), b)
    ensures !AllClassified(b, sectors) ==> SectorScaled(b, p, sectors) == b
  {
    hide Total, Shrinks, ExposureScaled, NoShorts, PositionCapped;
    NoShortsShrinks(w, p);
    PositionCappedShrinks(a, p);
    SectorScaledShrinks(b, p, sectors);
    ExposureScaledMeetsCaps(SectorScaled(b, p, sectors), p);
    ExposureScaledMeetsCaps(b, p);
  }

  /** Stages only ever shrink, so a pass that ends where it began changed nothing on the way. */
  lemma StagesIdentity(w: Book, a: Book, b: Book, c: Book, d: Book)
    requires Shrinks(a, w) && Shrinks(b, a) && Shrinks(c, b) && Shrinks(d, c) && d == w
    ensures a == w && b == w && c == w
  {
    hide Shrinks;
    ShrinksTransitive(w, c, b);
    ShrinksTransitive(w, b, a);
    ShrinksTransitive(b, a, w);
    ShrinksTransitive(c, b, w);
    ShrinksBothWays(a, w);
    ShrinksBothWays(b, w);
    ShrinksBothWays(c, w);
  }

  // ------------------------------------------------------------- the re-check

  /** The finding `v` is one the independent re-check makes of the book `w`. */
  ghost predicate Fires(v: Violation, w: Book, p: Policy, sectors: map<Name, Name>) {
    match v
    case ShortRemains => !p.allowShorting && exists t | t in w :: w[t] < -TOLERANCE
    case PositionCapExceeded => exists t | t in w :: Abs(w[t]) > p.maxPosition + TOLERANCE
    case MissingSectors(names) => !AllClassified(w, sectors) && names == MissingNames(w, sectors)
    case SectorExceeded(s, e) =>
      AllClassified(w, sectors) && OverExposed(w, p, sectors, s) && e == SectorExposure(w, sectors, s)
    case GrossCapExceeded => Gross(w) > p.maxGross + TOLERANCE
    case NetCapExceeded => Abs(Net(w)) > p.maxNet + TOLERANCE
    case LeverageRemains => !p.allowLeverage && Gross(w) > 1.0 + TOLERANCE
    case CashTooLow => 1.0 - Net(w) < p.minCash - TOLERANCE
    case StrategyExceeded(_) => false
  }

  predicate OverExposed(w: Book, p: Policy, sectors: map<Name, Name>, s: Name)
    requires AllClassified(w, sectors)
  {
    s in SectorNames(w, sectors) && SectorExposure(w, sectors, s) > p.maxSector + TOLERANCE
  }

  method RecordSectorViolations(
      w: Book, p: Policy, sectors: map<Name, Name>, violations0: seq<Violation>)
    returns (violations: seq<Violation>)
    requires AllClassified(w, sectors)
    ensures forall v :: v in violations <==>
      (v in violations0
       || (v.SectorExceeded? && OverExposed(w, p, sectors, v.sector)
           && v.exposure == SectorExposure(w, sectors, v.sector)))
  {
    hide Total, SectorExposure;
    violations := violations0;
    var all := SectorNames(w, sectors);
    var todo := all;
    while todo != {}
      invariant todo <= all
      invariant forall v :: v in violations <==>
        (v in violations0
         || (v.SectorExceeded? && v.sector in all - todo && OverExposed(w, p, sectors, v.sector)
             && v.exposure == SectorExposure(w, sectors, v.sector)))
    {
      var s := Least(todo);
      todo := todo - {s};
      var exposure := SectorExposure(w, sectors, s);
      if exposure > p.maxSector + TOLERANCE {
        violations := Noted(violations, SectorExceeded(s, exposure));
      }
    }
  }

  method RecordPositionViolations(w: Book, p: Policy, violations0: seq<Violation>)
    returns (violations: seq<Violation>)
    ensures forall v :: v in violations <==>
      (v in violations0
       || (v == ShortRemains && !p.allowShorting && exists t | t in w :: w[t] < -TOLERANCE)
       || (v == PositionCapExceeded && exists t | t in w :: Abs(w[t]) > p.maxPosition + TOLERANCE))
  {
    violations := violations0;
    if !p.allowShorting && exists t | t in w :: w[t] < -TOLERANCE {
      violations := Noted(violations, ShortRemains);
    }
    if exists t | t in w :: Abs(w[t]) > p.maxPosition + TOLERANCE {
      violations := Noted(violations, PositionCapExceeded);
    }
  }

  method RecordExposureViolations(gross: real, signedNet: real, p: Policy, violations0: seq<Violation>)
    returns (violations: seq<Violation>)
    ensures forall v :: v in violations <==>
      (v in violations0
       || (v == GrossCapExceeded && gross > p.maxGross + TOLERANCE)
       || (v == NetCapExceeded && Abs(signedNet) > p.maxNet + TOLERANCE)
       || (v == LeverageRemains && !p.allowLeverage && gross > 1.0 + TOLERANCE)
       || (v == CashTooLow && 1.0 - signedNet < p.minCash - TOLERANCE))
  {
    violations := violations0;
    if gross > p.maxGross + TOLERANCE { violations := Noted(violations, GrossCapExceeded); }
    if Abs(signedNet) > p.maxNet + TOLERANCE { violations := Noted(violations, NetCapExceeded); }
    if !p.allowLeverage && gross > 1.0 + TOLERANCE { violations := Noted(violations, LeverageRemains); }
    if 1.0 - signedNet < p.minCash - TOLERANCE { violations := Noted(violations, CashTooLow); }
  }

  /** Fails closed: exactly the findings that fire are on record afterwards. */
  method RecordSafetyViolations(
      w: Book, p: Policy, sectors: map<Name, Name>, violations0: seq<Violation>)
    returns (violations: seq<Violation>)
    ensures forall v :: v in violations <==> (v in violations0 || Fires(v, w, p, sectors))
  {
    hide Total, Gross, Net, SectorExposure, MissingNames, OverExposed, Abs;
    violations := RecordPositionViolations(w, p, violations0);
    if !AllClassified(w, sectors) {
      violations := Noted(violations, MissingSectors(MissingNames(w, sectors)));
    } else {
      violations := RecordSectorViolations(w, p, sectors, violations);
    }
    violations := RecordExposureViolations(Gross(w), Net(w), p, violations);
  }

  /** The re-check is redundant but for the net limit: on what the pipeline hands it, no
      position, short, sector, gross, leverage or cash finding can fire. */
  lemma OnlyNetCanFire(
      proposal: Book, c: Book, p: Policy, sectors: map<Name, Name>, v: Violation)
    requires Coherent(p) && Classified(proposal, c, p, sectors)
    requires Fires(v, Final(proposal, c, p, sectors), p, sectors)
    ensures v == NetCapExceeded
  {
    hide Total, Clamped, Turnover, SectorExposure, Gross, Net;
    var routed := Routed(proposal, c, p, sectors);
    RoutedIsSafe(proposal, c, p, sectors);
    DustKeepsLimits(routed, p, sectors);
  }

  lemma FinalFindings(proposal: Book, c: Book, p: Policy, sectors: map<Name, Name>)
    requires Coherent(p) && Classified(proposal, c, p, sectors)
    ensures var w := Final(proposal, c, p, sectors);
            forall v :: Fires(v, w, p, sectors) <==> (v == NetCapExceeded && !NetWithinTolerance(w, p))
  {
    hide Total, Final, Classified, Net;
    var w := Final(proposal, c, p, sectors);
    forall v | Fires(v, w, p, sectors) ensures v == NetCapExceeded {
      OnlyNetCanFire(proposal, c, p, sectors, v);
    }
  }

  // ------------------------------------------------------------- the evaluation

  method CheckStrategies(strategies: map<Name, real>, p: Policy, violations0: seq<Violation>)
    returns (violations: seq<Violation>)
    ensures forall v :: v in violations <==>
      v in violations0 || OverAllocated(v, strategies, p)
    ensures violations == [] <==> violations0 == [] && StrategiesWithin(strategies, p)
  {
    violations := violations0;
    var todo := strategies.Keys;
    while todo != {}
      invariant todo <= strategies.Keys
      invariant forall v :: v in violations <==>
        (v in violations0
         || (v.StrategyExceeded? && v.strategy in strategies.Keys - todo
             && strategies[v.strategy] > p.maxStrategy + TOLERANCE))
    {
      var s := Least(todo);
      todo := todo - {s};
      if strategies[s] > p.maxStrategy + TOLERANCE {
        violations := Noted(violations, StrategyExceeded(s));
      }
    }
    if violations0 != [] { assert violations0[0] in violations; }
    if violations != [] { assert violations[0] in violations; }
    if violations == [] {
      forall s | s in strategies ensures strategies[s] <= p.maxStrategy + TOLERANCE {
        assert StrategyExceeded(s) !in violations;
      }
    }
  }

  /** The interpolated weights, before any cut overrides them. */
  function Towards(safe: Book, c: Book, k: real): Name -> real { t => Toward(At(safe, t), At(c, t), k) }

  /** The log of the de-risking override: the weights it moved off the interpolation. */
  function OverrideLog(safe: Book, c: Book, k: real): seq<RiskClamp> {
    Changes(DeRiskOverride, safe.Keys + c.Keys, Towards(safe, c, k), Signed(Limited(safe, c, k)))
  }

  /** Interpolates toward the safe target, then lets every cut in absolute exposure override. */
  method LimitTurnover(safe: Book, c: Book, k: real, log: seq<RiskClamp>)
    returns (limited: Book, clamps: seq<RiskClamp>)
    ensures limited == Limited(safe, c, k)
    ensures clamps == log + OverrideLog(safe, c, k)
  {
    hide Toward, Total, Changes, Limited, Towards, Abs, At;
    LimitedKeys(safe, c, k);
    forall t | t in safe.Keys + c.Keys { LimitedPoint(safe, c, k, t); }
    clamps := log;
    var names := safe.Keys + c.Keys;
    limited := map t | t in names :: Toward(At(safe, t), At(c, t), k);
    ghost var start := limited;
    ghost var goal := Limited(safe, c, k);
    ghost var before, after := Towards(safe, c, k), Signed(goal);
    var todo := names;
    while todo != {}
      invariant todo <= names
      invariant Partly(limited, start, goal, todo)
      invariant clamps + Changes(DeRiskOverride, todo, before, after)
                == log + Changes(DeRiskOverride, names, before, after)
    {
      var t := Least(todo);
      ghost var was, left := clamps, todo;
      todo := todo - {t};
      var target := At(safe, t);
      if Abs(target) < Abs(At(c, t)) {
        var interpolated := limited[t];
        if interpolated != target {
          limited := limited[t := target];
          clamps := clamps + [RiskClamp(DeRiskOverride, t, interpolated, target)];
        }
      }
      ChangesStep(DeRiskOverride, left, before, after, was, clamps);
    }
    NoChanges(DeRiskOverride, {}, before, after);
  }

  lemma LimitedPoint(safe: Book, c: Book, k: real, t: Name)
    requires t in safe.Keys + c.Keys
    ensures t in Limited(safe, c, k) && Signed(Limited(safe, c, k))(t) == Limited(safe, c, k)[t]
    ensures Towards(safe, c, k)(t) == Toward(At(safe, t), At(c, t), k)
    ensures Limited(safe, c, k)[t]
            == if Abs(At(safe, t)) < Abs(At(c, t)) then At(safe, t) else Toward(At(safe, t), At(c, t), k)
  {
    hide Toward;
  }

  predicate NetWithinTolerance(w: Book, p: Policy) { Abs(Net(w)) <= p.maxNet + TOLERANCE }

  /** The whole clamp log: the first pass, and when the limit binds the turnover entry, the
      overrides and the second pass. */
  function GateLog(proposal: Book, c: Book, p: Policy, sectors: map<Name, Name>): seq<RiskClamp>
    requires Coherent(p)
  {
    var safe := Clamped(proposal, p, sectors);
    PassLog(proposal, p, sectors)
    + if !TurnoverBinds(safe, c, p) then []
      else [RiskClamp(MaxTurnover, "", Turnover(safe, c), p.maxTurnover)]
           + (OverrideLog(safe, c, p.maxTurnover / Turnover(safe, c)) + PassLog(Interpolated(safe, c, p), p, sectors))
  }

  /** The finding that some of these tickers have no sector. */
  ghost predicate SectorsMissing(v: Violation, names: set<Name>, sectors: map<Name, Name>) {
    !(names <= sectors.Keys) && v == MissingSectors(Sorted(names - sectors.Keys))
  }

  ghost predicate OverAllocated(v: Violation, strategies: map<Name, real>, p: Policy) {
    v.StrategyExceeded? && v.strategy in strategies && strategies[v.strategy] > p.maxStrategy + TOLERANCE
  }

  /** A finding made before the re-check: an allocation over its cap, or tickers without a sector,
      in the proposal or in the book the turnover limit leaves. */
  ghost predicate RouteFinding(
      v: Violation, proposal: Book, c: Book, p: Policy, sectors: map<Name, Name>, strategies: map<Name, real>)
    requires Coherent(p)
  {
    || OverAllocated(v, strategies, p)
    || SectorsMissing(v, proposal.Keys, sectors)
    || (TurnoverBinds(Clamped(proposal, p, sectors), c, p) && SectorsMissing(v, proposal.Keys + c.Keys, sectors))
  }

  /** Everything up to the dropping of dust: clamp, check allocations, limit turnover, clamp. */
  method RouteProposal(
      proposal: Book, p: Policy, c: Book, sectors: map<Name, Name>, strategies: map<Name, real>)
    returns (weights: Book, clamps: seq<RiskClamp>, violations: seq<Violation>)
    requires Coherent(p)
    ensures weights == Routed(proposal, c, p, sectors)
    ensures forall v :: v in violations <==> RouteFinding(v, proposal, c, p, sectors, strategies)
    ensures clamps == GateLog(proposal, c, p, sectors)
    ensures clamps == [] <==>
      Clamped(proposal, p, sectors) == proposal && !TurnoverBinds(proposal, c, p)
  {
    hide Total, Clamped, Turnover, Limited, PassLog, OverrideLog, GateLog, SectorsMissing, OverAllocated, Noted,
      MissingNames;
    weights, clamps, violations := ApplySafetyClamps(proposal, p, sectors, [], []);
    var safe := weights;
    PassFindings([], violations, proposal, proposal.Keys, sectors);
    violations := CheckStrategies(strategies, p, violations);
    var turnover := Turnover(weights, c);
    assert safe.Keys == proposal.Keys by { ClampedIsSafe(proposal, p, sectors); }
    GateLogIs(proposal, c, p, sectors, safe);
    if turnover > p.maxTurnover {
      InterpolationFactor(safe, c, p);
      clamps := clamps + [RiskClamp(MaxTurnover, "", turnover, p.maxTurnover)];
      var k := p.maxTurnover / turnover;
      weights, clamps := LimitTurnover(weights, c, k, clamps);
      LimitedKeys(safe, c, k);
      ghost var limited, early := weights, violations;
      weights, clamps, violations := ApplySafetyClamps(weights, p, sectors, clamps, violations);
      PassFindings(early, violations, limited, proposal.Keys + c.Keys, sectors);
    }
  }

  /** What one pass adds to the findings. */
  lemma PassFindings(
      before: seq<Violation>, after: seq<Violation>, w: Book, names: set<Name>, sectors: map<Name, Name>)
    requires w.Keys == names
    requires after == if AllClassified(w, sectors) then before
                      else Noted(before, MissingSectors(MissingNames(w, sectors)))
    ensures forall v :: v in after <==> v in before || SectorsMissing(v, names, sectors)
  {}

  lemma NoneMissing(names: set<Name>, sectors: map<Name, Name>)
    ensures (forall v :: !SectorsMissing(v, names, sectors)) <==> names <= sectors.Keys
  {
    if !(names <= sectors.Keys) { assert SectorsMissing(MissingSectors(Sorted(names - sectors.Keys)), names, sectors); }
  }

  lemma NoneOverAllocated(strategies: map<Name, real>, p: Policy)
    ensures (forall v :: !OverAllocated(v, strategies, p)) <==> StrategiesWithin(strategies, p)
  {
    if forall v :: !OverAllocated(v, strategies, p) {
      forall s | s in strategies ensures strategies[s] <= p.maxStrategy + TOLERANCE {
        assert !OverAllocated(StrategyExceeded(s), strategies, p);
      }
    }
  }

  lemma ClassifiedIs(proposal: Book, c: Book, p: Policy, sectors: map<Name, Name>)
    requires Coherent(p)
    ensures Classified(proposal, c, p, sectors) <==>
              proposal.Keys <= sectors.Keys
              && (TurnoverBinds(Clamped(proposal, p, sectors), c, p) ==> proposal.Keys + c.Keys <= sectors.Keys)
  {
    hide Clamped, Turnover;
  }

  /** No such finding exactly when all is classified and no allocation exceeds its cap. */
  lemma NoRouteFinding(proposal: Book, c: Book, p: Policy, sectors: map<Name, Name>, strategies: map<Name, real>)
    requires Coherent(p)
    ensures (forall v :: !RouteFinding(v, proposal, c, p, sectors, strategies))
            <==> Classified(proposal, c, p, sectors) && StrategiesWithin(strategies, p)
  {
    hide Clamped, TurnoverBinds, SectorsMissing, OverAllocated, Classified, StrategiesWithin;
    NoneMissing(proposal.Keys, sectors);
    NoneMissing(proposal.Keys + c.Keys, sectors);
    NoneOverAllocated(strategies, p);
    ClassifiedIs(proposal, c, p, sectors);
    if forall v :: !RouteFinding(v, proposal, c, p, sectors, strategies) {
      forall v ensures !OverAllocated(v, strategies, p) && !SectorsMissing(v, proposal.Keys, sectors) {
        assert !RouteFinding(v, proposal, c, p, sectors, strategies);
      }
      if TurnoverBinds(Clamped(proposal, p, sectors), c, p) {
        forall v ensures !SectorsMissing(v, proposal.Keys + c.Keys, sectors) {
          assert !RouteFinding(v, proposal, c, p, sectors, strategies);
        }
      }
    }
  }

  lemma ClassifiedFindings(
      v: Violation, proposal: Book, c: Book, p: Policy, sectors: map<Name, Name>, strategies: map<Name, real>)
    requires Coherent(p) && Classified(proposal, c, p, sectors)
    ensures RouteFinding(v, proposal, c, p, sectors, strategies) ==> v.StrategyExceeded?
  {
    hide Clamped, TurnoverBinds;
    ClassifiedIs(proposal, c, p, sectors);
  }

  lemma GateLogIs(proposal: Book, c: Book, p: Policy, sectors: map<Name, Name>, safe: Book)
    requires Coherent(p) && safe == Clamped(proposal, p, sectors)
    ensures Turnover(safe, c) <= p.maxTurnover ==> GateLog(proposal, c, p, sectors) == PassLog(proposal, p, sectors)
    ensures Turnover(safe, c) > p.maxTurnover ==>
      GateLog(proposal, c, p, sectors)
      == PassLog(proposal, p, sectors) + [RiskClamp(MaxTurnover, "", Turnover(safe, c), p.maxTurnover)]
         + OverrideLog(safe, c, p.maxTurnover / Turnover(safe, c)) + PassLog(Interpolated(safe, c, p), p, sectors)
  {
    hide Clamped, Turnover, Limited, PassLog, OverrideLog;
  }

  method EvaluateRisk(
      proposal: Book, p: Policy, c: Book, sectors: map<Name, Name>, strategies: map<Name, real>)
    returns (d: Decision, clamps: seq<RiskClamp>)
    requires Coherent(p)
    ensures d.finalWeights == Final(proposal, c, p, sectors)
    ensures d.approved <==> Approves(proposal, p, c, sectors, strategies)
    ensures d.approved <==> d.violations == []
    ensures forall v :: v in d.violations <==>
      RouteFinding(v, proposal, c, p, sectors, strategies) || Fires(v, d.finalWeights, p, sectors)
    ensures Classified(proposal, c, p, sectors) ==>
      forall v | v in d.violations :: v.StrategyExceeded? || v == NetCapExceeded
    ensures d.turnoverWarning <==> Turnover(d.finalWeights, c) > p.maxTurnover + TOLERANCE
    ensures clamps == GateLog(proposal, c, p, sectors)
    ensures clamps == [] <==>
      Clamped(proposal, p, sectors) == proposal && !TurnoverBinds(proposal, c, p)
  {
    hide Total, Clamped, Turnover, Routed, WithoutDust, NetWithinTolerance, Fires, TurnoverBinds, GateLog,
      RouteFinding, Classified;
    var weights, violations;
    weights, clamps, violations := RouteProposal(proposal, p, c, sectors, strategies);
    weights := WithoutDust(weights);
    violations := RecordSafetyViolations(weights, p, sectors, violations);
    NoRouteFinding(proposal, c, p, sectors, strategies);
    if Classified(proposal, c, p, sectors) {
      FinalFindings(proposal, c, p, sectors);
      assert weights == Final(proposal, c, p, sectors);
      assert NetCapExceeded in violations <== !NetWithinTolerance(weights, p);
      forall v { ClassifiedFindings(v, proposal, c, p, sectors, strategies); }
    }
    if violations != [] { assert violations[0] in violations; }
    var warning := Turnover(weights, c) > p.maxTurnover + TOLERANCE;
    d := Decision(violations == [], weights, violations, warning);
  }

  /** The evaluation's verdict as a function of its inputs. */
  ghost predicate Approves(
      proposal: Book, p: Policy, c: Book, sectors: map<Name, Name>, strategies: map<Name, real>)
    requires Coherent(p)
  {
    && Classified(proposal, c, p, sectors) && StrategiesWithin(strategies, p)
    && NetWithinTolerance(Final(proposal, c, p, sectors), p)
  }

  lemma RoutedNames(proposal: Book, c: Book, p: Policy, sectors: map<Name, Name>)
    requires Coherent(p)
    ensures |Routed(proposal, c, p, sectors)| <= |proposal.Keys + c.Keys|
  {
    hide Total, Clamped, Turnover, Limited, Safe;
    var safe, routed := Clamped(proposal, p, sectors), Routed(proposal, c, p, sectors);
    ClampedIsSafe(proposal, p, sectors);
    if TurnoverBinds(safe, c, p) {
      InterpolationFactor(safe, c, p);
      LimitedKeys(safe, c, p.maxTurnover / Turnover(safe, c));
      ClampedIsSafe(Interpolated(safe, c, p), p, sectors);
    }
    assert routed.Keys <= proposal.Keys + c.Keys;
    SubsetSize(routed.Keys, proposal.Keys + c.Keys);
    assert |routed| == |routed.Keys|;
  }

  /** The net re-check stays silent with shorting off, on a long-only proposal against a
      long-only book of any size, and otherwise up to 1001 tickers. */
  lemma NetReCheckSilent(proposal: Book, c: Book, p: Policy, sectors: map<Name, Name>)
    requires Coherent(p)
    requires !p.allowShorting || (LongOnly(proposal) && LongOnly(c)) || |proposal.Keys + c.Keys| <= 1001
    ensures NetWithinTolerance(Final(proposal, c, p, sectors), p)
  {
    hide Total, Routed;
    RoutedIsSafe(proposal, c, p, sectors);
    RoutedNames(proposal, c, p, sectors);
    if !p.allowShorting || (LongOnly(proposal) && LongOnly(c)) { RoutedLongOnly(proposal, c, p, sectors); }
    DustKeepsNet(Routed(proposal, c, p, sectors), p, sectors);
  }

  /** The gate approves exactly when every ticker it clamps has a sector and no strategy is
      over its cap. */
  lemma ApprovalCondition(
      proposal: Book, p: Policy, c: Book, sectors: map<Name, Name>, strategies: map<Name, real>)
    requires Coherent(p)
    requires !p.allowShorting || (LongOnly(proposal) && LongOnly(c)) || |proposal.Keys + c.Keys| <= 1001
    ensures Approves(proposal, p, c, sectors, strategies) <==>
      Classified(proposal, c, p, sectors) && StrategiesWithin(strategies, p)
  {
    hide Total, Routed, Final, Classified, StrategiesWithin, NetWithinTolerance;
    NetReCheckSilent(proposal, c, p, sectors);
  }

  /** The turnover warning of a long-only evaluation means that exposure was cut: with nothing to
      cut and at most 2000 tickers, the final turnover is within the tolerance. */
  lemma NoWarningWithoutCut(proposal: Book, c: Book, p: Policy, sectors: map<Name, Name>)
    requires Coherent(p) && LongOnly(c) && (!p.allowShorting || LongOnly(proposal))
    requires |proposal.Keys + c.Keys| <= 2000 && NothingToCut(Clamped(proposal, p, sectors), c)
    ensures Turnover(Final(proposal, c, p, sectors), c) <= p.maxTurnover + TOLERANCE
  {
    hide Total, Routed, Final, Turnover, Clamped, NothingToCut;
    var routed := Routed(proposal, c, p, sectors);
    TurnoverWithinLimit(proposal, c, p, sectors);
    RoutedNames(proposal, c, p, sectors);
    SubsetSize(Dusty(routed), routed.Keys);
    assert |routed| == |routed.Keys|;
    HalfDustTotal(|Dusty(routed)|);
  }

  lemma HalfDustTotal(n: nat)
    requires n <= 2000
    ensures 0.5 * (n as real * DUST) <= TOLERANCE
  {}

  /** No evaluation of at most `n` tickers, all acceptable, ends over the net limit. */
  ghost predicate NetHoldsUpTo(n: nat) {
    forall proposal: Book, c: Book, p: Policy, sectors: map<Name, Name>
      | Coherent(p) && ValidTickers(proposal) && ValidTickers(c) && |proposal.Keys + c.Keys| <= n ::
        NetWithinTolerance(Final(proposal, c, p, sectors), p)
  }

  /** 1001 tickers is exactly how far the 1e-12 tolerance covers the dropping of 1e-15 dust. */
  lemma NetHoldsUpToIff(n: nat)
    ensures NetHoldsUpTo(n) <==> n <= 1001
  {
    hide Total, Routed, Final, NetWithinTolerance;
    if n <= 1001 {
      forall proposal: Book, c: Book, p: Policy, sectors: map<Name, Name>
        | Coherent(p) && ValidTickers(proposal) && ValidTickers(c) && |proposal.Keys + c.Keys| <= n
        ensures NetWithinTolerance(Final(proposal, c, p, sectors), p)
      {
        NetReCheckSilent(proposal, c, p, sectors);
      }
    } else {
      SharpBookBreaks();
    }
  }

  lemma {:induction false} DustNamesSize(n: nat)
    ensures |DustNames(n)| <= n
  {
    if n > 0 { DustNamesSize(n - 1); }
  }

  lemma SharpBookBreaks()
    ensures var none: Book := map[];
            && Coherent(SHARP_POLICY) && ValidTickers(SharpBook(1001)) && |SharpBook(1001).Keys + none.Keys| <= 1002
            && !NetWithinTolerance(Final(SharpBook(1001), none, SHARP_POLICY, SharpSectors(1001)), SHARP_POLICY)
  {
    hide Total, Final, DustNames, SharpBook, SharpSectors, Routed, Classified, Net, ValidTickers;
    var none: Book := map[];
    DustBoundIsSharp(1001);
    DustNamesSize(1001);
    SharpBookShape(1001);
    assert SharpBook(1001).Keys + none.Keys == DustNames(1001) + {"L"};
  }
}
