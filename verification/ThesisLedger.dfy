/** The append-only ledger of thesis versions: one table row per version, chained per ticker
    by supersession, read back in full or as of a point in time. */
module ThesisLedger {
  import opened Names
  import opened Wrappers

  /** A timezone-aware time: microseconds since the epoch, and the UTC offset in minutes. */
  datatype Stamp = Stamp(instant: int, offset: int)

  function Wall(s: Stamp): int { s.instant + 60_000_000 * s.offset }

  /** Place of the offset's text: "+00:00" < "+05:00" < "-01:00" < "-05:00". */
  function OffsetRank(offset: int): int { if offset >= 0 then offset else 100_000 - offset }

  /** How the ISO texts of two stamps compare: wall time first, then the offset. */
  predicate TextLe(a: Stamp, b: Stamp) {
    Wall(a) < Wall(b) || (Wall(a) == Wall(b) && OffsetRank(a.offset) <= OffsetRank(b.offset))
  }

  datatype Status = Draft | Active | Strengthened | Weakened | Invalidated | Resolved | Archived

  predicate Allowed(from: Status, to: Status) {
    match from
    case Draft => to in {Draft, Active, Archived}
    case Active | Strengthened | Weakened =>
      to in {Active, Strengthened, Weakened, Invalidated, Resolved, Archived}
    case Invalidated | Resolved => to == Archived
    case Archived => false
  }

  datatype Thesis = Thesis(
    id: Name, ticker: Name, version: int, asOf: Stamp, status: Status, supersedes: Option<Name>, body: string)

  datatype Row = Row(id: Name, ticker: Name, version: int, asOf: Stamp, json: string, hash: string)

  /** Canonical JSON, the validating parser and the record digest. */
  datatype Codec = Codec(json: Thesis -> string, parse: string -> Option<Thesis>, digest: Thesis -> string)

  ghost predicate RoundTrips(k: Codec) { forall t :: k.parse(k.json(t)) == Some(t) }

  ghost predicate DigestCollisionFree(k: Codec) { forall s, t :: k.digest(s) == k.digest(t) ==> s == t }

  datatype ThesisError =
    | IdentityConflict | NotFirst | VersionGap | WrongPredecessor | NotLater | IllegalStatus
    | Unreadable | UniqueViolation | Tampered

  function RowOf(k: Codec, t: Thesis): Row { Row(t.id, t.ticker, t.version, t.asOf, k.json(t), k.digest(t)) }

  // -------------------------------------------------------------------- queries

  function ById(rows: seq<Row>, id: Name): Option<Row> {
    if rows == [] then None
    else if rows[|rows| - 1].id == id then Some(rows[|rows| - 1]) else ById(rows[..|rows| - 1], id)
  }

  /** `ORDER BY version DESC LIMIT 1` */
  function LatestRow(rows: seq<Row>, ticker: Name): Option<Row> {
    if rows == [] then None
    else
      var r, before := rows[|rows| - 1], LatestRow(rows[..|rows| - 1], ticker);
      if r.ticker == ticker && (before.None? || before.value.version <= r.version) then Some(r) else before
  }

  predicate Wanted(r: Row, ticker: Name, asOf: Option<Stamp>) {
    r.ticker == ticker && (asOf.None? || TextLe(r.asOf, asOf.value))
  }

  function InsertByVersion(s: seq<Row>, r: Row): seq<Row> {
    if s == [] || s[|s| - 1].version <= r.version then s + [r]
    else InsertByVersion(s[..|s| - 1], r) + [s[|s| - 1]]
  }

  /** `WHERE ticker = ? AND as_of <= ? ORDER BY version`, the times compared as text */
  function Query(rows: seq<Row>, ticker: Name, asOf: Option<Stamp>): seq<Row> {
    if rows == [] then []
    else
      var r, before := rows[|rows| - 1], Query(rows[..|rows| - 1], ticker, asOf);
      if Wanted(r, ticker, asOf) then InsertByVersion(before, r) else before
  }

  predicate Authentic(k: Codec, r: Row) { k.parse(r.json).Some? && k.digest(k.parse(r.json).value) == r.hash }

  /** What reading rows back gives: every thesis, or the first row's failure. */
  function ReadAll(k: Codec, rows: seq<Row>): Result<seq<Thesis>, ThesisError> {
    if rows == [] then Ok([])
    else
      var n := |rows| - 1;
      var before := ReadAll(k, rows[..n]);
      if before.Err? then before
      else if k.parse(rows[n].json).None? then Err(Unreadable)
      else if !Authentic(k, rows[n]) then Err(Tampered)
      else Ok(before.value + [k.parse(rows[n].json).value])
  }

  function History(k: Codec, rows: seq<Row>, ticker: Name, asOf: Option<Stamp>)
    : Result<seq<Thesis>, ThesisError> { ReadAll(k, Query(rows, ticker, asOf)) }

  // --------------------------------------------------------------------- append

  /** Why a thesis may not follow the latest version of its ticker, if it may not. */
  function Objection(latest: Thesis, t: Thesis): Option<ThesisError> {
    if t.version != latest.version + 1 then Some(VersionGap)
    else if t.supersedes != Some(latest.id) then Some(WrongPredecessor)
    else if t.asOf.instant <= latest.asOf.instant then Some(NotLater)
    else if !Allowed(latest.status, t.status) then Some(IllegalStatus)
    else None
  }

  predicate VersionTaken(rows: seq<Row>, t: Thesis) {
    exists i | 0 <= i < |rows| :: rows[i].ticker == t.ticker && rows[i].version == t.version
  }

  /** What one append does to the table, or why it is refused. */
  function AppendTo(k: Codec, rows: seq<Row>, t: Thesis): Result<seq<Row>, ThesisError> {
    var row, existing, latest := RowOf(k, t), ById(rows, t.id), LatestRow(rows, t.ticker);
    if existing.Some? then
      if existing.value.json == row.json && existing.value.hash == row.hash
      then Ok(rows) else Err(IdentityConflict)
    else if latest.None? && (t.version != 1 || t.supersedes.Some?) then Err(NotFirst)
    else if latest.Some? && k.parse(latest.value.json).None? then Err(Unreadable)
    else if latest.Some? && Objection(k.parse(latest.value.json).value, t).Some? then
      Err(Objection(k.parse(latest.value.json).value, t).value)
    else if VersionTaken(rows, t) then Err(UniqueViolation)
    else Ok(rows + [row])
  }

  class Ledger {
    const codec: Codec
    var rows: seq<Row>

    /** Opens whatever a file holds; a new file holds nothing. */
    constructor (k: Codec, stored: seq<Row>)
      ensures codec == k && rows == stored
    {
      codec, rows := k, stored;
    }

    /** Stores a thesis, or raises and stores nothing. */
    method Append(t: Thesis) returns (r: Result<(), ThesisError>)
      modifies this`rows
      ensures match AppendTo(codec, old(rows), t)
              case Ok(next) => r == Ok(()) && rows == next
              case Err(e) => r == Err(e) && rows == old(rows)
    {
      var row, existing := RowOf(codec, t), ById(rows, t.id);
      if existing.Some? {
        if (existing.value.json, existing.value.hash) != (row.json, row.hash) { return Err(IdentityConflict); }
        return Ok(());
      }
      var latestRow := LatestRow(rows, t.ticker);
      if latestRow.None? {
        if t.version != 1 || t.supersedes.Some? { return Err(NotFirst); }
      } else {
        var parsed := codec.parse(latestRow.value.json);
        if parsed.None? { return Err(Unreadable); }
        var latest := parsed.value;
        if t.version != latest.version + 1 { return Err(VersionGap); }
        if t.supersedes != Some(latest.id) { return Err(WrongPredecessor); }
        if t.asOf.instant <= latest.asOf.instant { return Err(NotLater); }
        if !Allowed(latest.status, t.status) { return Err(IllegalStatus); }
      }
      if VersionTaken(rows, t) { return Err(UniqueViolation); }
      rows := rows + [row];
      r := Ok(());
    }

    method ReadHistory(ticker: Name, asOf: Option<Stamp>) returns (r: Result<seq<Thesis>, ThesisError>)
      ensures r == History(codec, rows, ticker, asOf)
    {
      var found := Query(rows, ticker, asOf);
      var values: seq<Thesis> := [];
      for i := 0 to |found|
        invariant ReadAll(codec, found[..i]) == Ok(values)
      {
        var parsed := codec.parse(found[i].json);
        assert found[..i + 1][..i] == found[..i];
        if parsed.None? { FirstFailure(codec, found, i); return Err(Unreadable); }
        if codec.digest(parsed.value) != found[i].hash { FirstFailure(codec, found, i); return Err(Tampered); }
        values := values + [parsed.value];
      }
      assert found[..|found|] == found;
      r := Ok(values);
    }

    method Latest(ticker: Name, asOf: Option<Stamp>) returns (r: Result<Option<Thesis>, ThesisError>)
      ensures match History(codec, rows, ticker, asOf)
              case Ok(h) => r == Ok(if h == [] then None else Some(h[|h| - 1]))
              case Err(e) => r == Err(e)
    {
      var history := ReadHistory(ticker, asOf);
      if history.Err? { return Err(history.error); }
      var h := history.value;
      r := Ok(if h == [] then None else Some(h[|h| - 1]));
    }
  }

  lemma {:induction false} FirstFailure(k: Codec, rows: seq<Row>, i: nat)
    requires i < |rows| && ReadAll(k, rows[..i + 1]).Err?
    ensures ReadAll(k, rows) == ReadAll(k, rows[..i + 1])
    decreases |rows|
  {
    if i + 1 == |rows| {
      assert rows[..i + 1] == rows;
    } else {
      var shorter := rows[..|rows| - 1];
      assert shorter[..i + 1] == rows[..i + 1];
      FirstFailure(k, shorter, i);
    }
  }

  /** For any table, the rows read are the wanted ones, each once, in order of version. */
  lemma {:induction false} QueryIsOrderedSelection(rows: seq<Row>, ticker: Name, asOf: Option<Stamp>)
    ensures var q := Query(rows, ticker, asOf);
            && ByVersion(q)
            && (forall r :: multiset(q)[r] == if Wanted(r, ticker, asOf) then multiset(rows)[r] else 0)
  {
    if rows != [] {
      var n := |rows| - 1;
      assert rows == rows[..n] + [rows[n]];
      QueryIsOrderedSelection(rows[..n], ticker, asOf);
      if Wanted(rows[n], ticker, asOf) {
        InsertContents(Query(rows[..n], ticker, asOf), rows[n]);
        InsertKeepsOrder(Query(rows[..n], ticker, asOf), rows[n]);
      }
    }
  }

  ghost predicate ByVersion(s: seq<Row>) { forall i, j | 0 <= i < j < |s| :: s[i].version <= s[j].version }

  lemma {:induction false} InsertContents(s: seq<Row>, r: Row)
    ensures multiset(InsertByVersion(s, r)) == multiset(s) + multiset{r}
  {
    if s != [] && s[|s| - 1].version > r.version {
      InsertContents(s[..|s| - 1], r);
      assert s == s[..|s| - 1] + [s[|s| - 1]];
    }
  }

  lemma {:induction false} InsertBounded(s: seq<Row>, r: Row, top: int)
    requires r.version <= top && forall i | 0 <= i < |s| :: s[i].version <= top
    ensures forall i | 0 <= i < |InsertByVersion(s, r)| :: InsertByVersion(s, r)[i].version <= top
  {
    if s != [] && s[|s| - 1].version > r.version { InsertBounded(s[..|s| - 1], r, top); }
  }

  lemma {:induction false} InsertKeepsOrder(s: seq<Row>, r: Row)
    requires ByVersion(s)
    ensures ByVersion(InsertByVersion(s, r))
  {
    if s != [] && s[|s| - 1].version > r.version {
      InsertKeepsOrder(s[..|s| - 1], r);
      InsertBounded(s[..|s| - 1], r, s[|s| - 1].version);
    }
  }

  // ------------------------------------------------- what every ledger satisfies

  /** The versions of one ticker, in the order they were accepted. */
  function OfTicker(log: seq<Thesis>, ticker: Name): seq<Thesis> {
    if log == [] then []
    else
      var t, before := log[|log| - 1], OfTicker(log[..|log| - 1], ticker);
      if t.ticker == ticker then before + [t] else before
  }

  /** Versions 1..n, each superseding the one before, strictly later, by a legal step. */
  ghost predicate Lineage(h: seq<Thesis>) {
    forall i | 0 <= i < |h| ::
      && h[i].version == i + 1
      && (i == 0 ==> h[i].supersedes == None)
      && (i > 0 ==> (
            && h[i].supersedes == Some(h[i - 1].id)
            && h[i - 1].asOf.instant < h[i].asOf.instant
            && Allowed(h[i - 1].status, h[i].status)))
  }

  ghost predicate Follows(h: seq<Thesis>, t: Thesis) {
    if h == [] then t.version == 1 && t.supersedes == None else Objection(h[|h| - 1], t) == None
  }

  predicate IdUsed(log: seq<Thesis>, id: Name) { exists i | 0 <= i < |log| :: log[i].id == id }

  /** The accepted theses after one more append: the specification of the table. */
  ghost function Accept(log: seq<Thesis>, t: Thesis): seq<Thesis> {
    if IdUsed(log, t.id) || !Follows(OfTicker(log, t.ticker), t) then log else log + [t]
  }

  ghost function AcceptAll(log: seq<Thesis>, later: seq<Thesis>): seq<Thesis>
    decreases |later|
  {
    if later == [] then log else AcceptAll(Accept(log, later[0]), later[1..])
  }

  function AppendAll(k: Codec, rows: seq<Row>, later: seq<Thesis>): seq<Row>
    decreases |later|
  {
    if later == [] then rows
    else
      var step := AppendTo(k, rows, later[0]);
      AppendAll(k, if step.Ok? then step.value else rows, later[1..])
  }

  ghost predicate Stored(k: Codec, rows: seq<Row>, log: seq<Thesis>) {
    |rows| == |log| && forall i | 0 <= i < |rows| :: rows[i] == RowOf(k, log[i])
  }

  ghost predicate Sound(log: seq<Thesis>) {
    && (forall i, j | 0 <= i < j < |log| :: log[i].id != log[j].id)
    && (forall ticker :: Lineage(OfTicker(log, ticker)))
  }

  lemma {:induction false} OfTickerMembers(log: seq<Thesis>, ticker: Name)
    ensures forall t :: t in OfTicker(log, ticker) <==> t in log && t.ticker == ticker
  {
    if log != [] {
      OfTickerMembers(log[..|log| - 1], ticker);
      assert log == log[..|log| - 1] + [log[|log| - 1]];
    }
  }

  lemma OfTickerExtend(log: seq<Thesis>, t: Thesis, ticker: Name)
    ensures OfTicker(log + [t], ticker) == OfTicker(log, ticker) + if t.ticker == ticker then [t] else []
  {}

  lemma {:induction false} ByIdFinds(k: Codec, rows: seq<Row>, log: seq<Thesis>, id: Name)
    requires Stored(k, rows, log)
    ensures ById(rows, id).Some? <==> IdUsed(log, id)
    ensures ById(rows, id).Some? ==>
              exists i :: 0 <= i < |log| && log[i].id == id && ById(rows, id).value == RowOf(k, log[i])
  {
    if rows != [] {
      var n := |rows| - 1;
      if rows[n].id == id {
        assert log[n].id == id;
      } else {
        ByIdFinds(k, rows[..n], log[..n], id);
        if IdUsed(log, id) {
          var i :| 0 <= i < |log| && log[i].id == id;
          assert log[..n][i].id == id;
        }
      }
    }
  }

  lemma {:induction false} LatestRowIsLast(k: Codec, rows: seq<Row>, log: seq<Thesis>, ticker: Name)
    requires Stored(k, rows, log) && Lineage(OfTicker(log, ticker))
    ensures var h := OfTicker(log, ticker);
            LatestRow(rows, ticker) == if h == [] then None else Some(RowOf(k, h[|h| - 1]))
  {
    if rows != [] {
      var n := |rows| - 1;
      var h, before := OfTicker(log, ticker), OfTicker(log[..n], ticker);
      assert before == h[..|before|];
      LineagePrefix(h, |before|);
      LatestRowIsLast(k, rows[..n], log[..n], ticker);
    }
  }

  lemma LineagePrefix(h: seq<Thesis>, m: nat)
    requires Lineage(h) && m <= |h|
    ensures Lineage(h[..m])
  {}

  lemma LineageExtend(h: seq<Thesis>, t: Thesis)
    requires Lineage(h) && Follows(h, t)
    ensures Lineage(h + [t])
  {}

  lemma AcceptKeepsSound(log: seq<Thesis>, t: Thesis)
    requires Sound(log)
    ensures Sound(Accept(log, t))
  {
    if !IdUsed(log, t.id) && Follows(OfTicker(log, t.ticker), t) {
      forall ticker ensures Lineage(OfTicker(log + [t], ticker)) {
        OfTickerExtend(log, t, ticker);
        if t.ticker == ticker {
          LineageExtend(OfTicker(log, ticker), t);
        } else {
          assert OfTicker(log + [t], ticker) == OfTicker(log, ticker);
        }
      }
    }
  }

  /** A version that may follow is never taken: the table's own uniqueness constraint is idle. */
  lemma NextVersionFree(k: Codec, rows: seq<Row>, log: seq<Thesis>, t: Thesis)
    requires Stored(k, rows, log) && Sound(log) && Follows(OfTicker(log, t.ticker), t)
    ensures !VersionTaken(rows, t)
  {
    var h := OfTicker(log, t.ticker);
    OfTickerMembers(log, t.ticker);
    forall i | 0 <= i < |rows| && rows[i].ticker == t.ticker ensures rows[i].version <= |h| {
      assert log[i] in h;
    }
    assert t.version == |h| + 1;
  }

  /** On a stored sound log the table accepts exactly what the specification accepts, an
      accepted thesis may be sent again, and neither a clash of versions nor an unreadable
      row is ever reported. */
  lemma AppendRefinesAccept(k: Codec, rows: seq<Row>, log: seq<Thesis>, t: Thesis)
    requires RoundTrips(k) && Stored(k, rows, log) && Sound(log)
    ensures var step := AppendTo(k, rows, t);
            && (step.Ok? <==> t in Accept(log, t))
            && Stored(k, if step.Ok? then step.value else rows, Accept(log, t))
            && (step.Err? ==> step.error != UniqueViolation && step.error != Unreadable)
            && (step == Err(IdentityConflict) <==> IdUsed(log, t.id) && t !in log)
  {
    if IdUsed(log, t.id) { AppendKnownId(k, rows, log, t); } else { AppendFreshId(k, rows, log, t); }
  }

  lemma AppendKnownId(k: Codec, rows: seq<Row>, log: seq<Thesis>, t: Thesis)
    requires RoundTrips(k) && Stored(k, rows, log) && Sound(log) && IdUsed(log, t.id)
    ensures AppendTo(k, rows, t) == if t in log then Ok(rows) else Err(IdentityConflict)
  {
    hide Lineage, OfTicker, LatestRow;
    ByIdFinds(k, rows, log, t.id);
    var i :| 0 <= i < |log| && log[i].id == t.id && ById(rows, t.id).value == RowOf(k, log[i]);
    assert k.parse(k.json(t)) == Some(t) && k.parse(k.json(log[i])) == Some(log[i]);
    if t in log {
      var j :| 0 <= j < |log| && log[j] == t;
      assert i == j;
    }
  }

  lemma AppendFreshId(k: Codec, rows: seq<Row>, log: seq<Thesis>, t: Thesis)
    requires RoundTrips(k) && Stored(k, rows, log) && Sound(log) && !IdUsed(log, t.id)
    ensures t !in log
    ensures var step := AppendTo(k, rows, t);
            if Follows(OfTicker(log, t.ticker), t) then step == Ok(rows + [RowOf(k, t)])
            else step.Err? && step.error !in {UniqueViolation, Unreadable, IdentityConflict}
  {
    hide OfTicker, LatestRow, VersionTaken, Stored;
    var h := OfTicker(log, t.ticker);
    LineageOf(log, t.ticker);
    ByIdFinds(k, rows, log, t.id);
    LatestRowIsLast(k, rows, log, t.ticker);
    if h != [] { assert k.parse(k.json(h[|h| - 1])) == Some(h[|h| - 1]); }
    if Follows(h, t) { NextVersionFree(k, rows, log, t); }
  }

  lemma {:induction false} AppendAllRefines(k: Codec, rows: seq<Row>, log: seq<Thesis>, later: seq<Thesis>)
    requires RoundTrips(k) && Stored(k, rows, log) && Sound(log)
    ensures Stored(k, AppendAll(k, rows, later), AcceptAll(log, later)) && Sound(AcceptAll(log, later))
    decreases |later|
  {
    hide Stored, Sound, RoundTrips, Accept, AppendTo;
    if later != [] {
      AppendRefinesAccept(k, rows, log, later[0]);
      AcceptKeepsSound(log, later[0]);
      var step := AppendTo(k, rows, later[0]);
      AppendAllRefines(k, if step.Ok? then step.value else rows, Accept(log, later[0]), later[1..]);
    }
  }

  /** Every reachable ledger: whatever was sent to it, the history of each ticker reads back
      without error as versions 1..n in a legal, strictly advancing supersession chain. */
  lemma EveryLedger(k: Codec, sent: seq<Thesis>, ticker: Name)
    requires RoundTrips(k)
    ensures var h := History(k, AppendAll(k, [], sent), ticker, None); h.Ok? && Lineage(h.value)
  {
    hide Lineage, RoundTrips;
    var rows, log := AppendAll(k, [], sent), AcceptAll([], sent);
    assert Sound([]) by { EmptySound(); }
    AppendAllRefines(k, [], [], sent);
    QueryRefines(k, rows, log, ticker, None);
    ReadsBack(k, Selected(OfTicker(log, ticker), None));
    SelectsAll(OfTicker(log, ticker));
  }

  lemma EmptySound()
    ensures Sound([])
  {}

  /** Nothing but archiving follows an invalidated or resolved version, and nothing at all an
      archived one; a draft is never returned to. */
  lemma {:induction false} EndsOfLife(h: seq<Thesis>, i: nat)
    requires Lineage(h) && i < |h|
    ensures h[i].status in {Invalidated, Resolved} ==> |h| <= i + 2 && (|h| == i + 2 ==> h[i + 1].status == Archived)
    ensures h[i].status == Archived ==> |h| == i + 1
    ensures h[i].status != Draft ==> forall j | i <= j < |h| :: h[j].status != Draft
    decreases |h| - i
  {
    if i + 1 < |h| {
      assert Allowed(h[i].status, h[i + 1].status);
      EndsOfLife(h, i + 1);
    }
  }

  // ---------------------------------------------------------- point-in-time reads

  function Selected(h: seq<Thesis>, asOf: Option<Stamp>): seq<Thesis> {
    if h == [] then []
    else
      var t, before := h[|h| - 1], Selected(h[..|h| - 1], asOf);
      if asOf.None? || TextLe(t.asOf, asOf.value) then before + [t] else before
  }

  function RowsOf(k: Codec, h: seq<Thesis>): seq<Row> { seq(|h|, i requires 0 <= i < |h| => RowOf(k, h[i])) }

  lemma {:induction false} SelectsAll(h: seq<Thesis>)
    ensures Selected(h, None) == h
  {
    if h != [] { SelectsAll(h[..|h| - 1]); }
  }

  lemma {:induction false} SelectedVersions(h: seq<Thesis>, asOf: Option<Stamp>)
    requires Lineage(h)
    ensures forall i | 0 <= i < |Selected(h, asOf)| :: Selected(h, asOf)[i].version <= |h|
  {
    if h != [] { SelectedVersions(h[..|h| - 1], asOf); }
  }

  lemma AppendsInOrder(k: Codec, s: seq<Thesis>, t: Thesis)
    requires forall i | 0 <= i < |s| :: s[i].version < t.version
    ensures InsertByVersion(RowsOf(k, s), RowOf(k, t)) == RowsOf(k, s + [t])
  {}

  /** On a sound ledger a query returns the selected versions in their order of acceptance. */
  lemma {:induction false} QueryRefines(
      k: Codec, rows: seq<Row>, log: seq<Thesis>, ticker: Name, asOf: Option<Stamp>)
    requires Stored(k, rows, log) && Lineage(OfTicker(log, ticker))
    ensures Query(rows, ticker, asOf) == RowsOf(k, Selected(OfTicker(log, ticker), asOf))
  {
    if rows != [] {
      hide Lineage, InsertByVersion, RowsOf, Stored, TextLe;
      var n := |rows| - 1;
      var h, before := OfTicker(log, ticker), OfTicker(log[..n], ticker);
      StoredLast(k, rows, log);
      LineagePrefix(h, |before|);
      assert before == h[..|before|];
      QueryRefines(k, rows[..n], log[..n], ticker, asOf);
      if log[n].ticker == ticker {
        assert h[..|h| - 1] == before && h[|h| - 1] == log[n];
        SelectedVersions(before, asOf);
        LastVersion(h);
        AppendsInOrder(k, Selected(before, asOf), log[n]);
      }
    }
  }

  lemma StoredLast(k: Codec, rows: seq<Row>, log: seq<Thesis>)
    requires Stored(k, rows, log) && rows != []
    ensures |rows| == |log|
    ensures Stored(k, rows[..|rows| - 1], log[..|log| - 1]) && rows[|rows| - 1] == RowOf(k, log[|log| - 1])
  {}

  lemma LastVersion(h: seq<Thesis>)
    requires Lineage(h) && h != []
    ensures h[|h| - 1].version == |h|
  {}

  lemma {:induction false} ReadsBack(k: Codec, h: seq<Thesis>)
    requires RoundTrips(k)
    ensures ReadAll(k, RowsOf(k, h)) == Ok(h)
  {
    if h != [] {
      var n := |h| - 1;
      ReadsBack(k, h[..n]);
      assert RowsOf(k, h)[..n] == RowsOf(k, h[..n]);
      assert k.parse(k.json(h[n])) == Some(h[n]);
      assert h == h[..n] + [h[n]];
    }
  }

  lemma SameOffsetText(a: Stamp, b: Stamp)
    requires a.offset == b.offset
    ensures TextLe(a, b) <==> a.instant <= b.instant
  {}

  lemma LaterThanAll(h: seq<Thesis>)
    requires Lineage(h)
    ensures forall i | 0 <= i < |h| - 1 :: h[i].asOf.instant < h[|h| - 1].asOf.instant
    decreases |h|
  {
    if |h| > 1 {
      var n := |h| - 1;
      LaterThanAll(h[..n]);
      assert h[n - 1].asOf.instant < h[n].asOf.instant;
      forall i | 0 <= i < n ensures h[i].asOf.instant < h[n].asOf.instant { assert h[..n][i] == h[i]; }
    }
  }

  /** `s` is the prefix of `h` known at an instant. */
  ghost predicate KnownPrefix(h: seq<Thesis>, s: seq<Thesis>, instant: int) {
    |s| <= |h| && s == h[..|s|] && forall i | 0 <= i < |h| :: i < |s| <==> h[i].asOf.instant <= instant
  }

  lemma KnownPrefixStep(h: seq<Thesis>, s: seq<Thesis>, instant: int)
    requires h != [] && KnownPrefix(h[..|h| - 1], s, instant)
    requires forall i | 0 <= i < |h| - 1 :: h[i].asOf.instant < h[|h| - 1].asOf.instant
    ensures KnownPrefix(h, if h[|h| - 1].asOf.instant <= instant then s + [h[|h| - 1]] else s, instant)
  {
    var n := |h| - 1;
    assert forall i | 0 <= i < n :: h[..n][i] == h[i];
    if h[n].asOf.instant <= instant {
      if n > 0 { assert h[n - 1].asOf.instant < h[n].asOf.instant && n - 1 < |s|; }
      assert |s| == n && s == h[..n];
    }
  }

  lemma {:induction false} AsOfIsPrefix(h: seq<Thesis>, q: Stamp)
    requires Lineage(h) && forall t | t in h :: t.asOf.offset == q.offset
    ensures KnownPrefix(h, Selected(h, Some(q)), q.instant)
  {
    hide Lineage, TextLe, KnownPrefix;
    if h == [] {
      NothingKnown(q.instant);
    } else {
      var n := |h| - 1;
      LineagePrefix(h, n);
      LaterThanAll(h);
      AsOfIsPrefix(h[..n], q);
      SameOffsetText(h[n].asOf, q);
      KnownPrefixStep(h, Selected(h[..n], Some(q)), q.instant);
    }
  }

  lemma NothingKnown(instant: int)
    ensures KnownPrefix([], [], instant)
  {}

  /** When every time carries the query's own UTC offset, an as-of read returns the prefix of
      versions that were known at that instant, no fewer and no more. */
  lemma AsOfRead(k: Codec, rows: seq<Row>, log: seq<Thesis>, ticker: Name, q: Stamp)
    requires RoundTrips(k) && Stored(k, rows, log) && Sound(log)
    requires forall t | t in log && t.ticker == ticker :: t.asOf.offset == q.offset
    ensures var h, known := OfTicker(log, ticker), History(k, rows, ticker, Some(q));
            && known.Ok? && known.value <= h
            && forall i | 0 <= i < |h| :: i < |known.value| <==> h[i].asOf.instant <= q.instant
  {
    hide Stored, Sound, RoundTrips, Query, ReadAll, Selected;
    var h := OfTicker(log, ticker);
    LineageOf(log, ticker);
    OfTickerMembers(log, ticker);
    QueryRefines(k, rows, log, ticker, Some(q));
    AsOfIsPrefix(h, q);
    ReadsBack(k, Selected(h, Some(q)));
  }

  lemma UnseenAppend(
      k: Codec, rows: seq<Row>, next: seq<Row>, log: seq<Thesis>, t: Thesis, ticker: Name, q: Stamp)
    requires Stored(k, rows, log) && Stored(k, next, Accept(log, t)) && Sound(log) && Sound(Accept(log, t))
    requires t.ticker == ticker ==> !TextLe(t.asOf, q)
    ensures Query(next, ticker, Some(q)) == Query(rows, ticker, Some(q))
  {
    hide Stored, Sound, Query, TextLe, Follows, IdUsed, RowsOf;
    LineageOf(log, ticker);
    LineageOf(Accept(log, t), ticker);
    QueryRefines(k, rows, log, ticker, Some(q));
    QueryRefines(k, next, Accept(log, t), ticker, Some(q));
    OfTickerExtend(log, t, ticker);
    LaterUnselected(OfTicker(log, ticker), t, q);
  }

  /** A past answer is final: no run of later appends, each dated after the query, changes it. */
  lemma {:induction false} AsOfIsStable(
      k: Codec, rows: seq<Row>, log: seq<Thesis>, later: seq<Thesis>, ticker: Name, q: Stamp)
    requires RoundTrips(k) && Stored(k, rows, log) && Sound(log)
    requires forall t | t in later && t.ticker == ticker :: t.asOf.offset == q.offset && t.asOf.instant > q.instant
    ensures History(k, AppendAll(k, rows, later), ticker, Some(q)) == History(k, rows, ticker, Some(q))
    decreases |later|
  {
    hide Stored, Sound, RoundTrips, AppendTo, ReadAll, Query;
    if later != [] {
      var t, step := later[0], AppendTo(k, rows, later[0]);
      var next := if step.Ok? then step.value else rows;
      AppendRefinesAccept(k, rows, log, t);
      AcceptKeepsSound(log, t);
      assert t in later;
      UnseenAppend(k, rows, next, log, t, ticker, q);
      AsOfIsStable(k, next, Accept(log, t), later[1..], ticker, q);
    }
  }

  lemma LineageOf(log: seq<Thesis>, ticker: Name)
    requires Sound(log)
    ensures Lineage(OfTicker(log, ticker))
  {}

  lemma LaterUnselected(h: seq<Thesis>, t: Thesis, q: Stamp)
    ensures !TextLe(t.asOf, q) ==> Selected(h + [t], Some(q)) == Selected(h, Some(q))
  {}

  /** Comparing times as text agrees with comparing instants, whatever the instants, exactly
      when the two UTC offsets are equal. */
  lemma TextOrderIsTimeOrderIff(a: int, b: int)
    ensures (forall x, y :: TextLe(Stamp(x, a), Stamp(y, b)) <==> x <= y) <==> a == b
  {
    if a < b {
      assert TextLe(Stamp(1, a), Stamp(0, b));
    } else if a > b {
      assert !TextLe(Stamp(0, a), Stamp(0, b));
    }
  }

  /** A thesis that may open a ticker's history. */
  ghost predicate Opening(t: Thesis) { t.version == 1 && t.supersedes == None }

  /** The as-of read of the ledger that was sent one opening thesis. */
  lemma OneVersionRead(k: Codec, t: Thesis, q: Stamp)
    requires RoundTrips(k) && Opening(t)
    ensures History(k, AppendAll(k, [], [t]), t.ticker, Some(q)) == Ok(if TextLe(t.asOf, q) then [t] else [])
  {
    hide RoundTrips, TextLe, AppendAll, Sound, Stored, Lineage, Query, ReadAll;
    EmptySound();
    OneVersionLog(t);
    var rows, log := AppendAll(k, [], [t]), AcceptAll([], [t]);
    assert Stored(k, [], []) by { NothingStored(k); }
    AppendAllRefines(k, [], [], [t]);
    LineageOf(log, t.ticker);
    QueryRefines(k, rows, log, t.ticker, Some(q));
    OneVersionSelected(t, q);
    ReadsBack(k, Selected([t], Some(q)));
  }

  lemma NothingStored(k: Codec)
    ensures Stored(k, [], [])
  {}

  lemma OneVersionLog(t: Thesis)
    requires Opening(t)
    ensures AcceptAll([], [t]) == [t] && OfTicker([t], t.ticker) == [t]
  {
    var none: seq<Thesis> := [];
    assert !IdUsed(none, t.id) && OfTicker(none, t.ticker) == none;
    assert Accept(none, t) == none + [t] == [t];
    assert [t][1..] == none && [t][..0] == none;
    assert AcceptAll([t], none) == [t];
  }

  lemma OneVersionSelected(t: Thesis, q: Stamp)
    ensures Selected([t], Some(q)) == if TextLe(t.asOf, q) then [t] else []
  {
    hide TextLe;
    assert [t][..0] == [];
  }

  /** Reads of a reachable ledger are right at every instant exactly when the thesis and the query
      carry one UTC offset. */
  lemma OneVersionReadRightIff(k: Codec, t: Thesis, a: int, b: int)
    requires RoundTrips(k) && Opening(t)
    ensures (forall x, y :: OneVersionRight(k, t, Stamp(x, a), Stamp(y, b))) <==> a == b
  {
    hide History, AppendAll, RoundTrips;
    forall x, y
      ensures OneVersionRight(k, t, Stamp(x, a), Stamp(y, b)) <==> (TextLe(Stamp(x, a), Stamp(y, b)) <==> x <= y)
    {
      OneVersionRead(k, t.(asOf := Stamp(x, a)), Stamp(y, b));
    }
    TextOrderIsTimeOrderIff(a, b);
  }

  /** The read of the one-version ledger returns the thesis exactly when it was known. */
  ghost predicate OneVersionRight(k: Codec, t: Thesis, asOf: Stamp, q: Stamp) {
    var sent := t.(asOf := asOf);
    History(k, AppendAll(k, [], [sent]), t.ticker, Some(q)) == Ok(if asOf.instant <= q.instant then [sent] else [])
  }

  /** With mixed offsets an as-of read of a reachable ledger can hide a known version
      (10:00+05:00 queried at 06:00Z) and can return one from the future (04:00-03:00 queried at
      06:00Z). */
  lemma MixedOffsetsMislead(k: Codec, t: Thesis)
    requires RoundTrips(k) && Opening(t)
    ensures var hour := 3_600_000_000;
            var known := t.(asOf := Stamp(5 * hour, 300));
            var future := t.(asOf := Stamp(7 * hour, -180));
            var q := Stamp(6 * hour, 0);
            && known.asOf.instant < q.instant && History(k, AppendAll(k, [], [known]), t.ticker, Some(q)) == Ok([])
            && future.asOf.instant > q.instant
            && History(k, AppendAll(k, [], [future]), t.ticker, Some(q)) == Ok([future])
  {
    hide History, AppendAll, RoundTrips;
    var hour := 3_600_000_000;
    OneVersionRead(k, t.(asOf := Stamp(5 * hour, 300)), Stamp(6 * hour, 0));
    OneVersionRead(k, t.(asOf := Stamp(7 * hour, -180)), Stamp(6 * hour, 0));
  }

  // ------------------------------------------------------------- tamper evidence

  /** Equal but for the stored JSON. */
  ghost predicate SameColumns(a: seq<Row>, b: seq<Row>) {
    |a| == |b| && forall i | 0 <= i < |a| :: a[i].(json := "") == b[i].(json := "")
  }

  lemma {:induction false} InsertSameColumns(a: seq<Row>, b: seq<Row>, r: Row, s: Row)
    requires SameColumns(a, b) && r.(json := "") == s.(json := "")
    ensures SameColumns(InsertByVersion(a, r), InsertByVersion(b, s))
  {
    if a != [] {
      InsertSameColumns(a[..|a| - 1], b[..|b| - 1], r, s);
      assert a[|a| - 1].(json := "") == b[|a| - 1].(json := "");
    }
  }

  lemma {:induction false} QuerySameColumns(a: seq<Row>, b: seq<Row>, ticker: Name, asOf: Option<Stamp>)
    requires SameColumns(a, b)
    ensures SameColumns(Query(a, ticker, asOf), Query(b, ticker, asOf))
  {
    if a != [] {
      var n := |a| - 1;
      QuerySameColumns(a[..n], b[..n], ticker, asOf);
      assert a[n].(json := "") == b[n].(json := "");
      InsertSameColumns(Query(a[..n], ticker, asOf), Query(b[..n], ticker, asOf), a[n], b[n]);
    }
  }

  lemma {:induction false} ReadSame(k: Codec, a: seq<Row>, b: seq<Row>)
    requires DigestCollisionFree(k) && SameColumns(a, b) && ReadAll(k, a).Ok? && ReadAll(k, b).Ok?
    ensures ReadAll(k, a) == ReadAll(k, b)
  {
    if a != [] {
      var n := |a| - 1;
      assert a[n].(json := "") == b[n].(json := "");
      ReadSame(k, a[..n], b[..n]);
      assert k.digest(k.parse(a[n].json).value) == k.digest(k.parse(b[n].json).value);
    }
  }

  /** Rewriting stored JSON under untouched digests is either seen or makes no difference. */
  lemma RewritingIsDetected(k: Codec, a: seq<Row>, b: seq<Row>, ticker: Name, asOf: Option<Stamp>)
    requires DigestCollisionFree(k) && SameColumns(a, b)
    requires History(k, a, ticker, asOf).Ok? && History(k, b, ticker, asOf).Ok?
    ensures History(k, a, ticker, asOf) == History(k, b, ticker, asOf)
  {
    QuerySameColumns(a, b, ticker, asOf);
    ReadSame(k, Query(a, ticker, asOf), Query(b, ticker, asOf));
  }
}
