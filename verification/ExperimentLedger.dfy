/** The append-only experiment ledger: a record table beside an independently chained
    commitment table, verified before every read and write. */
module ExperimentLedger {
  import opened Names
  import opened Wrappers

  type Digest = string

  datatype Record = Record(id: Name, body: string)

  /** Row of the record table. */
  datatype Row = Row(json: string, recordHash: Digest)

  /** Row of the commitment table. */
  datatype Link = Link(sequence: int, id: Name, recordHash: Digest, previous: Digest, commitment: Digest)

  /** Both tables, the commitments in order of sequence. */
  datatype Tables = Tables(experiments: map<Name, Row>, commitments: seq<Link>)

  /** Canonical JSON, its inverse, the record digest and the commitment digest. */
  datatype Codec = Codec(
    json: Record -> string, parse: string -> Option<Record>, digest: Record -> Digest,
    link: (int, Name, Digest, Digest) -> Digest, genesis: Digest)

  datatype LedgerError =
    | ChainBroken | DifferentContent | UniqueViolation | NotFound | IntegrityFailure

  ghost predicate LinkCollisionFree(k: Codec) {
    forall s, i, h, p, s', i', h', p' ::
      k.link(s, i, h, p) == k.link(s', i', h', p') ==> s == s' && i == i' && h == h' && p == p'
  }

  ghost predicate GenesisUnused(k: Codec) { forall s, i, h, p :: k.link(s, i, h, p) != k.genesis }

  ghost predicate DigestCollisionFree(k: Codec) { forall r, s :: k.digest(r) == k.digest(s) ==> r == s }

  /** The constraints the schema itself enforces. */
  ghost predicate WellFormed(t: Tables) {
    var c := t.commitments;
    forall i, j | 0 <= i < j < |c| ::
      c[i].sequence < c[j].sequence && c[i].id != c[j].id
      && c[i].recordHash != c[j].recordHash && c[i].commitment != c[j].commitment
  }

  function Head(k: Codec, c: seq<Link>): Digest { if c == [] then k.genesis else c[|c| - 1].commitment }

  function NextSequence(c: seq<Link>): int { if c == [] then 1 else c[|c| - 1].sequence + 1 }

  function NextLink(k: Codec, c: seq<Link>, id: Name, hash: Digest): Link {
    Link(NextSequence(c), id, hash, Head(k, c), k.link(NextSequence(c), id, hash, Head(k, c)))
  }

  /** Link `i` carries its place, its predecessor's hash, its own hash, and its record's. */
  predicate LinkOk(k: Codec, t: Tables, i: nat)
    requires i < |t.commitments|
  {
    var l := t.commitments[i];
    && l.sequence == i + 1
    && l.previous == Head(k, t.commitments[..i])
    && l.commitment == k.link(l.sequence, l.id, l.recordHash, l.previous)
    && l.id in t.experiments && t.experiments[l.id].recordHash == l.recordHash
  }

  ghost predicate ChainOk(k: Codec, t: Tables) { forall i | 0 <= i < |t.commitments| :: LinkOk(k, t, i) }

  ghost predicate Verified(k: Codec, t: Tables) { ChainOk(k, t) && |t.experiments| == |t.commitments| }

  function CommittedIds(c: seq<Link>): set<Name> { set i | 0 <= i < |c| :: c[i].id }

  /** Stored experiments no commitment names. */
  function Unchained(e: map<Name, Row>, c: seq<Link>): set<Name> { e.Keys - CommittedIds(c) }

  predicate FreshLink(c: seq<Link>, l: Link) {
    forall i | 0 <= i < |c| ::
      c[i].id != l.id && c[i].recordHash != l.recordHash && c[i].commitment != l.commitment
  }

  lemma {:induction false} IdsCounted(c: seq<Link>)
    requires forall i, j | 0 <= i < j < |c| :: c[i].id != c[j].id
    ensures |CommittedIds(c)| == |c|
  {
    if c != [] {
      var n := |c| - 1;
      IdsCounted(c[..n]);
      assert CommittedIds(c) == CommittedIds(c[..n]) + {c[n].id};
      assert c[n].id !in CommittedIds(c[..n]);
    }
  }

  /** The count check says the commitments name exactly the stored experiments. */
  lemma CountIsCoverage(k: Codec, t: Tables)
    requires WellFormed(t) && ChainOk(k, t)
    ensures |t.experiments| == |t.commitments| <==> CommittedIds(t.commitments) == t.experiments.Keys
  {
    IdsCounted(t.commitments);
    forall id | id in CommittedIds(t.commitments) ensures id in t.experiments {
      var i :| 0 <= i < |t.commitments| && t.commitments[i].id == id;
      assert LinkOk(k, t, i);
    }
    SubsetSize(CommittedIds(t.commitments), t.experiments.Keys);
    assert |t.experiments| == |t.experiments.Keys|;
  }

  // ---------------------------------------------------------------- operations

  /** What appending a record does to the tables, or why it is refused. */
  function AppendTo(k: Codec, t: Tables, r: Record): Result<Tables, LedgerError> {
    var row := Row(k.json(r), k.digest(r));
    if r.id in t.experiments then
      if t.experiments[r.id] == row then Ok(t) else Err(DifferentContent)
    else
      var l := NextLink(k, t.commitments, r.id, row.recordHash);
      if FreshLink(t.commitments, l)
      then Ok(Tables(t.experiments[r.id := row], t.commitments + [l])) else Err(UniqueViolation)
  }

  function Fetch(k: Codec, t: Tables, id: Name): Result<Record, LedgerError> {
    if id !in t.experiments then Err(NotFound)
    else
      match k.parse(t.experiments[id].json)
      case None => Err(IntegrityFailure)
      case Some(r) => if k.digest(r) == t.experiments[id].recordHash then Ok(r) else Err(IntegrityFailure)
  }

  /** The chain after each id in turn has been given the next link, or the first that clashes. */
  function Chained(k: Codec, e: map<Name, Row>, c: seq<Link>, ids: seq<Name>): Result<seq<Link>, LedgerError>
    requires forall id | id in ids :: id in e
    decreases |ids|
  {
    if ids == [] then Ok(c)
    else
      var l := NextLink(k, c, ids[0], e[ids[0]].recordHash);
      if FreshLink(c, l) then Chained(k, e, c + [l], ids[1..]) else Err(UniqueViolation)
  }

  /** The links added carry the ids in the order given. */
  lemma {:induction false} ChainedInOrder(k: Codec, e: map<Name, Row>, c: seq<Link>, ids: seq<Name>)
    requires (forall id | id in ids :: id in e) && Chained(k, e, c, ids).Ok?
    ensures var after := Chained(k, e, c, ids).value;
            && c <= after && |after| == |c| + |ids|
            && forall m | 0 <= m < |ids| :: after[|c| + m].id == ids[m]
    decreases |ids|
  {
    hide FreshLink;
    if ids != [] {
      var l := NextLink(k, c, ids[0], e[ids[0]].recordHash);
      ChainedInOrder(k, e, c + [l], ids[1..]);
      var after := Chained(k, e, c, ids).value;
      forall m | 0 <= m < |ids| ensures after[|c| + m].id == ids[m] {
        if m == 0 { assert after[|c|] == (c + [l])[|c|] == l; } else { assert ids[m] == ids[1..][m - 1]; }
      }
    }
  }

  /** Stored experiments no commitment names, in order of id. */
  function Waiting(t: Tables): (ids: seq<Name>)
    ensures forall id | id in ids :: id in t.experiments
    ensures |ids| == |Unchained(t.experiments, t.commitments)|
  {
    Sorted(Unchained(t.experiments, t.commitments))
  }

  lemma ChainedStep(k: Codec, t: Tables)
    requires Unchained(t.experiments, t.commitments) != {}
    ensures var id := Least(Unchained(t.experiments, t.commitments));
            && id in t.experiments
            && var l := NextLink(k, t.commitments, id, t.experiments[id].recordHash);
               var next := Tables(t.experiments, t.commitments + [l]);
               Chained(k, t.experiments, t.commitments, Waiting(t))
               == if FreshLink(t.commitments, l) then Chained(k, t.experiments, next.commitments, Waiting(next))
                  else Err(UniqueViolation)
  {
    hide FreshLink, Unchained;
    var id := Least(Unchained(t.experiments, t.commitments));
    UnchainedStored(t.experiments, t.commitments, id);
    ExtendUnchained(k, t.experiments, t.commitments, id);
  }

  lemma ChainedAll(k: Codec, t: Tables)
    requires Unchained(t.experiments, t.commitments) == {}
    ensures Chained(k, t.experiments, t.commitments, Waiting(t)) == Ok(t.commitments)
  {}

  class Ledger {
    const codec: Codec
    var experiments: map<Name, Row>
    var commitments: seq<Link>

    function Stored(): Tables
      reads this
    {
      Tables(experiments, commitments)
    }

    /** Opens whatever a file holds. */
    constructor (k: Codec, stored: Tables)
      ensures codec == k && Stored() == stored
    {
      codec := k;
      experiments := stored.experiments;
      commitments := stored.commitments;
      new;
      assert Stored() == Tables(stored.experiments, stored.commitments);
    }

    /** Chains, in order of id, every experiment that has no commitment yet. All or nothing.
        The result verifies exactly when the chain already there did. */
    method Initialize() returns (r: Option<LedgerError>)
      requires WellFormed(Stored())
      modifies this`commitments
      ensures WellFormed(Stored())
      ensures r.Some? ==> Stored() == old(Stored())
      ensures match Chained(codec, experiments, old(commitments), Waiting(old(Stored())))
              case Ok(chain) => r.None? && commitments == chain
              case Err(e) => r == Some(e)
      ensures r.None? ==>
        && old(commitments) <= commitments && |commitments| == |old(commitments)| + |Waiting(old(Stored()))|
        && forall m | 0 <= m < |Waiting(old(Stored()))| ::
             commitments[|old(commitments)| + m].id == Waiting(old(Stored()))[m]
      ensures r.None? ==> Unchained(experiments, commitments) == {}
      ensures r.None? ==> (Verified(codec, Stored()) <==> ChainOk(codec, old(Stored())))
    {
      hide WellFormed, ChainOk, CommittedIds, Unchained, FreshLink, Chained, Waiting, NextLink;
      ghost var before := Stored();
      var links := commitments;
      var todo := Unchained(experiments, commitments);
      while todo != {}
        invariant Stored() == before && before == old(Stored())
        invariant todo == Unchained(experiments, links)
        invariant commitments <= links && WellFormed(Tables(experiments, links))
        invariant Chained(codec, experiments, links, Waiting(Tables(experiments, links)))
                  == Chained(codec, experiments, commitments, Waiting(before))
        invariant ChainOk(codec, Tables(experiments, links)) <==> ChainOk(codec, before)
      {
        var id := Least(todo);
        UnchainedStored(experiments, links, id);
        ChainedStep(codec, Tables(experiments, links));
        var l := NextLink(codec, links, id, experiments[id].recordHash);
        if !FreshLink(links, l) { return Some(UniqueViolation); }
        assert l.id == id by { LinkNames(codec, links, id, experiments[id].recordHash); }
        ExtendChain(codec, experiments, links, l);
        ExtendUnchained(codec, experiments, links, id);
        todo := todo - {id};
        links := links + [l];
      }
      ghost var after := Tables(experiments, links);
      ChainedAll(codec, after);
      ChainedInOrder(codec, experiments, commitments, Waiting(before));
      if ChainOk(codec, after) { AllChained(codec, after); }
      assert Verified(codec, after) <==> ChainOk(codec, before);
      commitments := links;
      assert Stored() == after;
      r := None;
    }

    method VerifyChain() returns (ok: bool)
      ensures ok <==> Verified(codec, Stored())
    {
      var previous := codec.genesis;
      for i := 0 to |commitments|
        invariant previous == Head(codec, commitments[..i])
        invariant forall j | 0 <= j < i :: LinkOk(codec, Stored(), j)
      {
        var l := commitments[i];
        assert LinkOk(codec, Stored(), i) <==>
          l.sequence == i + 1 && l.previous == previous
          && l.commitment == codec.link(l.sequence, l.id, l.recordHash, previous)
          && l.id in experiments && experiments[l.id].recordHash == l.recordHash;
        if l.sequence != i + 1 || l.previous != previous { return false; }
        if l.commitment != codec.link(l.sequence, l.id, l.recordHash, previous) { return false; }
        if l.id !in experiments || experiments[l.id].recordHash != l.recordHash { return false; }
        previous := l.commitment;
        assert commitments[..i + 1][i] == l;
      }
      ok := |experiments| == |commitments|;
    }

    method Append(record: Record) returns (r: Result<(), LedgerError>)
      requires WellFormed(Stored())
      modifies this`experiments, this`commitments
      ensures WellFormed(Stored())
      ensures !Verified(codec, old(Stored())) ==> r == Err(ChainBroken) && Stored() == old(Stored())
      ensures Verified(codec, old(Stored())) ==>
        match AppendTo(codec, old(Stored()), record)
        case Ok(next) => r == Ok(()) && Stored() == next
        case Err(e) => r == Err(e) && Stored() == old(Stored())
    {
      var sound := VerifyChain();
      if !sound { return Err(ChainBroken); }
      var row := Row(codec.json(record), codec.digest(record));
      if record.id in experiments {
        if experiments[record.id] != row { return Err(DifferentContent); }
        return Ok(());
      }
      var l := NextLink(codec, commitments, record.id, row.recordHash);
      if !FreshLink(commitments, l) { return Err(UniqueViolation); }
      ExtendWellFormed(experiments, experiments[record.id := row], commitments, l);
      experiments := experiments[record.id := row];
      commitments := commitments + [l];
      r := Ok(());
    }

    method Get(id: Name) returns (r: Result<Record, LedgerError>)
      ensures r == if Verified(codec, Stored()) then Fetch(codec, Stored(), id) else Err(ChainBroken)
    {
      var sound := VerifyChain();
      if !sound { return Err(ChainBroken); }
      r := Fetch(codec, Stored(), id);
    }
  }

  lemma LinkNames(k: Codec, c: seq<Link>, id: Name, hash: Digest)
    ensures NextLink(k, c, id, hash).id == id
  {}

  lemma ExtendWellFormed(
      was: map<Name, Row>, now: map<Name, Row>, c: seq<Link>, l: Link)
    requires WellFormed(Tables(was, c)) && FreshLink(c, l)
    requires l.sequence == NextSequence(c)
    ensures WellFormed(Tables(now, c + [l]))
  {}

  lemma LinksKept(k: Codec, e: map<Name, Row>, c: seq<Link>, l: Link)
    ensures forall i | 0 <= i < |c| :: LinkOk(k, Tables(e, c + [l]), i) <==> LinkOk(k, Tables(e, c), i)
  {}

  /** A link made from the head keeps a sound chain sound, and an unsound one unsound. */
  lemma ExtendChain(k: Codec, e: map<Name, Row>, c: seq<Link>, l: Link)
    requires WellFormed(Tables(e, c)) && FreshLink(c, l)
    requires l.id in e && l == NextLink(k, c, l.id, e[l.id].recordHash)
    ensures WellFormed(Tables(e, c + [l]))
    ensures ChainOk(k, Tables(e, c + [l])) <==> ChainOk(k, Tables(e, c))
  {
    var t, t' := Tables(e, c), Tables(e, c + [l]);
    ExtendWellFormed(e, e, c, l);
    LinksKept(k, e, c, l);
    hide WellFormed, FreshLink;
    if ChainOk(k, t) {
      assert (c + [l])[..|c|] == c;
      if c != [] { assert LinkOk(k, t, |c| - 1); }
      assert LinkOk(k, t', |c|);
    }
    if ChainOk(k, t') {
      forall i | 0 <= i < |c| ensures LinkOk(k, t, i) { assert LinkOk(k, t', i); }
    }
  }

  lemma UnchainedStored(e: map<Name, Row>, c: seq<Link>, id: Name)
    requires id in Unchained(e, c)
    ensures id in e
  {}

  lemma ExtendUnchained(k: Codec, e: map<Name, Row>, c: seq<Link>, id: Name)
    requires id in e
    ensures Unchained(e, c + [NextLink(k, c, id, e[id].recordHash)]) == Unchained(e, c) - {id}
  {
    var l := NextLink(k, c, id, e[id].recordHash);
    assert CommittedIds(c + [l]) == CommittedIds(c) + {id} by {
      assert forall i | 0 <= i < |c| :: (c + [l])[i] == c[i];
      assert (c + [l])[|c|] == l;
    }
  }

  lemma AllChained(k: Codec, t: Tables)
    requires WellFormed(t) && ChainOk(k, t) && Unchained(t.experiments, t.commitments) == {}
    ensures Verified(k, t)
  {
    CountIsCoverage(k, t);
    CommittedWithin(k, t);
    forall id | id in t.experiments ensures id in CommittedIds(t.commitments) {
      assert id !in Unchained(t.experiments, t.commitments);
    }
    assert CommittedIds(t.commitments) == t.experiments.Keys;
  }

  lemma CommittedWithin(k: Codec, t: Tables)
    requires ChainOk(k, t)
    ensures CommittedIds(t.commitments) <= t.experiments.Keys
  {
    forall id | id in CommittedIds(t.commitments) ensures id in t.experiments {
      var i :| 0 <= i < |t.commitments| && t.commitments[i].id == id;
      assert LinkOk(k, t, i);
    }
  }

  // --------------------------------------------------------------- every ledger

  /** Appending keeps a ledger verified, keeps the old chain as a prefix, and adds at most one
      link; what was stored stays stored. */
  lemma AppendKeepsVerified(k: Codec, t: Tables, r: Record)
    requires WellFormed(t) && Verified(k, t) && AppendTo(k, t, r).Ok?
    ensures var next := AppendTo(k, t, r).value;
            && WellFormed(next) && Verified(k, next)
            && t.commitments <= next.commitments && |next.commitments| <= |t.commitments| + 1
            && (forall id | id in t.experiments :: id in next.experiments && next.experiments[id] == t.experiments[id])
            && r.id in next.experiments && next.experiments[r.id] == Row(k.json(r), k.digest(r))
  {
    if r.id !in t.experiments {
      var row := Row(k.json(r), k.digest(r));
      var l := NextLink(k, t.commitments, r.id, row.recordHash);
      var e := t.experiments[r.id := row];
      var mid := Tables(e, t.commitments);
      forall i | 0 <= i < |t.commitments| ensures LinkOk(k, mid, i) { assert LinkOk(k, t, i); }
      ExtendChain(k, e, t.commitments, l);
    }
  }

  /** Appending the same record again changes nothing. */
  lemma AppendIdempotent(k: Codec, t: Tables, r: Record)
    requires AppendTo(k, t, r).Ok?
    ensures AppendTo(k, AppendTo(k, t, r).value, r) == AppendTo(k, t, r)
  {}

  function AppendAll(k: Codec, t: Tables, records: seq<Record>): Tables
    decreases |records|
  {
    if records == [] then t
    else
      var step := AppendTo(k, t, records[0]);
      AppendAll(k, if step.Ok? then step.value else t, records[1..])
  }

  /** Over every run of appends the ledger verifies, and nothing committed is lost. */
  lemma {:induction false} EveryLedger(k: Codec, t: Tables, records: seq<Record>)
    requires WellFormed(t) && Verified(k, t)
    ensures var end := AppendAll(k, t, records);
            && WellFormed(end) && Verified(k, end) && t.commitments <= end.commitments
            && (forall id | id in t.experiments :: id in end.experiments && end.experiments[id] == t.experiments[id])
    decreases |records|
  {
    hide WellFormed, Verified;
    if records != [] {
      var step := AppendTo(k, t, records[0]);
      if step.Ok? {
        AppendKeepsVerified(k, t, records[0]);
        EveryLedger(k, step.value, records[1..]);
      } else {
        EveryLedger(k, t, records[1..]);
      }
    }
  }

  /** Every stored row is some record's own JSON and digest. */
  ghost predicate Genuine(k: Codec, t: Tables) {
    forall id | id in t.experiments ::
      exists x: Record :: x.id == id && t.experiments[id] == Row(k.json(x), k.digest(x))
  }

  lemma {:induction false} RunsStayGenuine(k: Codec, t: Tables, records: seq<Record>)
    requires Genuine(k, t)
    ensures Genuine(k, AppendAll(k, t, records))
    decreases |records|
  {
    if records != [] {
      var step, r := AppendTo(k, t, records[0]), records[0];
      if step.Ok? {
        forall id | id in step.value.experiments
          ensures exists x: Record :: x.id == id && step.value.experiments[id] == Row(k.json(x), k.digest(x))
        {
          if id in t.experiments { assert step.value.experiments[id] == t.experiments[id]; }
        }
        RunsStayGenuine(k, step.value, records[1..]);
      } else {
        RunsStayGenuine(k, t, records[1..]);
      }
    }
  }

  /** Without hash collisions an append to a genuine ledger is refused for one reason only: the
      id already stands for another record. The tables' uniqueness constraints never fire. */
  lemma OnlyOtherContentIsRefused(k: Codec, t: Tables, r: Record)
    requires WellFormed(t) && Verified(k, t) && Genuine(k, t)
    requires LinkCollisionFree(k) && DigestCollisionFree(k)
    ensures AppendTo(k, t, r).Err? <==>
      (r.id in t.experiments && t.experiments[r.id] != Row(k.json(r), k.digest(r)))
    ensures AppendTo(k, t, r).Err? ==> AppendTo(k, t, r).error == DifferentContent
  {
    if r.id !in t.experiments {
      var c, l := t.commitments, NextLink(k, t.commitments, r.id, k.digest(r));
      NextPlace(k, t);
      forall i | 0 <= i < |c|
        ensures c[i].id != l.id && c[i].recordHash != l.recordHash && c[i].commitment != l.commitment
      {
        assert LinkOk(k, t, i);
        var x: Record :| x.id == c[i].id && t.experiments[c[i].id] == Row(k.json(x), k.digest(x));
        assert c[i].sequence < l.sequence;
      }
    }
  }

  lemma NextPlace(k: Codec, t: Tables)
    requires ChainOk(k, t)
    ensures NextSequence(t.commitments) == |t.commitments| + 1
  {
    if t.commitments != [] { assert LinkOk(k, t, |t.commitments| - 1); }
  }

  /** Whatever is appended later, an accepted record reads back as it was. */
  lemma ReadBack(k: Codec, t: Tables, r: Record, later: seq<Record>)
    requires WellFormed(t) && Verified(k, t) && AppendTo(k, t, r).Ok?
    requires k.parse(k.json(r)) == Some(r)
    ensures Fetch(k, AppendAll(k, AppendTo(k, t, r).value, later), r.id) == Ok(r)
  {
    AppendKeepsVerified(k, t, r);
    EveryLedger(k, AppendTo(k, t, r).value, later);
  }

  // ----------------------------------------------------------- tamper evidence

  lemma {:induction false} SameCommitment(k: Codec, a: Tables, b: Tables, i: nat, j: nat)
    requires LinkCollisionFree(k) && ChainOk(k, a) && ChainOk(k, b)
    requires i < |a.commitments| && j < |b.commitments|
    requires a.commitments[i].commitment == b.commitments[j].commitment
    ensures i == j
    ensures forall m | 0 <= m <= i :: a.commitments[m] == b.commitments[m]
  {
    assert LinkOk(k, a, i) && LinkOk(k, b, j);
    if i > 0 { SameCommitment(k, a, b, i - 1, j - 1); }
  }

  /** A published head pins history: any verified ledger that contains it anywhere begins with
      exactly the chain it was published for. */
  lemma HeadPinsHistory(k: Codec, a: Tables, b: Tables, j: nat)
    requires LinkCollisionFree(k) && Verified(k, a) && Verified(k, b)
    requires a.commitments != [] && j < |b.commitments|
    requires b.commitments[j].commitment == Head(k, a.commitments)
    ensures a.commitments <= b.commitments
    ensures j == |b.commitments| - 1 ==> a.commitments == b.commitments
  {
    SameCommitment(k, a, b, |a.commitments| - 1, j);
  }

  /** Equal heads mean equal chains, the empty chain included. */
  lemma SameHeadSameChain(k: Codec, a: Tables, b: Tables)
    requires LinkCollisionFree(k) && GenesisUnused(k) && Verified(k, a) && Verified(k, b)
    requires Head(k, a.commitments) == Head(k, b.commitments)
    ensures a.commitments == b.commitments
  {
    var c, d := a.commitments, b.commitments;
    if c != [] { assert LinkOk(k, a, |c| - 1); }
    if d != [] { assert LinkOk(k, b, |d| - 1); }
    if c != [] && d != [] { HeadPinsHistory(k, a, b, |d| - 1); }
  }

  /** With the commitments fixed, no row of the record table can be added, dropped or given
      another hash without failing verification. */
  lemma CommitmentsPinRecords(k: Codec, a: Tables, b: Tables)
    requires WellFormed(a) && Verified(k, a) && Verified(k, b) && a.commitments == b.commitments
    ensures a.experiments.Keys == b.experiments.Keys
    ensures forall id | id in a.experiments :: a.experiments[id].recordHash == b.experiments[id].recordHash
  {
    CountIsCoverage(k, a);
    CountIsCoverage(k, b);
    forall id | id in a.experiments ensures a.experiments[id].recordHash == b.experiments[id].recordHash {
      var i :| 0 <= i < |a.commitments| && a.commitments[i].id == id;
      assert LinkOk(k, a, i) && LinkOk(k, b, i);
    }
  }

  /** Two verified ledgers with the same head return the same record for every id. */
  lemma SameHeadSameRecords(k: Codec, a: Tables, b: Tables, id: Name)
    requires LinkCollisionFree(k) && DigestCollisionFree(k)
    requires WellFormed(a) && Verified(k, a) && Verified(k, b) && GenesisUnused(k)
    requires Head(k, a.commitments) == Head(k, b.commitments)
    requires Fetch(k, a, id).Ok? && Fetch(k, b, id).Ok?
    ensures Fetch(k, a, id) == Fetch(k, b, id)
  {
    SameHeadSameChain(k, a, b);
    CommitmentsPinRecords(k, a, b);
    assert k.digest(Fetch(k, a, id).value) == k.digest(Fetch(k, b, id).value);
  }
}
