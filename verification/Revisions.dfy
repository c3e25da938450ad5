/** Point-in-time selection: of the rows visible at a cutoff, the latest revision of each data
    point. Universe records are keyed by ticker; factor inputs by ticker, field and the time
    observed. */
module Revisions {
  import opened Names
  import opened Wrappers

  datatype Row =
    | Universe(ticker: Name, available: int, revision: int, member: Name, sources: seq<Name>, content: string)
    | Factor(ticker: Name, field: Name, observed: int, available: int, revision: int, source: Name, content: string)

  datatype Key = Ticker(ticker: Name) | Point(ticker: Name, field: Name, observed: int)

  datatype SelectionError = AmbiguousRevisions

  function KeyOf(r: Row): Key {
    match r
    case Universe(t, _, _, _, _, _) => Ticker(t)
    case Factor(t, f, o, _, _, _, _) => Point(t, f, o)
  }

  predicate Visible(r: Row, cutoff: int) { r.available <= cutoff && (r.Factor? ==> r.observed <= cutoff) }

  // ------------------------------------------------------------------- orderings

  predicate KeyLess(a: Key, b: Key) {
    if a.Ticker? && b.Ticker? then Less(a.ticker, b.ticker)
    else if a.Point? && b.Point? then
      Less(a.ticker, b.ticker)
      || (a.ticker == b.ticker && (Less(a.field, b.field) || (a.field == b.field && a.observed < b.observed)))
    else a.Ticker?
  }

  lemma KeyTrichotomy(a: Key, b: Key)
    ensures KeyLess(a, b) || KeyLess(b, a) || a == b
    ensures !(KeyLess(a, b) && KeyLess(b, a)) && !KeyLess(a, a)
  {
    LessTrichotomy(a.ticker, b.ticker);
    LessTrichotomy(a.ticker, a.ticker);
    if a.Point? {
      LessTrichotomy(a.field, a.field);
      if b.Point? { LessTrichotomy(a.field, b.field); }
    }
  }

  lemma KeyTransitive(a: Key, b: Key, c: Key)
    requires KeyLess(a, b) && KeyLess(b, c)
    ensures KeyLess(a, c)
  {
    if Less(a.ticker, b.ticker) && Less(b.ticker, c.ticker) { LessTransitive(a.ticker, b.ticker, c.ticker); }
    if a.Point? && b.Point? && c.Point? && Less(a.field, b.field) && Less(b.field, c.field) {
      LessTransitive(a.field, b.field, c.field);
    }
  }

  /** An earlier availability, or the same and an earlier revision. */
  predicate Older(a: Row, b: Row) {
    a.available < b.available || (a.available == b.available && a.revision < b.revision)
  }

  predicate SameRank(a: Row, b: Row) {
    KeyOf(a) == KeyOf(b) && a.available == b.available && a.revision == b.revision
  }

  predicate RankLess(a: Row, b: Row) { KeyLess(KeyOf(a), KeyOf(b)) || (KeyOf(a) == KeyOf(b) && Older(a, b)) }

  predicate RankLe(a: Row, b: Row) { RankLess(a, b) || SameRank(a, b) }

  lemma RankTotal(a: Row, b: Row)
    ensures RankLe(a, b) || RankLess(b, a)
    ensures SameRank(a, b) ==> RankLe(b, a)
  {
    KeyTrichotomy(KeyOf(a), KeyOf(b));
  }

  lemma RankTransitive(a: Row, b: Row, c: Row)
    requires RankLe(a, b) && RankLe(b, c)
    ensures RankLe(a, c)
  {
    if KeyLess(KeyOf(a), KeyOf(b)) && KeyLess(KeyOf(b), KeyOf(c)) { KeyTransitive(KeyOf(a), KeyOf(b), KeyOf(c)); }
  }

  lemma RankWithinKey(a: Row, b: Row)
    requires KeyOf(a) == KeyOf(b)
    ensures RankLe(a, b) <==> Older(a, b) || SameRank(a, b)
  {
    KeyTrichotomy(KeyOf(a), KeyOf(b));
  }

  function TieFields(r: Row): seq<Name> { if r.Universe? then [r.member] + r.sources else [r.source] }

  predicate TieLe(a: seq<Name>, b: seq<Name>) {
    a == [] || (b != [] && (Less(a[0], b[0]) || (a[0] == b[0] && TieLe(a[1..], b[1..]))))
  }

  /** The sort key of the source: rank first, then the fields that only break ties. */
  predicate SortsBefore(a: Row, b: Row) {
    RankLess(a, b) || (SameRank(a, b) && TieLe(TieFields(a), TieFields(b)))
  }

  function Insert(s: seq<Row>, r: Row): seq<Row> {
    if s == [] || SortsBefore(s[|s| - 1], r) then s + [r] else Insert(s[..|s| - 1], r) + [s[|s| - 1]]
  }

  /** `sorted(rows, key=...)` */
  function SortRows(s: seq<Row>): seq<Row> {
    if s == [] then [] else Insert(SortRows(s[..|s| - 1]), s[|s| - 1])
  }

  ghost predicate ByRank(s: seq<Row>) { forall i, j | 0 <= i < j < |s| :: RankLe(s[i], s[j]) }

  lemma {:induction false} InsertMembers(s: seq<Row>, r: Row)
    ensures forall e :: e in Insert(s, r) <==> e in s || e == r
  {
    if s != [] && !SortsBefore(s[|s| - 1], r) {
      InsertMembers(s[..|s| - 1], r);
      assert s == s[..|s| - 1] + [s[|s| - 1]];
    }
  }

  lemma {:induction false} InsertByRank(s: seq<Row>, r: Row)
    requires ByRank(s)
    ensures ByRank(Insert(s, r))
  {
    hide RankLe, RankLess, SameRank, TieLe, TieFields;
    if s != [] {
      var n := |s| - 1;
      BeforeIsRank(s[n], r);
      if SortsBefore(s[n], r) {
        forall i | 0 <= i <= n ensures RankLe(s[i], r) {
          if i < n { RankTransitive(s[i], s[n], r); }
        }
      } else {
        var t := Insert(s[..n], r);
        InsertByRank(s[..n], r);
        InsertMembers(s[..n], r);
        forall i | 0 <= i < |t| ensures RankLe(t[i], s[n]) {
          assert t[i] in s[..n] || t[i] == r;
        }
      }
    }
  }

  lemma BeforeIsRank(a: Row, b: Row)
    ensures if SortsBefore(a, b) then RankLe(a, b) else RankLe(b, a)
  {
    RankTotal(a, b);
  }

  lemma {:induction false} SortedByRank(s: seq<Row>)
    ensures ByRank(SortRows(s)) && forall e :: e in SortRows(s) <==> e in s
  {
    if s != [] {
      var n := |s| - 1;
      SortedByRank(s[..n]);
      InsertByRank(SortRows(s[..n]), s[n]);
      InsertMembers(SortRows(s[..n]), s[n]);
      assert s == s[..n] + [s[n]];
    }
  }

  // ------------------------------------------------------------------- the scan

  predicate Clash(latest: map<Key, Row>, r: Row) {
    KeyOf(r) in latest && SameRank(r, latest[KeyOf(r)]) && r != latest[KeyOf(r)]
  }

  /** The dictionary after each row in turn has overwritten its key, or the first clash. */
  function Scan(s: seq<Row>): Result<map<Key, Row>, SelectionError> {
    if s == [] then Ok(map[])
    else
      var r, before := s[|s| - 1], Scan(s[..|s| - 1]);
      if before.Err? then before
      else if Clash(before.value, r) then Err(AmbiguousRevisions)
      else Ok(before.value[KeyOf(r) := r])
  }

  /** Two different rows claim to be the same revision of the same data point. */
  ghost predicate Ambiguous(s: seq<Row>) {
    exists a, b :: a in s && b in s && a != b && SameRank(a, b)
  }

  /** `r` is the newest of the rows of its key. */
  ghost predicate Newest(s: seq<Row>, r: Row) {
    r in s && forall e | e in s && KeyOf(e) == KeyOf(r) :: e == r || Older(e, r)
  }

  ghost predicate LatestOf(s: seq<Row>, latest: map<Key, Row>) {
    && (forall k :: k in latest <==> exists r :: r in s && KeyOf(r) == k)
    && (forall k | k in latest :: KeyOf(latest[k]) == k && Newest(s, latest[k]))
  }

  lemma {:induction false} ScanMeaning(s: seq<Row>)
    requires ByRank(s)
    ensures Scan(s).Ok? <==> !Ambiguous(s)
    ensures Scan(s).Ok? ==> LatestOf(s, Scan(s).value)
  {
    hide RankLe, RankLess, SameRank, Older, ByRank, Ambiguous, LatestOf, Clash;
    if s == [] {
      NothingScanned();
    } else {
      var n := |s| - 1;
      ByRankPrefix(s, n);
      ScanMeaning(s[..n]);
      AmbiguousLonger(s);
      if Scan(s[..n]).Ok? { ScanStep(s, Scan(s[..n]).value); }
    }
  }

  lemma NothingScanned()
    ensures !Ambiguous([]) && LatestOf([], map[])
  {}

  lemma ByRankPrefix(s: seq<Row>, n: nat)
    requires ByRank(s) && n <= |s|
    ensures ByRank(s[..n])
  {}

  lemma AmbiguousLonger(s: seq<Row>)
    requires s != []
    ensures Ambiguous(s[..|s| - 1]) ==> Ambiguous(s)
  {}

  lemma ScanStep(s: seq<Row>, latest: map<Key, Row>)
    requires s != [] && ByRank(s)
    requires !Ambiguous(s[..|s| - 1]) && LatestOf(s[..|s| - 1], latest)
    ensures var r := s[|s| - 1];
            && (Clash(latest, r) <==> Ambiguous(s))
            && (!Clash(latest, r) ==> LatestOf(s, latest[KeyOf(r) := r]))
  {
    hide RankLe, RankLess;
    var n := |s| - 1;
    var p, r := s[..n], s[n];
    assert s == p + [r];
    assert forall e :: e in s <==> e in p || e == r;
    forall e | e in p && KeyOf(e) == KeyOf(r) ensures Older(e, r) || SameRank(e, r) {
      var i :| 0 <= i < n && s[i] == e;
      RankWithinKey(e, r);
    }
    ClashIff(p, r, latest);
    if !Clash(latest, r) { Overwritten(s, p, r, latest); }
    if Ambiguous(s) { AmbiguousWithLast(s, p, r); }
  }

  lemma AmbiguousWithLast(s: seq<Row>, p: seq<Row>, r: Row)
    requires s == p + [r] && Ambiguous(s) && !Ambiguous(p)
    ensures exists e :: e in p && e != r && SameRank(e, r)
  {}

  lemma ClashIff(p: seq<Row>, r: Row, latest: map<Key, Row>)
    requires !Ambiguous(p) && LatestOf(p, latest)
    requires forall e | e in p && KeyOf(e) == KeyOf(r) :: Older(e, r) || SameRank(e, r)
    ensures Clash(latest, r) <==> exists e :: e in p && e != r && SameRank(e, r)
    ensures Clash(latest, r) ==> Ambiguous(p + [r])
  {
    if e :| e in p && e != r && SameRank(e, r) {
      assert KeyOf(r) in latest;
      var m := latest[KeyOf(r)];
      assert Newest(p, m);
      assert e == m || Older(e, m);
      assert Older(m, r) || SameRank(m, r);
    }
    if Clash(latest, r) {
      var m := latest[KeyOf(r)];
      assert Newest(p, m) && SameRank(m, r);
      assert m in p + [r] && r in p + [r];
    }
  }

  lemma Overwritten(s: seq<Row>, p: seq<Row>, r: Row, latest: map<Key, Row>)
    requires s == p + [r] && LatestOf(p, latest) && !Clash(latest, r) && !Ambiguous(p)
    requires forall e | e in p && KeyOf(e) == KeyOf(r) :: Older(e, r) || SameRank(e, r)
    ensures LatestOf(s, latest[KeyOf(r) := r])
  {
    var next := latest[KeyOf(r) := r];
    ClashIff(p, r, latest);
    forall k ensures k in next <==> exists e :: e in s && KeyOf(e) == k {
      if k == KeyOf(r) { assert r in s; }
      if k in latest { var e :| e in p && KeyOf(e) == k; assert e in s; }
      if e :| e in s && KeyOf(e) == k { assert e in p || e == r; }
    }
    forall k | k in next ensures KeyOf(next[k]) == k && Newest(s, next[k]) {
      if k != KeyOf(r) { assert Newest(p, latest[k]); }
    }
  }

  // ------------------------------------------------------------- keys in order

  predicate IsLeastKey(m: Key, s: set<Key>) { m in s && forall k | k in s :: k == m || KeyLess(m, k) }

  lemma {:induction false} LeastKeyExists(s: set<Key>)
    requires s != {}
    ensures exists m :: IsLeastKey(m, s)
  {
    var k :| k in s;
    if s == {k} {
      assert IsLeastKey(k, s);
    } else {
      LeastKeyExists(s - {k});
      var m :| IsLeastKey(m, s - {k});
      KeyTrichotomy(k, m);
      if KeyLess(k, m) {
        forall e | e in s ensures e == k || KeyLess(k, e) {
          if e != k && e != m { KeyTransitive(k, m, e); }
        }
        assert IsLeastKey(k, s);
      } else {
        assert IsLeastKey(m, s);
      }
    }
  }

  function LeastKey(s: set<Key>): (m: Key)
    requires s != {}
    ensures IsLeastKey(m, s)
  {
    LeastKeyExists(s);
    assert forall m, n | IsLeastKey(m, s) && IsLeastKey(n, s) :: m == n by {
      forall m, n | IsLeastKey(m, s) && IsLeastKey(n, s) ensures m == n { KeyTrichotomy(m, n); }
    }
    var m :| m in s && IsLeastKey(m, s); m
  }

  /** The rows of the dictionary in ascending order of key. */
  function InKeyOrder(latest: map<Key, Row>, keys: set<Key>): (r: seq<Row>)
    requires keys <= latest.Keys
    ensures forall e :: e in r <==> exists k :: k in keys && e == latest[k]
    ensures (forall k | k in keys :: KeyOf(latest[k]) == k) ==>
              forall i, j | 0 <= i < j < |r| :: KeyLess(KeyOf(r[i]), KeyOf(r[j]))
  {
    if keys == {} then []
    else
      var k := LeastKey(keys);
      var rest := InKeyOrder(latest, keys - {k});
      assert forall i | 0 <= i < |rest| :: rest[i] in rest;
      [latest[k]] + rest
  }

  // ------------------------------------------------------------------ selection

  function VisibleRows(rows: seq<Row>, cutoff: int): (r: seq<Row>)
    ensures forall e :: e in r <==> e in rows && Visible(e, cutoff)
  {
    if rows == [] then []
    else
      var n := |rows| - 1;
      assert rows == rows[..n] + [rows[n]];
      VisibleRows(rows[..n], cutoff) + if Visible(rows[n], cutoff) then [rows[n]] else []
  }

  /** What selection returns, or that it raises. */
  function Selected(rows: seq<Row>, cutoff: int): Result<seq<Row>, SelectionError> {
    var scanned := Scan(SortRows(VisibleRows(rows, cutoff)));
    if scanned.Err? then Err(scanned.error) else Ok(InKeyOrder(scanned.value, scanned.value.Keys))
  }

  /** The loop both selectors share. Nothing it returns was unknown at the cutoff. */
  method SelectLatest(rows: seq<Row>, cutoff: int) returns (r: Result<seq<Row>, SelectionError>)
    ensures r == Selected(rows, cutoff)
    ensures r.Ok? ==> forall e | e in r.value ::
              e in rows && e.available <= cutoff && (e.Factor? ==> e.observed <= cutoff)
  {
    SelectedWasKnown(rows, cutoff);
    hide Clash, InKeyOrder, SortRows;
    var sorted := SortRows(VisibleRows(rows, cutoff));
    var latest: map<Key, Row> := map[];
    for i := 0 to |sorted|
      invariant Scan(sorted[..i]) == Ok(latest)
    {
      assert sorted[..i + 1][..i] == sorted[..i];
      if Clash(latest, sorted[i]) {
        ClashEndsScan(sorted, i + 1);
        return Err(AmbiguousRevisions);
      }
      latest := latest[KeyOf(sorted[i]) := sorted[i]];
    }
    assert sorted[..|sorted|] == sorted;
    r := Ok(InKeyOrder(latest, latest.Keys));
  }

  lemma {:induction false} ClashEndsScan(s: seq<Row>, n: nat)
    requires n <= |s| && Scan(s[..n]).Err?
    ensures Scan(s) == Scan(s[..n])
    decreases |s|
  {
    if n == |s| {
      assert s[..n] == s;
    } else {
      assert s[..|s| - 1][..n] == s[..n];
      ClashEndsScan(s[..|s| - 1], n);
    }
  }

  lemma {:induction false} SameMembers(a: seq<Row>, b: seq<Row>)
    requires forall e :: e in a <==> e in b
    ensures Ambiguous(a) <==> Ambiguous(b)
    ensures forall latest :: LatestOf(a, latest) <==> LatestOf(b, latest)
  {
    forall latest ensures LatestOf(a, latest) <==> LatestOf(b, latest) {
      forall r ensures Newest(a, r) <==> Newest(b, r) {}
    }
  }

  lemma LatestUnique(s: seq<Row>, a: map<Key, Row>, b: map<Key, Row>)
    requires LatestOf(s, a) && LatestOf(s, b)
    ensures a == b
  {
    assert a.Keys == b.Keys;
    forall k | k in a ensures a[k] == b[k] { assert Newest(s, a[k]) && Newest(s, b[k]); }
  }

  /** Selection fails exactly when two different visible rows share key, availability and
      revision; otherwise it returns, in ascending order of key, for every key with a visible
      row the newest of them. */
  lemma SelectionMeaning(rows: seq<Row>, cutoff: int)
    ensures var r, visible := Selected(rows, cutoff), VisibleRows(rows, cutoff);
            && (r.Err? <==> Ambiguous(visible))
            && (r.Ok? ==>
                  && (forall e :: e in r.value <==> Newest(visible, e))
                  && forall i, j | 0 <= i < j < |r.value| :: KeyLess(KeyOf(r.value[i]), KeyOf(r.value[j])))
  {
    var latest := ScannedLatest(rows, cutoff);
    hide *;
    if latest.Some? { OrderedNewest(VisibleRows(rows, cutoff), latest.value); }
  }

  lemma ScannedLatest(rows: seq<Row>, cutoff: int) returns (latest: Option<map<Key, Row>>)
    ensures latest.None? <==> Ambiguous(VisibleRows(rows, cutoff))
    ensures latest.None? ==> Selected(rows, cutoff) == Err(AmbiguousRevisions)
    ensures latest.Some? ==>
              && LatestOf(VisibleRows(rows, cutoff), latest.value)
              && Selected(rows, cutoff) == Ok(InKeyOrder(latest.value, latest.value.Keys))
  {
    hide ByRank, Ambiguous, LatestOf, Scan, SortRows, VisibleRows, InKeyOrder;
    var visible := VisibleRows(rows, cutoff);
    var sorted := SortRows(visible);
    SortedByRank(visible);
    ScanMeaning(sorted);
    SameMembers(sorted, visible);
    latest := if Scan(sorted).Ok? then Some(Scan(sorted).value) else None;
    if Scan(sorted).Err? { assert Scan(sorted).error == AmbiguousRevisions; }
  }

  lemma OrderedNewest(s: seq<Row>, latest: map<Key, Row>)
    requires LatestOf(s, latest)
    ensures var r := InKeyOrder(latest, latest.Keys);
            && (forall e :: e in r <==> Newest(s, e))
            && forall i, j | 0 <= i < j < |r| :: KeyLess(KeyOf(r[i]), KeyOf(r[j]))
  {
    hide InKeyOrder, KeyLess;
    forall e ensures (exists k :: k in latest && e == latest[k]) <==> Newest(s, e) {
      if Newest(s, e) {
        assert KeyOf(e) in latest;
        assert Newest(s, latest[KeyOf(e)]);
      }
    }
  }

  lemma SelectedWasKnown(rows: seq<Row>, cutoff: int)
    ensures Selected(rows, cutoff).Ok? ==> forall e | e in Selected(rows, cutoff).value ::
              e in rows && e.available <= cutoff && (e.Factor? ==> e.observed <= cutoff)
  {
    hide Selected, Ambiguous, KeyLess;
    SelectionMeaning(rows, cutoff);
    if Selected(rows, cutoff).Ok? {
      forall e | e in Selected(rows, cutoff).value
        ensures e in rows && e.available <= cutoff && (e.Factor? ==> e.observed <= cutoff)
      {
        assert Newest(VisibleRows(rows, cutoff), e);
      }
    }
  }

  /** Two rows are about the same data point: a ticker's universe record, or one field of a
      ticker as observed at one time. */
  ghost predicate SamePoint(a: Row, b: Row) {
    match (a, b)
    case (Universe(t, _, _, _, _, _), Universe(u, _, _, _, _, _)) => t == u
    case (Factor(t, f, o, _, _, _, _), Factor(u, g, p, _, _, _, _)) => t == u && f == g && o == p
    case _ => false
  }

  /** Selection read off the rows' own fields. It fails exactly when two different rows, known at
      the cutoff, are the same revision of a data point published at the same time. Otherwise it
      returns exactly the rows known at the cutoff that no other row of their data point known
      then follows, in publication time and then in revision; and no known data point is lost. */
  lemma SelectionOnFields(rows: seq<Row>, cutoff: int)
    ensures var r := Selected(rows, cutoff);
            && (r.Err? <==>
                  exists a, b :: a in rows && b in rows && a != b && SamePoint(a, b)
                                 && a.available == b.available <= cutoff && (a.Factor? ==> a.observed <= cutoff)
                                 && a.revision == b.revision)
            && (r.Ok? ==>
                  && (forall e :: e in r.value <==>
                        && e in rows && e.available <= cutoff && (e.Factor? ==> e.observed <= cutoff)
                        && forall o | o in rows && o.available <= cutoff && SamePoint(o, e) && o != e ::
                             o.available < e.available || (o.available == e.available && o.revision < e.revision))
                  && forall e | e in rows && e.available <= cutoff && (e.Factor? ==> e.observed <= cutoff) ::
                       exists s :: s in r.value && SamePoint(s, e))
  {
    hide *;
    SelectionMeaning(rows, cutoff);
    AmbiguousOnFields(rows, cutoff);
    forall e { NewestOnFields(rows, cutoff, e); }
    forall e | e in rows && e.available <= cutoff && (e.Factor? ==> e.observed <= cutoff) {
      NothingKnownIsLost(rows, cutoff, e);
    }
  }

  lemma SamePointIff(a: Row, b: Row)
    ensures SamePoint(a, b) <==> KeyOf(a) == KeyOf(b)
  {}

  lemma AmbiguousOnFields(rows: seq<Row>, cutoff: int)
    ensures Ambiguous(VisibleRows(rows, cutoff)) <==>
              exists a, b :: a in rows && b in rows && a != b && SamePoint(a, b)
                             && a.available == b.available <= cutoff && (a.Factor? ==> a.observed <= cutoff)
                             && a.revision == b.revision
  {
    var visible := VisibleRows(rows, cutoff);
    forall a, b
      ensures a in visible && b in visible && SameRank(a, b) <==>
                a in rows && b in rows && SamePoint(a, b) && a.available == b.available <= cutoff
                && (a.Factor? ==> a.observed <= cutoff) && a.revision == b.revision
    {
      SamePointIff(a, b);
    }
  }

  lemma NothingKnownIsLost(rows: seq<Row>, cutoff: int, e: Row)
    requires e in rows && e.available <= cutoff && (e.Factor? ==> e.observed <= cutoff)
    ensures Selected(rows, cutoff).Ok? ==> exists s :: s in Selected(rows, cutoff).value && SamePoint(s, e)
  {
    hide Selected, KeyLess, KeyOf, SamePoint, Newest, InKeyOrder;
    var latest := ScannedLatest(rows, cutoff);
    SelectionMeaning(rows, cutoff);
    if Selected(rows, cutoff).Ok? {
      assert e in VisibleRows(rows, cutoff) && KeyOf(e) in latest.value;
      var s := latest.value[KeyOf(e)];
      assert s in Selected(rows, cutoff).value;
      SamePointIff(s, e);
    }
  }

  lemma NewestOnFields(rows: seq<Row>, cutoff: int, e: Row)
    ensures Newest(VisibleRows(rows, cutoff), e) <==>
            && e in rows && e.available <= cutoff && (e.Factor? ==> e.observed <= cutoff)
            && forall o | o in rows && o.available <= cutoff && SamePoint(o, e) && o != e ::
                 o.available < e.available || (o.available == e.available && o.revision < e.revision)
  {
    var visible := VisibleRows(rows, cutoff);
    forall o | e in visible ensures o in visible && KeyOf(o) == KeyOf(e) <==>
                                    o in rows && o.available <= cutoff && SamePoint(o, e) {}
  }

  /** Neither the order of the input, nor repeated rows, nor any row published or observed after
      the cutoff changes the outcome, error included. */
  lemma OnlyVisibleRowsMatter(a: seq<Row>, b: seq<Row>, cutoff: int)
    requires forall e: Row | e.available <= cutoff && (e.Factor? ==> e.observed <= cutoff) :: e in a <==> e in b
    ensures Selected(a, cutoff) == Selected(b, cutoff)
  {
    hide Selected, Ambiguous, LatestOf, InKeyOrder;
    var x := ScannedLatest(a, cutoff);
    var y := ScannedLatest(b, cutoff);
    SameMembers(VisibleRows(a, cutoff), VisibleRows(b, cutoff));
    if x.Some? && y.Some? { LatestUnique(VisibleRows(a, cutoff), x.value, y.value); }
  }

  /** Whatever is published or observed after a cutoff leaves the selection at it alone. */
  lemma LaterRowsChangeNothing(rows: seq<Row>, later: seq<Row>, cutoff: int)
    requires forall e | e in later :: e.available > cutoff || (e.Factor? && e.observed > cutoff)
    ensures Selected(rows + later, cutoff) == Selected(rows, cutoff)
  {
    OnlyVisibleRowsMatter(rows + later, rows, cutoff);
  }

  lemma StillAmbiguous(a: seq<Row>, b: seq<Row>)
    requires forall e | e in a :: e in b
    ensures Ambiguous(a) ==> Ambiguous(b)
  {}

  /** A later cutoff never revives an ambiguous selection, never loses a data point, and never
      replaces a row by an older one. */
  lemma LaterCutoffOnlyAdvances(rows: seq<Row>, early: int, late: int)
    requires early <= late && Selected(rows, late).Ok?
    ensures Selected(rows, early).Ok?
    ensures forall e | e in Selected(rows, early).value ::
              exists l :: l in Selected(rows, late).value && KeyOf(l) == KeyOf(e) && (l == e || Older(e, l))
  {
    hide Selected, Ambiguous, InKeyOrder;
    StillAmbiguous(VisibleRows(rows, early), VisibleRows(rows, late));
    var x := ScannedLatest(rows, early);
    var y := ScannedLatest(rows, late);
    SelectionMeaning(rows, early);
    SelectionMeaning(rows, late);
    forall e | e in Selected(rows, early).value
      ensures exists l :: l in Selected(rows, late).value && KeyOf(l) == KeyOf(e) && (l == e || Older(e, l))
    {
      assert Newest(VisibleRows(rows, early), e);
      var l := y.value[KeyOf(e)];
      assert Newest(VisibleRows(rows, late), l);
    }
  }
}
