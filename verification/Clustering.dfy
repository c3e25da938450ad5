/** Agglomerative clustering of assets into a leaf order.

    Tickers reach the program sorted and distinct, so an asset is its position and comparing
    tuples of tickers is comparing tuples of positions. */
module Clustering {
  type Cluster = seq<nat>

  // ------------------------------------------------------------ tuple ordering

  predicate LexLess(a: Cluster, b: Cluster) {
    b != [] && (a == [] || a[0] < b[0] || (a[0] == b[0] && LexLess(a[1..], b[1..])))
  }

  lemma {:induction false} LexTransitive(a: Cluster, b: Cluster, c: Cluster)
    requires !LexLess(b, a) && !LexLess(c, b)
    ensures !LexLess(c, a)
  {
    if LexLess(c, a) && c != [] && b != [] && c[0] == a[0] && a[0] == b[0] {
      LexTransitive(a[1..], b[1..], c[1..]);
    }
  }

  lemma {:induction false} LexAsymmetric(a: Cluster, b: Cluster)
    requires LexLess(a, b)
    ensures !LexLess(b, a)
  {
    if a != [] && a[0] == b[0] { LexAsymmetric(a[1..], b[1..]); }
  }

  ghost predicate Ordered(s: seq<Cluster>) {
    forall i, j | 0 <= i < j < |s| :: !LexLess(s[j], s[i])
  }

  function Insert(c: Cluster, s: seq<Cluster>): (r: seq<Cluster>)
    ensures multiset(r) == multiset(s) + multiset{c}
    ensures |r| == |s| + 1
  {
    if s == [] then [c]
    else if LexLess(s[0], c) then
      assert s == [s[0]] + s[1..];
      [s[0]] + Insert(c, s[1..])
    else [c] + s
  }

  function SortLex(s: seq<Cluster>): (r: seq<Cluster>)
    ensures multiset(r) == multiset(s)
    ensures |r| == |s|
  {
    if s == [] then [] else
      assert s == [s[0]] + s[1..];
      Insert(s[0], SortLex(s[1..]))
  }

  lemma {:induction false} InsertOrdered(c: Cluster, s: seq<Cluster>)
    requires Ordered(s)
    ensures Ordered(Insert(c, s))
  {
    if s != [] {
      var r := Insert(c, s);
      if LexLess(s[0], c) {
        InsertOrdered(c, s[1..]);
        LexAsymmetric(s[0], c);
        forall j | 1 <= j < |r| ensures !LexLess(r[j], r[0]) {
          assert r[j] in multiset(Insert(c, s[1..]));
          assert r[j] == c || r[j] in s[1..];
        }
      } else {
        forall j | 1 <= j < |r| ensures !LexLess(r[j], c) {
          if j > 1 { LexTransitive(c, s[0], s[j - 1]); }
        }
      }
    }
  }

  lemma {:induction false} SortOrdered(s: seq<Cluster>)
    ensures Ordered(SortLex(s))
  {
    if s != [] {
      SortOrdered(s[1..]);
      InsertOrdered(s[0], SortLex(s[1..]));
    }
  }

  function InsertAsset(x: nat, s: Cluster): Cluster {
    if s == [] || x <= s[0] then [x] + s else [s[0]] + InsertAsset(x, s[1..])
  }

  /** `tuple(sorted(names))` */
  function SortAssets(s: Cluster): Cluster {
    if s == [] then [] else InsertAsset(s[0], SortAssets(s[1..]))
  }

  // ---------------------------------------------------------- choosing a pair

  type Distance = (nat, nat) -> real

  function RowSum(i: nat, b: Cluster, d: Distance): real {
    if b == [] then 0.0 else d(i, b[0]) + RowSum(i, b[1..], d)
  }

  function BlockSum(a: Cluster, b: Cluster, d: Distance): real {
    if a == [] then 0.0 else RowSum(a[0], b, d) + BlockSum(a[1..], b, d)
  }

  /** Average linkage: the mean distance between the members of two clusters. */
  function Separation(a: Cluster, b: Cluster, d: Distance): real
    requires a != [] && b != []
  {
    BlockSum(a, b, d) / (|a| as real * |b| as real)
  }

  datatype Candidate = Candidate(separation: real, names: Cluster, left: nat, right: nat)

  predicate CandidateLess(a: Candidate, b: Candidate) {
    a.separation < b.separation
    || (a.separation == b.separation
        && (LexLess(a.names, b.names)
            || (a.names == b.names && (a.left < b.left || (a.left == b.left && a.right < b.right)))))
  }

  lemma CandidateTransitive(a: Candidate, b: Candidate, c: Candidate)
    requires !CandidateLess(b, a) && !CandidateLess(c, b)
    ensures !CandidateLess(c, a)
  {
    LexTotal(a.names, b.names);
    LexTotal(b.names, c.names);
    LexTotal(a.names, c.names);
    if !LexLess(b.names, a.names) && !LexLess(c.names, b.names) {
      LexTransitive(a.names, b.names, c.names);
    }
  }

  lemma {:induction false} LexTotal(a: Cluster, b: Cluster)
    ensures LexLess(a, b) || LexLess(b, a) || a == b
    ensures !(LexLess(a, b) && LexLess(b, a)) && !LexLess(a, a)
  {
    if a != [] {
      LexTotal(a[1..], a[1..]);
      if b != [] {
        LexTotal(a[1..], b[1..]);
        if a[0] == b[0] && a[1..] == b[1..] {
          assert a == [a[0]] + a[1..] == b;
        }
      }
    }
  }

  ghost predicate NonEmpty(clusters: seq<Cluster>) {
    forall i | 0 <= i < |clusters| :: clusters[i] != []
  }

  function Pair(clusters: seq<Cluster>, d: Distance, left: nat, right: nat): Candidate
    requires left < right < |clusters| && clusters[left] != [] && clusters[right] != []
  {
    Candidate(Separation(clusters[left], clusters[right], d),
              SortAssets(clusters[left] + clusters[right]), left, right)
  }

  /** The pair is the least candidate: no two clusters are closer, ties going to names. */
  ghost predicate IsClosest(clusters: seq<Cluster>, d: Distance, left: nat, right: nat)
    requires NonEmpty(clusters)
  {
    left < right < |clusters|
    && forall l, r | 0 <= l < r < |clusters| ::
         !CandidateLess(Pair(clusters, d, l, r), Pair(clusters, d, left, right))
  }

  method ClosestPair(clusters: seq<Cluster>, d: Distance) returns (left: nat, right: nat)
    requires |clusters| > 1 && NonEmpty(clusters)
    ensures IsClosest(clusters, d, left, right)
  {
    hide CandidateLess, Pair;
    left, right := 0, 1;
    CandidateIrreflexive(Pair(clusters, d, 0, 1));
    for l := 0 to |clusters|
      invariant left < right < |clusters|
      invariant forall a, b | 0 <= a < b < |clusters| && a < l ::
        !CandidateLess(Pair(clusters, d, a, b), Pair(clusters, d, left, right))
    {
      for r := l + 1 to |clusters|
        invariant left < right < |clusters|
        invariant forall a, b | 0 <= a < b < |clusters| && (a < l || (a == l && b < r)) ::
          !CandidateLess(Pair(clusters, d, a, b), Pair(clusters, d, left, right))
      {
        var best, next := Pair(clusters, d, left, right), Pair(clusters, d, l, r);
        if CandidateLess(next, best) {
          CandidateIrreflexive(next);
          forall a, b | 0 <= a < b < |clusters| && (a < l || (a == l && b < r))
            ensures !CandidateLess(Pair(clusters, d, a, b), next)
          {
            CandidateAsymmetric(next, best);
            CandidateTransitive(next, best, Pair(clusters, d, a, b));
          }
          left, right := l, r;
        }
      }
    }
  }

  lemma CandidateIrreflexive(a: Candidate)
    ensures !CandidateLess(a, a)
  {
    LexTotal(a.names, a.names);
  }

  lemma CandidateAsymmetric(a: Candidate, b: Candidate)
    requires CandidateLess(a, b)
    ensures !CandidateLess(b, a)
  {
    LexTotal(a.names, b.names);
  }

  // ---------------------------------------------------------------- merging

  function Merged(a: Cluster, b: Cluster): Cluster {
    if LexLess(b, a) then b + a else a + b
  }

  /** The list without the clusters at two positions. */
  function Without(clusters: seq<Cluster>, left: nat, right: nat): seq<Cluster>
    requires left < right < |clusters|
  {
    clusters[..left] + clusters[left + 1..right] + clusters[right + 1..]
  }

  function MergePair(clusters: seq<Cluster>, left: nat, right: nat): seq<Cluster>
    requires left < right < |clusters|
  {
    SortLex(Without(clusters, left, right) + [Merged(clusters[left], clusters[right])])
  }

  ghost predicate IsMerge(before: seq<Cluster>, after: seq<Cluster>, d: Distance) {
    NonEmpty(before)
    && exists left: nat, right: nat :: IsClosest(before, d, left, right) && after == MergePair(before, left, right)
  }

  function Singletons(n: nat): seq<Cluster> { seq(n, i requires 0 <= i < n => [i]) }

  function Assets(n: nat): Cluster { seq(n, i requires 0 <= i < n => i) }

  /** A whole run: single assets first, each level the closest merge of the one before. */
  ghost predicate IsAgglomeration(levels: seq<seq<Cluster>>, n: nat, d: Distance) {
    levels != [] && levels[0] == Singletons(n)
    && forall k | 0 <= k < |levels| - 1 :: IsMerge(levels[k], levels[k + 1], d)
  }

  /** How often an asset occurs in the clusters taken together. */
  function Count(clusters: seq<Cluster>, x: nat): nat {
    if clusters == [] then 0 else multiset(clusters[0])[x] + Count(clusters[1..], x)
  }

  lemma {:induction false} CountConcat(a: seq<Cluster>, b: seq<Cluster>, x: nat)
    ensures Count(a + b, x) == Count(a, x) + Count(b, x)
  {
    if a == [] {
      assert a + b == b;
    } else {
      CountConcat(a[1..], b, x);
      assert (a + b)[1..] == a[1..] + b;
    }
  }

  lemma {:induction false} CountInsert(c: Cluster, s: seq<Cluster>, x: nat)
    ensures Count(Insert(c, s), x) == multiset(c)[x] + Count(s, x)
  {
    if s != [] && LexLess(s[0], c) { CountInsert(c, s[1..], x); }
  }

  lemma {:induction false} CountSort(s: seq<Cluster>, x: nat)
    ensures Count(SortLex(s), x) == Count(s, x)
  {
    if s != [] {
      CountSort(s[1..], x);
      CountInsert(s[0], SortLex(s[1..]), x);
    }
  }

  lemma CountOne(c: Cluster, x: nat)
    ensures Count([c], x) == multiset(c)[x]
  {}

  lemma CountRemove(s: seq<Cluster>, i: nat, x: nat)
    requires i < |s|
    ensures Count(s, x) == multiset(s[i])[x] + Count(s[..i] + s[i + 1..], x)
  {
    hide Count;
    assert s == (s[..i] + [s[i]]) + s[i + 1..];
    CountConcat(s[..i] + [s[i]], s[i + 1..], x);
    CountConcat(s[..i], [s[i]], x);
    CountOne(s[i], x);
    CountConcat(s[..i], s[i + 1..], x);
  }

  lemma MergeKeepsCount(clusters: seq<Cluster>, left: nat, right: nat, x: nat)
    requires left < right < |clusters|
    ensures Count(MergePair(clusters, left, right), x) == Count(clusters, x)
  {
    hide SortLex, Count, LexLess;
    var l, r := clusters[left], clusters[right];
    var rest := clusters[..right] + clusters[right + 1..];
    CountRemove(clusters, right, x);
    CountRemove(rest, left, x);
    var kept := Without(clusters, left, right);
    assert kept == rest[..left] + rest[left + 1..];
    CountConcat(kept, [Merged(l, r)], x);
    CountOne(Merged(l, r), x);
    CountSort(kept + [Merged(l, r)], x);
  }

  lemma MergeKeepsNonEmpty(clusters: seq<Cluster>, left: nat, right: nat)
    requires left < right < |clusters| && NonEmpty(clusters)
    ensures NonEmpty(MergePair(clusters, left, right))
    ensures |MergePair(clusters, left, right)| == |clusters| - 1
  {
    var unsorted := Without(clusters, left, right) + [Merged(clusters[left], clusters[right])];
    var sorted := SortLex(unsorted);
    forall i | 0 <= i < |sorted| ensures sorted[i] != [] {
      assert sorted[i] in multiset(unsorted);
    }
  }

  lemma {:induction false} SingletonsCount(n: nat, x: nat)
    ensures Count(Singletons(n), x) == multiset(Assets(n))[x]
  {
    hide Count;
    if n == 0 {
      CountNothing(x);
    } else {
      var k := n - 1;
      SingletonsCount(k, x);
      assert Singletons(n) == Singletons(k) + [[k]];
      CountConcat(Singletons(k), [[k]], x);
      CountOne([k], x);
      assert Assets(n) == Assets(k) + [k];
    }
  }

  lemma CountNothing(x: nat)
    ensures Count([], x) == 0
  {}

  /** The run to a single cluster, whose members in order are the leaf order. */
  method ClusterOrder(n: nat, d: Distance) returns (order: Cluster, ghost levels: seq<seq<Cluster>>)
    requires n > 0
    ensures multiset(order) == multiset(Assets(n))
    ensures IsAgglomeration(levels, n, d) && levels[|levels| - 1] == [order]
    ensures |levels| == n
  {
    hide Count, IsClosest, MergePair;
    var clusters := Singletons(n);
    levels := [clusters];
    forall x ensures Count(clusters, x) == multiset(Assets(n))[x] { SingletonsCount(n, x); }
    while |clusters| > 1
      invariant NonEmpty(clusters) && clusters != []
      invariant forall x :: Count(clusters, x) == multiset(Assets(n))[x]
      invariant IsAgglomeration(levels, n, d) && levels[|levels| - 1] == clusters
      invariant |levels| + |clusters| == n + 1
      decreases |clusters|
    {
      var left, right := ClosestPair(clusters, d);
      ghost var before := clusters;
      assert left < right < |clusters| by { ClosestInRange(clusters, d, left, right); }
      forall x ensures Count(MergePair(clusters, left, right), x) == Count(clusters, x) {
        MergeKeepsCount(clusters, left, right, x);
      }
      MergeKeepsNonEmpty(clusters, left, right);
      clusters := MergePair(clusters, left, right);
      assert IsMerge(before, clusters, d);
      levels := levels + [clusters];
    }
    order := clusters[0];
    assert clusters == [order];
    forall x ensures multiset(order)[x] == multiset(Assets(n))[x] { CountOne(order, x); }
  }

  lemma ClosestInRange(clusters: seq<Cluster>, d: Distance, left: nat, right: nat)
    requires NonEmpty(clusters) && IsClosest(clusters, d, left, right)
    ensures left < right < |clusters|
  {}

  // -------------------------------------------------- clusters stay together

  ghost predicate Within(a: Cluster, b: Cluster) {
    exists p, q :: p + a + q == b
  }

  lemma WithinTransitive(a: Cluster, b: Cluster, c: Cluster)
    requires Within(a, b) && Within(b, c)
    ensures Within(a, c)
  {
    var p, q :| p + a + q == b;
    var r, s :| r + b + s == c;
    assert (r + p) + a + (q + s) == c;
  }

  lemma WithinAt(p: Cluster, a: Cluster, q: Cluster)
    ensures Within(a, p + a + q)
  {}

  lemma WithinMerged(l: Cluster, r: Cluster)
    ensures Within(l, Merged(l, r)) && Within(r, Merged(l, r))
  {
    hide LexLess;
    WithinAt([], l, r);
    WithinAt(l, r, []);
    WithinAt([], r, l);
    WithinAt(r, l, []);
    assert [] + l + r == l + r == l + r + [];
    assert [] + r + l == r + l == r + l + [];
  }

  lemma SortMember(s: seq<Cluster>, x: Cluster)
    requires x in s
    ensures x in SortLex(s)
  {
    assert x in multiset(s);
  }

  lemma WithoutMember(s: seq<Cluster>, left: nat, right: nat, i: nat)
    requires left < right < |s| && i < |s| && i != left && i != right
    ensures s[i] in Without(s, left, right)
  {}

  lemma MergeKeepsTogether(before: seq<Cluster>, after: seq<Cluster>, d: Distance, c: Cluster)
    requires IsMerge(before, after, d) && c in before
    ensures exists b :: b in after && Within(c, b)
  {
    hide SortLex, Merged, Without, Within;
    var left: nat, right: nat :| IsClosest(before, d, left, right) && after == MergePair(before, left, right);
    var l, r := before[left], before[right];
    var m := Merged(l, r);
    var unsorted := Without(before, left, right) + [m];
    if c == l || c == r {
      WithinMerged(l, r);
      SortMember(unsorted, m);
    } else {
      var i :| 0 <= i < |before| && before[i] == c;
      WithoutMember(before, left, right, i);
      SortMember(unsorted, c);
      WithinAt([], c, []);
      assert [] + c + [] == c;
    }
  }

  /** Every cluster ever formed is a contiguous block of the final leaf order. */
  lemma {:induction false} ClustersStayTogether(
      levels: seq<seq<Cluster>>, n: nat, d: Distance, order: Cluster, k: nat, c: Cluster)
    requires IsAgglomeration(levels, n, d) && levels[|levels| - 1] == [order]
    requires k < |levels| && c in levels[k]
    ensures Within(c, order)
    decreases |levels| - k
  {
    if k == |levels| - 1 {
      assert [] + c + [] == c;
    } else {
      MergeKeepsTogether(levels[k], levels[k + 1], d, c);
      var b :| b in levels[k + 1] && Within(c, b);
      ClustersStayTogether(levels, n, d, order, k + 1, b);
      WithinTransitive(c, b, order);
    }
  }
}
