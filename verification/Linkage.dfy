/** What the clustering compares and merges: average linkage, the sorted names that break its
    ties, and the order inside a merged cluster. */
module Linkage {
  import opened Clustering

  // -------------------------------------------------------------- separation

  /** Distance of two single assets. */
  lemma SingleSeparation(i: nat, j: nat, d: Distance)
    ensures Separation([i], [j], d) == d(i, j)
  {
    var a, b: Cluster := [i], [j];
    assert a[1..] == [] && b[1..] == [];
    assert RowSum(i, b, d) == d(i, j) + RowSum(i, b[1..], d) == d(i, j);
    assert BlockSum(a, b, d) == RowSum(i, b, d) + BlockSum(a[1..], b, d) == d(i, j);
    OverOne(BlockSum(a, b, d), |a| as real, |b| as real);
  }

  lemma OverOne(x: real, m: real, n: real)
    requires m == 1.0 && n == 1.0
    ensures x / (m * n) == x
  {}

  lemma {:induction false} BlockSumConcat(a: Cluster, b: Cluster, c: Cluster, d: Distance)
    ensures BlockSum(a + b, c, d) == BlockSum(a, c, d) + BlockSum(b, c, d)
  {
    if a == [] {
      assert a + b == b;
    } else {
      assert (a + b)[1..] == a[1..] + b;
      BlockSumConcat(a[1..], b, c, d);
    }
  }

  lemma Mean(x: real, m: real, n: real, mean: real)
    requires m > 0.0 && n > 0.0 && mean == x / (m * n)
    ensures mean * (m * n) == x && (mean * m) * n == x
  {
    assert m * n > 0.0;
  }

  /** Total distance between two clusters. */
  lemma SeparationTotal(a: Cluster, b: Cluster, d: Distance)
    requires a != [] && b != []
    ensures (Separation(a, b, d) * |a| as real) * |b| as real == BlockSum(a, b, d)
  {
    Mean(BlockSum(a, b, d), |a| as real, |b| as real, Separation(a, b, d));
  }

  /** A cluster of two parts stands at the mean of their separations, by size. */
  lemma SeparationOfParts(a: Cluster, b: Cluster, c: Cluster, d: Distance)
    requires a != [] && b != [] && c != []
    ensures Separation(a + b, c, d) * (|a| + |b|) as real
            == Separation(a, c, d) * |a| as real + Separation(b, c, d) * |b| as real
  {
    hide Separation, BlockSum;
    SeparationTotal(a + b, c, d);
    SeparationTotal(a, c, d);
    SeparationTotal(b, c, d);
    BlockSumConcat(a, b, c, d);
    Divided(Separation(a + b, c, d) * (|a| + |b|) as real,
            Separation(a, c, d) * |a| as real, Separation(b, c, d) * |b| as real, |c| as real);
  }

  lemma Divided(x: real, y: real, z: real, n: real)
    requires n > 0.0 && x * n == y * n + z * n
    ensures x == y + z
  {
    assert (x - (y + z)) * n == 0.0;
  }

  lemma {:induction false} BlockSumColumn(a: Cluster, b: Cluster, d: Distance)
    requires b != [] && forall i, j | i in a && j in b :: d(i, j) == d(j, i)
    ensures BlockSum(a, b, d) == RowSum(b[0], a, d) + BlockSum(a, b[1..], d)
  {
    if a != [] {
      assert b[0] in b && a[0] in a;
      assert forall i | i in a[1..] :: i in a;
      BlockSumColumn(a[1..], b, d);
    }
  }

  lemma {:induction false} BlockSumEmpty(a: Cluster, d: Distance)
    ensures BlockSum(a, [], d) == 0.0
  {
    if a != [] { BlockSumEmpty(a[1..], d); }
  }

  lemma {:induction false} BlockSumSymmetric(a: Cluster, b: Cluster, d: Distance)
    requires forall i, j | i in a && j in b :: d(i, j) == d(j, i)
    ensures BlockSum(a, b, d) == BlockSum(b, a, d)
  {
    if b == [] {
      BlockSumEmpty(a, d);
    } else {
      assert forall j | j in b[1..] :: j in b;
      BlockSumColumn(a, b, d);
      BlockSumSymmetric(a, b[1..], d);
    }
  }

  lemma SeparationSymmetric(a: Cluster, b: Cluster, d: Distance)
    requires a != [] && b != []
    requires forall i, j | i in a && j in b :: d(i, j) == d(j, i)
    ensures Separation(a, b, d) == Separation(b, a, d)
  {
    hide BlockSum;
    BlockSumSymmetric(a, b, d);
    Turned(|a| as real, |b| as real);
  }

  lemma Turned(m: real, n: real)
    ensures m * n == n * m
  {}

  // ------------------------------------------------------------- names, order

  ghost predicate Ascending(s: Cluster) { forall i, j | 0 <= i < j < |s| :: s[i] <= s[j] }

  lemma {:induction false} InsertAssetKeeps(x: nat, s: Cluster)
    ensures multiset(InsertAsset(x, s)) == multiset(s) + multiset{x}
  {
    if s != [] && x > s[0] {
      InsertAssetKeeps(x, s[1..]);
      assert s == [s[0]] + s[1..];
    }
  }

  lemma {:induction false} InsertAssetAscending(x: nat, s: Cluster)
    requires Ascending(s)
    ensures Ascending(InsertAsset(x, s))
  {
    if s == [] || x <= s[0] {
      Cons(x, s);
    } else {
      var t := InsertAsset(x, s[1..]);
      InsertAssetAscending(x, s[1..]);
      InsertAssetKeeps(x, s[1..]);
      forall e | e in t ensures s[0] <= e {
        assert e in multiset(t);
        assert e == x || e in s[1..];
      }
      Cons(s[0], t);
    }
  }

  lemma Cons(x: nat, s: Cluster)
    requires Ascending(s) && (s != [] ==> x <= s[0] || forall e | e in s :: x <= e)
    ensures Ascending([x] + s)
  {
    forall j | 0 <= j < |s| ensures x <= s[j] { assert s[j] in s; }
  }

  /** The names that break ties are the pair's tickers in order. */
  lemma {:induction false} SortAssetsSorts(s: Cluster)
    ensures multiset(SortAssets(s)) == multiset(s) && Ascending(SortAssets(s))
  {
    if s != [] {
      SortAssetsSorts(s[1..]);
      InsertAssetKeeps(s[0], SortAssets(s[1..]));
      InsertAssetAscending(s[0], SortAssets(s[1..]));
      assert s == [s[0]] + s[1..];
    }
  }

  /** Merging puts the lesser cluster first, whichever of the two was found first, and stands at
      the parts' mean separation from everything else. */
  lemma MergedMeaning(a: Cluster, b: Cluster, c: Cluster, d: Distance)
    requires a != [] && b != [] && c != []
    ensures Merged(a, b) == Merged(b, a)
    ensures exists first, second :: (first, second) in {(a, b), (b, a)}
                                    && !LexLess(second, first) && Merged(a, b) == first + second
    ensures Separation(Merged(a, b), c, d) * (|a| + |b|) as real
            == Separation(a, c, d) * |a| as real + Separation(b, c, d) * |b| as real
  {
    hide Separation;
    LexTotal(a, b);
    SeparationOfParts(a, b, c, d);
    SeparationOfParts(b, a, c, d);
    assert (a, b) in {(a, b), (b, a)} && (b, a) in {(a, b), (b, a)};
  }
}
