/** Finite sums of real quantities over a set of names. */
module Sums {
  import opened Names
  import opened Reals

  function Total(s: set<Name>, f: Name -> real): real {
    if s == {} then 0.0 else
      var x := Least(s);
      f(x) + Total(s - {x}, f)
  }

  lemma TotalEmpty(f: Name -> real)
    ensures Total({}, f) == 0.0
  {}

  lemma {:induction false} TotalRemove(s: set<Name>, f: Name -> real, x: Name)
    requires x in s
    ensures Total(s, f) == f(x) + Total(s - {x}, f)
  {
    var m := Least(s);
    if x != m {
      TotalRemove(s - {m}, f, x);
      TotalRemove(s - {x}, f, m);
      assert s - {m} - {x} == s - {x} - {m};
    }
  }

  lemma {:induction false} TotalLe(s: set<Name>, f: Name -> real, g: Name -> real)
    requires forall x | x in s :: f(x) <= g(x)
    ensures Total(s, f) <= Total(s, g)
  {
    if s != {} { TotalLe(s - {Least(s)}, f, g); }
  }

  lemma TotalSame(s: set<Name>, f: Name -> real, g: Name -> real)
    requires forall x | x in s :: f(x) == g(x)
    ensures Total(s, f) == Total(s, g)
  {}

  lemma {:induction false} TotalScale(s: set<Name>, f: Name -> real, c: real, g: Name -> real)
    requires forall x | x in s :: g(x) == c * f(x)
    ensures Total(s, g) == c * Total(s, f)
  {
    if s != {} { TotalScale(s - {Least(s)}, f, c, g); }
  }

  lemma {:induction false} TotalAdd(s: set<Name>, f: Name -> real, g: Name -> real, h: Name -> real)
    requires forall x | x in s :: h(x) == f(x) + g(x)
    ensures Total(s, h) == Total(s, f) + Total(s, g)
  {
    if s != {} { TotalAdd(s - {Least(s)}, f, g, h); }
  }

  lemma {:induction false} TotalNonNegative(s: set<Name>, f: Name -> real)
    requires forall x | x in s :: f(x) >= 0.0
    ensures Total(s, f) >= 0.0
  {
    if s != {} { TotalNonNegative(s - {Least(s)}, f); }
  }

  lemma {:induction false} TotalAtMost(s: set<Name>, f: Name -> real, c: real)
    requires forall x | x in s :: f(x) <= c
    ensures Total(s, f) <= |s| as real * c
  {
    hide Total;
    if s == {} {
      TotalEmpty(f);
    } else {
      var m := Least(s);
      TotalRemove(s, f, m);
      TotalAtMost(s - {m}, f, c);
      OneMore(|s| as real, |s - {m}| as real, c);
    }
  }

  lemma {:induction false} TotalSplit(s: set<Name>, t: set<Name>, f: Name -> real)
    requires s !! t
    ensures Total(s + t, f) == Total(s, f) + Total(t, f)
  {
    if s == {} {
      assert s + t == t;
    } else {
      var m := Least(s);
      TotalSplit(s - {m}, t, f);
      TotalRemove(s + t, f, m);
      assert s + t - {m} == (s - {m}) + t;
    }
  }

  /** Names outside `s` that contribute nothing can be added freely. */
  lemma TotalExtend(s: set<Name>, t: set<Name>, f: Name -> real)
    requires s <= t
    requires forall x | x in t - s :: f(x) == 0.0
    ensures Total(s, f) == Total(t, f)
  {
    TotalSplit(s, t - s, f);
    assert s + (t - s) == t;
    TotalScale(t - s, f, 0.0, f);
  }

  lemma {:induction false} TotalTriangle(s: set<Name>, f: Name -> real, a: Name -> real)
    requires forall x | x in s :: Abs(f(x)) <= a(x)
    ensures Abs(Total(s, f)) <= Total(s, a)
  {
    if s != {} { TotalTriangle(s - {Least(s)}, f, a); }
  }

  /** A positive sum of terms has a positive term. */
  lemma {:induction false} TotalPositiveTerm(s: set<Name>, f: Name -> real) returns (x: Name)
    requires Total(s, f) > 0.0
    ensures x in s && f(x) > 0.0
  {
    var m := Least(s);
    if f(m) > 0.0 { x := m; } else { x := TotalPositiveTerm(s - {m}, f); }
  }
}
