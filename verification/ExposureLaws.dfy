/** What the gate's measures and clamps mean: turnover is a distance between books, and every
    clamp takes no more than its limit asks for. */
module ExposureLaws {
  import opened Names
  import opened Reals
  import opened Sums
  import opened RiskGate

  // ----------------------------------------------------------------- turnover

  lemma TurnoverSymmetric(w: Book, c: Book)
    ensures Turnover(w, c) == Turnover(c, w)
  {
    hide Total;
    TotalSame(w.Keys + c.Keys, Gap(w, c), Gap(c, w));
    assert w.Keys + c.Keys == c.Keys + w.Keys;
  }

  /** Leaving every holding, or building a book from cash, moves half its gross exposure. */
  lemma TurnoverFromNothing(c: Book)
    ensures Turnover(map[], c) == 0.5 * Gross(c) == Turnover(c, map[])
  {
    hide Total;
    var none: Book := map[];
    assert none.Keys + c.Keys == c.Keys;
    TotalSame(c.Keys, Gap(none, c), Sized(c));
    TurnoverSymmetric(none, c);
  }

  /** Names beyond the two books add nothing. */
  lemma TurnoverOver(w: Book, c: Book, names: set<Name>)
    requires w.Keys + c.Keys <= names
    ensures Turnover(w, c) == 0.5 * Total(names, Gap(w, c))
  {
    hide Total;
    TotalExtend(w.Keys + c.Keys, names, Gap(w, c));
  }

  /** Turnover is never negative, and is zero exactly between books with the same weights. */
  lemma TurnoverZeroIff(w: Book, c: Book)
    ensures Turnover(w, c) >= 0.0
    ensures Turnover(w, c) == 0.0 <==> forall t :: At(w, t) == At(c, t)
  {
    hide Total, At;
    var names := w.Keys + c.Keys;
    TotalNonNegative(names, Gap(w, c));
    if forall t :: At(w, t) == At(c, t) {
      TotalScale(names, Gap(w, c), 0.0, Gap(w, c));
    }
    forall t | Turnover(w, c) == 0.0 ensures At(w, t) == At(c, t) {
      if t in names { TermOfNothing(names, Gap(w, c), t); } else { Unheld(w, t); Unheld(c, t); }
    }
  }

  lemma Unheld(w: Book, t: Name)
    requires t !in w
    ensures At(w, t) == 0.0
  {}

  lemma TermOfNothing(s: set<Name>, f: Name -> real, t: Name)
    requires t in s && Total(s, f) == 0.0 && forall x | x in s :: f(x) >= 0.0
    ensures f(t) == 0.0
  {
    hide Total;
    TotalRemove(s, f, t);
    TotalNonNegative(s - {t}, f);
  }

  /** Going by way of a third book never moves less. */
  lemma TurnoverTriangle(a: Book, b: Book, c: Book)
    ensures Turnover(a, c) <= Turnover(a, b) + Turnover(b, c)
  {
    hide Total, At, Abs;
    var names := a.Keys + b.Keys + c.Keys;
    var sum: Name -> real := t => Gap(a, b)(t) + Gap(b, c)(t);
    TurnoverOver(a, b, names);
    TurnoverOver(b, c, names);
    TurnoverOver(a, c, names);
    TotalAdd(names, Gap(a, b), Gap(b, c), sum);
    forall t | t in names ensures Gap(a, c)(t) <= sum(t) { GapTriangle(At(a, t), At(b, t), At(c, t)); }
    TotalLe(names, Gap(a, c), sum);
  }

  lemma GapTriangle(x: real, y: real, z: real)
    ensures Abs(x - z) <= Abs(x - y) + Abs(y - z)
  {}

  function Bought(w: Book, c: Book): Name -> real { t => Max(At(w, t) - At(c, t), 0.0) }

  /** Weight bought on the way from `c` to `w`, exits and entries included. */
  function Purchases(w: Book, c: Book): real { Total(w.Keys + c.Keys, Bought(w, c)) }

  /** Purchases and sales make up turnover in equal parts, but for the change of net exposure. */
  lemma TurnoverIsTrade(w: Book, c: Book)
    ensures Purchases(w, c) + Purchases(c, w) == 2.0 * Turnover(w, c)
    ensures Purchases(w, c) - Purchases(c, w) == Net(w) - Net(c)
    ensures Net(w) == Net(c) ==> Turnover(w, c) == Purchases(w, c)
  {
    hide Total, At;
    var names := w.Keys + c.Keys;
    assert c.Keys + w.Keys == names;
    TotalAdd(names, Bought(w, c), Bought(c, w), Gap(w, c));
    forall t | t in names - w.Keys ensures Signed(w)(t) == 0.0 { Unheld(w, t); }
    forall t | t in names - c.Keys ensures Signed(c)(t) == 0.0 { Unheld(c, t); }
    TotalExtend(w.Keys, names, Signed(w));
    TotalExtend(c.Keys, names, Signed(c));
    var either: Name -> real := t => Signed(w)(t) + Bought(c, w)(t);
    TotalAdd(names, Signed(w), Bought(c, w), either);
    TotalAdd(names, Signed(c), Bought(w, c), either);
  }

  /** The limit counts exits: swapping a holding for another name moves both weights. */
  lemma SwapTurnover(t: Name, u: Name, x: real, y: real)
    requires t != u
    ensures Turnover(map[t := x], map[u := y]) == 0.5 * (Abs(x) + Abs(y))
  {
    hide Total;
    var w, c: Book := map[t := x], map[u := y];
    assert w.Keys + c.Keys == {t, u};
    TotalRemove({t, u}, Gap(w, c), t);
    assert {t, u} - {t} == {u};
    TotalRemove({u}, Gap(w, c), u);
    assert {u} - {u} == {};
    TotalEmpty(Gap(w, c));
  }

  // ---------------------------------------------------------------- exposures

  lemma EmptyBook()
    ensures Gross(map[]) == Net(map[]) == Turnover(map[], map[]) == 0.0
    ensures forall sectors, s :: SectorExposure(map[], sectors, s) == 0.0
  {
    var none: Book := map[];
    assert none.Keys + none.Keys == {};
    forall sectors, s ensures SectorExposure(map[], sectors, s) == 0.0 {
      assert Members(none, sectors, s) == {};
    }
  }

  /** What one more holding adds to each measure; with `EmptyBook` this settles them all. */
  lemma HoldingAdds(w: Book, t: Name, x: real, c: Book, sectors: map<Name, Name>, s: Name)
    requires t !in w && AllClassified(w, sectors) && t in sectors
    ensures Gross(w[t := x]) == Gross(w) + Abs(x)
    ensures Net(w[t := x]) == Net(w) + x
    ensures SectorExposure(w[t := x], sectors, s)
            == SectorExposure(w, sectors, s) + (if sectors[t] == s then Max(x, 0.0) else 0.0)
    ensures Turnover(w[t := x], c) == Turnover(w, c) + 0.5 * (Abs(x - At(c, t)) - Abs(At(c, t)))
  {
    HoldingAddsGross(w, t, x);
    HoldingAddsSector(w, t, x, sectors, s);
    HoldingAddsTurnover(w, t, x, c);
  }

  lemma HoldingAddsGross(w: Book, t: Name, x: real)
    requires t !in w
    ensures Gross(w[t := x]) == Gross(w) + Abs(x) && Net(w[t := x]) == Net(w) + x
  {
    hide Total;
    var v := w[t := x];
    assert v.Keys - {t} == w.Keys;
    TotalRemove(v.Keys, Sized(v), t);
    TotalRemove(v.Keys, Signed(v), t);
    TotalSame(w.Keys, Sized(v), Sized(w));
    TotalSame(w.Keys, Signed(v), Signed(w));
  }

  lemma HoldingAddsSector(w: Book, t: Name, x: real, sectors: map<Name, Name>, s: Name)
    requires t !in w && AllClassified(w, sectors) && t in sectors
    ensures SectorExposure(w[t := x], sectors, s)
            == SectorExposure(w, sectors, s) + (if sectors[t] == s then Max(x, 0.0) else 0.0)
  {
    hide Total;
    var v, members := w[t := x], Members(w, sectors, s);
    TotalSame(members, Long(v), Long(w));
    if sectors[t] == s {
      assert Members(v, sectors, s) - {t} == members;
      TotalRemove(Members(v, sectors, s), Long(v), t);
    } else {
      assert Members(v, sectors, s) == members;
    }
  }

  lemma HoldingAddsTurnover(w: Book, t: Name, x: real, c: Book)
    requires t !in w
    ensures Turnover(w[t := x], c) == Turnover(w, c) + 0.5 * (Abs(x - At(c, t)) - Abs(At(c, t)))
  {
    hide Total;
    var v, names := w[t := x], w.Keys + c.Keys + {t};
    TurnoverOver(w, c, names);
    TurnoverOver(v, c, names);
    TotalRemove(names, Gap(v, c), t);
    TotalRemove(names, Gap(w, c), t);
    TotalSame(names - {t}, Gap(v, c), Gap(w, c));
  }

  // ------------------------------------------- clamps take no more than needed

  /** The first two clamps move each weight to the nearest one their limits allow. */
  lemma FirstClampsAreNearest(w: Book, p: Policy, t: Name, y: real)
    requires Coherent(p) && t in w
    requires Abs(y) <= p.maxPosition && (!p.allowShorting ==> y >= 0.0)
    ensures var x := PositionCapped(NoShorts(w, p), p)[t];
            && Abs(x) <= p.maxPosition && (!p.allowShorting ==> x >= 0.0)
            && Abs(x - w[t]) <= Abs(y - w[t])
  {}

  /** An over-exposed sector ends exactly at its cap, its longs in unchanged proportion; every
      other weight is left alone. */
  lemma SectorEndsAtCap(w: Book, p: Policy, sectors: map<Name, Name>, s: Name)
    requires p.maxSector >= 0.0 && AllClassified(w, sectors)
    ensures var v, e := SectorScaled(w, p, sectors), SectorExposure(w, sectors, s);
            && AllClassified(v, sectors)
            && SectorExposure(v, sectors, s) == Min(e, p.maxSector)
            && (forall t | t in Members(w, sectors, s) ::
                  t in v && (if e > p.maxSector && w[t] > 0.0 then v[t] * e == w[t] * p.maxSector else v[t] == w[t]))
  {
    hide Total, SectorExposure, Long;
    var v, e, members := SectorScaled(w, p, sectors), SectorExposure(w, sectors, s), Members(w, sectors, s);
    assert Members(v, sectors, s) == members;
    SectorTotal(w, sectors, s);
    SectorTotal(v, sectors, s);
    if e > p.maxSector {
      CapFactor(p.maxSector, e);
      var k := p.maxSector / e;
      forall t | t in members
        ensures Long(v)(t) == k * Long(w)(t)
        ensures if w[t] > 0.0 then v[t] * e == w[t] * p.maxSector else v[t] == w[t]
      {
        SectorMemberScaled(w, p, sectors, t, k);
        Proportion(k, e, p.maxSector, w[t], k * w[t]);
      }
      TotalScale(members, Long(w), k, Long(v));
    } else {
      forall t | t in members ensures Long(v)(t) == Long(w)(t) { SameLong(w, v, t); }
      TotalSame(members, Long(v), Long(w));
    }
  }

  lemma SectorTotal(w: Book, sectors: map<Name, Name>, s: Name)
    requires AllClassified(w, sectors)
    ensures SectorExposure(w, sectors, s) == Total(Members(w, sectors, s), Long(w))
  {}

  lemma SameLong(w: Book, v: Book, t: Name)
    requires At(w, t) == At(v, t)
    ensures Long(w)(t) == Long(v)(t)
  {}

  lemma Proportion(k: real, e: real, cap: real, x: real, y: real)
    requires k * e == cap && y == k * x
    ensures y * e == x * cap
  {}

  /** The common scale is the largest that meets the gross, cash and net caps. */
  lemma ExposureScaleIsLargest(w: Book, p: Policy, k: real)
    requires Coherent(p) && 0.0 <= k <= 1.0
    ensures var best := ExposureScale(Gross(w), Abs(Net(w)), p);
            && 0.0 <= best <= 1.0 && ExposureScaled(w, p) == Scaled(w, best)
            && (Gross(Scaled(w, k)) <= GrossCap(p) && Abs(Net(Scaled(w, k))) <= p.maxNet <==> k <= best)
  {
    hide Total, Gross, Net, Coherent, Scaled, ExposureScale;
    CoherentCaps(p);
    ShrinksSelf(w);
    ShrinkKeepsGross(w, w);
    ExposureScaleBounds(Gross(w), Abs(Net(w)), p);
    ScaledGross(w, k);
    ScaledNet(w, k);
    ScaledBetween(Net(w), k);
    LargestScale(Gross(w), Abs(Net(w)), p, k);
    ScaledByOne(w);
  }

  lemma ScaledByOne(w: Book)
    ensures Scaled(w, 1.0) == w
  {}

  lemma LargestScale(g: real, n: real, p: Policy, k: real)
    requires GrossCap(p) >= 0.0 && p.maxNet >= 0.0 && g >= 0.0 && n >= 0.0 && 0.0 <= k <= 1.0
    ensures k <= ExposureScale(g, n, p) <==> k * g <= GrossCap(p) && k * n <= p.maxNet
  {
    LargestRatio(GrossCap(p), g, k);
    LargestRatio(p.maxNet, n, k);
  }

  lemma CoherentCaps(p: Policy)
    requires Coherent(p)
    ensures GrossCap(p) >= 0.0 && p.maxNet >= 0.0
  {}

  lemma LargestRatio(cap: real, e: real, k: real)
    requires cap >= 0.0 && e >= 0.0 && 0.0 <= k <= 1.0
    ensures k * e <= cap <==> (e != 0.0 ==> k <= cap / e)
  {
    if e != 0.0 {
      var q := cap / e;
      assert q * e == cap;
      Ordered(k, q, e);
    }
  }

  lemma Ordered(k: real, q: real, e: real)
    requires e > 0.0
    ensures k <= q <==> k * e <= q * e
  {}
}
