/**
 Merging sketches of different scales. A pair that is merged, and perhaps collapsed, before it is
 coarsened need not give what coarsening first would: the floor it was folded to may lie above
 buckets the coarser window still has room for. The theorems say exactly when grouping matters.
 */
module Scales {
  import opened SketchSpec
  import opened Mapping
  import opened SketchValues

  // ---------------------------------------------------------------------------------------
  // Coarsening in steps.

  lemma ShiftTwice(i: int, s: nat, t: nat)
    ensures Shift(Shift(i, s), t) == Shift(i, s + t)
  {
    Pow2Positive(s);
    Pow2Positive(t);
    Pow2Product(s, t);
    var a, b := Pow2(s), Pow2(t);
    FloorTwice(i, a, b);
  }

  lemma FloorTwice(i: int, a: int, b: int)
    requires a >= 1 && b >= 1
    ensures a * b >= 1 && i / a / b == i / (a * b)
  {
    var q := i / a;
    var p, r, u := q / b, q % b, i % a;
    assert i == q * a + u && q == p * b + r;
    assert i == p * (a * b) + (r * a + u) by { assert (p * b + r) * a == p * (a * b) + r * a; }
    assert 0 <= r * a <= (b - 1) * a by { MulOrder(0, r, a); MulOrder(r, b - 1, a); }
    assert (b - 1) * a + a == a * b;
    Quotient(i, a * b, p, r * a + u);
  }

  lemma MulOrder(x: int, y: int, a: int)
    requires x <= y && a >= 0
    ensures x * a <= y * a
  {
  }

  lemma Quotient(i: int, d: int, p: int, r: int)
    requires d >= 1 && i == p * d + r && 0 <= r < d
    ensures i / d == p
  {
    var q, u := i / d, i % d;
    assert i == q * d + u && 0 <= u < d;
    if q < p { MulOrder(q + 1, p, d); }
    if q > p { MulOrder(p + 1, q, d); }
  }

  lemma {:induction false} ShiftAllTwice(h: seq<Obs>, s: nat, t: nat)
    ensures ShiftAll(ShiftAll(h, s), t) == ShiftAll(h, s + t)
  {
    if h != [] {
      hide Shift;
      var more := h[..|h| - 1];
      ShiftAllTwice(more, s, t);
      ShiftTwice(h[|h| - 1].index, s, t);
      assert ShiftAll(h, s)[..|ShiftAll(h, s)| - 1] == ShiftAll(more, s);
    }
  }

  /** Downscaling in two steps is downscaling in one. */
  lemma DownscaleTwice(v: View, s: nat, t: nat)
    requires v.Valid()
    ensures DownscaleView(DownscaleView(v, s), t) == DownscaleView(v, s + t)
  {
    hide DownscaleView, ShiftAll, Canonical, Cells;
    var h := Cells(v, |v.cells|);
    UncollapsedCells(v);
    UncollapsedShift(h, s);
    DownscaleFlag(v, Canonical(h), s);
    DownscaleFlag(v, Canonical(h), s + t);
    DownscaleIsExact(h, s);
    DownscaleIsExact(h, s + t);
    DownscaleIsExact(ShiftAll(h, s), t);
    ShiftAllTwice(h, s, t);
    DownscaleFlag(DownscaleView(v, s), Canonical(ShiftAll(h, s)), t);
  }

  lemma UncollapsedCells(v: View)
    requires v.Valid()
    ensures var h := Cells(v, |v.cells|);
            Positive(h) && !Canonical(h).collapsed && v == Canonical(h).Flag(v.collapsed)
  {
    CellsDetermine(v);
    if v.cells != [] { CellsEnds(v); }
  }

  lemma UncollapsedShift(h: seq<Obs>, s: nat)
    requires Positive(h) && !Canonical(h).collapsed
    ensures Positive(ShiftAll(h, s)) && !Canonical(ShiftAll(h, s)).collapsed
    ensures forall c :: Canonical(ShiftAll(h, s)).Flag(c).collapsed == c
  {
    DownscaleIsExact(h, s);
    if h != [] { ShiftAllIndexes(h, s); }
  }

  lemma DownscaleNone(v: View)
    requires v.Valid()
    ensures DownscaleView(v, 0) == v
  {
    hide DownscaleView, Canonical, Cells;
    var h := Cells(v, |v.cells|);
    UncollapsedCells(v);
    DownscaleIsExact(h, 0);
    DownscaleFlag(v, Canonical(h), 0);
    ShiftAllNone(h);
  }

  lemma {:induction false} ShiftAllNone(h: seq<Obs>)
    ensures ShiftAll(h, 0) == h
  {
    if h != [] { ShiftAllNone(h[..|h| - 1]); }
  }

  /** The window of a sketch at a scale no finer than its own. */
  function AlignedView(v: Value, t: nat): View
    requires t <= v.scale
  {
    DownscaleView(v.view, v.scale - t)
  }

  /** Merged at the coarser of their scales, the two windows still hold every cell. */
  predicate Fits(a: Value, b: Value) {
    var m := if a.scale < b.scale then a.scale else b.scale;
    var x, y := AlignedView(a, m), AlignedView(b, m);
    !Canonical(Cells(x, |x.cells|) + Cells(y, |y.cells|)).collapsed
  }

  lemma AlignedValid(v: Value, t: nat)
    requires v.Valid() && t <= v.scale
    ensures AlignedView(v, t).Valid()
  {
    hide DownscaleView;
    DownscaleOfCells(v.view, v.scale - t);
  }

  /** A merge takes place at the coarser of the two scales. */
  lemma MergeIsAligned(a: Value, b: Value, m: nat)
    requires a.view.Valid() && b.view.Valid() && b.count > 0 && m == if a.scale < b.scale then a.scale else b.scale
    ensures MergeValue(a, b) == Value(m, a.count + b.count, a.zeroCount + b.zeroCount, a.sum + b.sum,
                                      MergeView(AlignedView(a, m), AlignedView(b, m)))
  {
    hide DownscaleView, MergeView;
    DownscaleNone(a.view);
    DownscaleNone(b.view);
  }

  /** A merge seen at a scale that is no finer: align first, then merge. */
  lemma MergeAligned(a: Value, b: Value, t: nat)
    requires a.Valid() && b.Valid() && b.count > 0 && t <= a.scale && t <= b.scale
    requires t == a.scale || t == b.scale || Fits(a, b)
    ensures var ab := MergeValue(a, b);
            t <= ab.scale && ab.view.Valid() && AlignedView(ab, t) == MergeView(AlignedView(a, t), AlignedView(b, t))
  {
    hide DownscaleView, MergeView, Canonical, Cells;
    var m := if a.scale < b.scale then a.scale else b.scale;
    var x, y := AlignedView(a, m), AlignedView(b, m);
    MergeIsAligned(a, b, m);
    AlignedValid(a, m);
    AlignedValid(b, m);
    MergeValid(x, y);
    if t == m {
      DownscaleNone(MergeView(x, y));
    } else {
      MergeThenDownscale(x, y, m - t);
      DownscaleTwice(a.view, a.scale - m, m - t);
      DownscaleTwice(b.view, b.scale - m, m - t);
    }
  }

  /** Folding three sketches of any scales together does not depend on the grouping, provided that
      a pair that is coarsened after it was merged was not collapsed by its merge. */
  lemma MergeAssociatesAcrossScales(a: Value, b: Value, c: Value)
    requires a.Valid() && b.Valid() && c.Valid() && b.count > 0 && c.count > 0
    requires c.scale < a.scale && c.scale < b.scale ==> Fits(a, b)
    requires a.scale < b.scale && a.scale < c.scale ==> Fits(b, c)
    ensures MergeValue(MergeValue(a, b), c) == MergeValue(a, MergeValue(b, c))
  {
    hide DownscaleView, MergeView, Fits, AlignedView;
    var p, q := if a.scale < b.scale then a.scale else b.scale, if b.scale < c.scale then b.scale else c.scale;
    var m := if p < c.scale then p else c.scale;
    MergeAligned(a, b, m);
    MergeAligned(b, c, m);
    MergeIsAligned(a, b, p);
    MergeIsAligned(b, c, q);
    AlignedValid(a, m);
    AlignedValid(b, m);
    AlignedValid(c, m);
    MergeAssociates(AlignedView(a, m), AlignedView(b, m), AlignedView(c, m));
    MergeIsAligned(MergeValue(a, b), c, m);
    MergeIsAligned(a, MergeValue(b, c), m);
  }

  // ---------------------------------------------------------------------------------------
  // Folding to a floor before coarsening.

  /** A history with every observation below a floor moved up to it. */
  function Lift(h: seq<Obs>, f: int): seq<Obs> {
    if h == [] then [] else Lift(h[..|h| - 1], f) + [Obs(Max(h[|h| - 1].index, f), h[|h| - 1].n)]
  }

  lemma {:induction false} LiftCounts(h: seq<Obs>, f: int, k: int)
    ensures CountUpTo(Lift(h, f), k) == if k < f then 0 else CountUpTo(h, k)
    ensures CountAt(Lift(h, f), k) == if k < f then 0 else if k == f then CountUpTo(h, f) else CountAt(h, k)
  {
    if h != [] {
      var most, o := h[..|h| - 1], h[|h| - 1];
      LiftCounts(most, f, k);
      CountAppend(Lift(most, f), Obs(Max(o.index, f), o.n), k);
    }
  }

  lemma {:induction false} LiftIndexes(h: seq<Obs>, f: int)
    requires h != []
    ensures Lift(h, f) != [] && (Positive(h) ==> Positive(Lift(h, f)))
    ensures MaxIndex(Lift(h, f)) == Max(MaxIndex(h), f) && MinIndex(Lift(h, f)) == Max(MinIndex(h), f)
  {
    var most, o := h[..|h| - 1], h[|h| - 1];
    var p := Obs(Max(o.index, f), o.n);
    if |h| == 1 {
      assert Lift(h, f) == [] + [p] == [p];
    } else {
      LiftIndexes(most, f);
      assert forall i :: 0 <= i < |most| ==> most[i] == h[i];
      CountAppend(Lift(most, f), p, 0);
      assert most + [o] == h;
      CountAppend(most, o, 0);
    }
  }

  lemma {:induction false} LiftNone(h: seq<Obs>, f: int)
    requires forall i :: 0 <= i < |h| ==> f <= h[i].index
    ensures Lift(h, f) == h
  {
    if h != [] {
      var most := h[..|h| - 1];
      assert forall i :: 0 <= i < |most| ==> most[i] == h[i];
      LiftNone(most, f);
    }
  }

  lemma {:induction false} LiftShift(h: seq<Obs>, f: int, s: nat)
    ensures ShiftAll(Lift(h, f), s) == Lift(ShiftAll(h, s), Shift(f, s))
  {
    if h != [] {
      hide Shift;
      var most, o := h[..|h| - 1], h[|h| - 1];
      LiftShift(most, f, s);
      if o.index <= f { ShiftMonotone(o.index, f, s); } else { ShiftMonotone(f, o.index, s); }
      var p := Obs(Max(o.index, f), o.n);
      assert (Lift(most, f) + [p])[..|Lift(most, f)|] == Lift(most, f);
      assert (ShiftAll(most, s) + [Obs(Shift(o.index, s), o.n)])[..|ShiftAll(most, s)|] == ShiftAll(most, s);
    }
  }

  /** A window is that of its history lifted to its floor, apart from the flag. */
  lemma LiftToFloor(h: seq<Obs>)
    requires h != [] && Positive(h)
    ensures !Canonical(Lift(h, Floor(h))).collapsed
    ensures Canonical(Lift(h, Floor(h))).Flag(Canonical(h).collapsed) == Canonical(h)
  {
    hide CountAt, CountUpTo;
    var f := Floor(h);
    LiftIndexes(h, f);
    IndexBounds(h);
    CanonicalShape(h);
    CanonicalShape(Lift(h, f));
    var v, w := Canonical(Lift(h, f)).Flag(Canonical(h).collapsed), Canonical(h);
    forall k | v.lo <= k <= v.Hi() ensures v.At(k) == w.At(k) {
      LiftCounts(h, f, k);
      assert v.At(k) == Canonical(Lift(h, f)).At(k);
    }
    SameView(v, w);
  }

  /** Everything two sketches hold, at the coarser of their scales. */
  function Together(a: Value, b: Value): seq<Obs> {
    var m := if a.scale < b.scale then a.scale else b.scale;
    var x, y := AlignedView(a, m), AlignedView(b, m);
    Cells(x, |x.cells|) + Cells(y, |y.cells|)
  }

  /** Merged and then coarsened, a pair shows what it holds lifted to the floor of its merge. */
  lemma MergedThenCoarsened(a: Value, b: Value, t: nat)
    requires a.Valid() && b.Valid() && b.count > 0 && t <= a.scale && t <= b.scale
    ensures var h, s := Together(a, b), (if a.scale < b.scale then a.scale else b.scale) - t;
            && t <= MergeValue(a, b).scale && Positive(h)
            && (h != [] ==>
                  AlignedView(MergeValue(a, b), t)
                  == Canonical(Lift(ShiftAll(h, s), Shift(Floor(h), s)))
                       .Flag(a.view.collapsed || b.view.collapsed || Canonical(h).collapsed))
  {
    hide DownscaleView, MergeView, Canonical, Cells, Lift, ShiftAll, Shift, Floor;
    var m := if a.scale < b.scale then a.scale else b.scale;
    var s := m - t;
    var x, y, h := AlignedView(a, m), AlignedView(b, m), Together(a, b);
    MergeIsAligned(a, b, m);
    AlignedFlag(a, m);
    AlignedFlag(b, m);
    MergeIsUnion(x, y);
    UncollapsedCells(x);
    UncollapsedCells(y);
    if h != [] {
      var low := Lift(h, Floor(h));
      LiftToFloor(h);
      LiftIndexes(h, Floor(h));
      var flag := a.view.collapsed || b.view.collapsed;
      FlagsJoin(Canonical(low), Canonical(h), flag);
      DownscaleFlag(MergeView(x, y), Canonical(low), s);
      DownscaleIsExact(low, s);
      LiftShift(h, Floor(h), s);
    }
  }

  lemma FlagsJoin(low: View, whole: View, flag: bool)
    requires !low.collapsed && low.Flag(whole.collapsed) == whole
    ensures whole.Flag(flag) == low.Flag(whole.Flag(flag).collapsed)
    ensures whole.Flag(flag).collapsed == (flag || whole.collapsed)
  {
  }

  lemma AlignedFlag(v: Value, t: nat)
    requires v.Valid() && t <= v.scale
    ensures AlignedView(v, t).Valid() && AlignedView(v, t).collapsed == v.view.collapsed
  {
    AlignedValid(v, t);
  }

  /** Coarsened and then merged, a pair shows all it holds. */
  lemma CoarsenedThenMerged(a: Value, b: Value, t: nat)
    requires a.Valid() && b.Valid() && t <= a.scale && t <= b.scale
    ensures var h, s := Together(a, b), (if a.scale < b.scale then a.scale else b.scale) - t;
            MergeView(AlignedView(a, t), AlignedView(b, t))
            == Canonical(ShiftAll(h, s)).Flag(a.view.collapsed || b.view.collapsed)
  {
    hide DownscaleView, MergeView, Canonical, Cells, ShiftAll, Shift;
    var m := if a.scale < b.scale then a.scale else b.scale;
    var s := m - t;
    var x, y := AlignedView(a, m), AlignedView(b, m);
    var g, h := Cells(x, |x.cells|), Cells(y, |y.cells|);
    AlignedFlag(a, m);
    AlignedFlag(b, m);
    DownscaleTwice(a.view, a.scale - m, s);
    DownscaleTwice(b.view, b.scale - m, s);
    DownscaleOfCells(x, s);
    DownscaleOfCells(y, s);
    MergeOfHistories(ShiftAll(g, s), ShiftAll(h, s));
    MergeFlags(Canonical(ShiftAll(g, s)), Canonical(ShiftAll(h, s)), a.view.collapsed, b.view.collapsed);
    ShiftAllConcat(g, h, s);
  }

  lemma WithThird(j: seq<Obs>, flag: bool, c: View)
    requires Positive(j) && c.Valid()
    ensures MergeView(Canonical(j).Flag(flag), c) == Canonical(j + Cells(c, |c.cells|)).Flag(flag || c.collapsed)
  {
    hide MergeView, Canonical, Cells;
    var e := Cells(c, |c.cells|);
    UncollapsedCells(c);
    MergeOfHistories(j, e);
    MergeFlags(Canonical(j), Canonical(e), flag, c.collapsed);
  }

  // ---------------------------------------------------------------------------------------
  // When lifting shows.

  /** Lifted below the floor of the whole, or below everything, nothing changes. */
  lemma LiftedUnion(j: seq<Obs>, e: seq<Obs>, f: int)
    requires j != [] && Positive(j) && Positive(e) && f <= MaxIndex(j)
    requires f <= MinIndex(j) || f <= Floor(j + e)
    ensures Canonical(Lift(j, f) + e).Flag(true) == Canonical(j + e).Flag(true)
  {
    IndexBounds(j);
    if f <= MinIndex(j) {
      LiftNone(j, f);
    } else {
      hide CountAt, CountUpTo, Canonical, Lift;
      LiftedBounds(j, e, f);
      var v, w := Canonical(Lift(j, f) + e), Canonical(j + e);
      CanonicalShape(Lift(j, f) + e);
      CanonicalShape(j + e);
      forall k | v.lo <= k <= v.Hi() ensures v.Flag(true).At(k) == w.Flag(true).At(k) {
        LiftCounts(j, f, k);
        CountConcat(Lift(j, f), e, k);
        CountConcat(j, e, k);
        assert v.At(k) == w.At(k);
      }
      SameView(v.Flag(true), w.Flag(true));
    }
  }

  lemma LiftedBounds(j: seq<Obs>, e: seq<Obs>, f: int)
    requires j != [] && Positive(j) && Positive(e) && MinIndex(j) < f <= MaxIndex(j)
    ensures Lift(j, f) + e != [] && Positive(Lift(j, f) + e) && MaxIndex(Lift(j, f) + e) == MaxIndex(j + e)
    ensures f <= Floor(j + e) ==> Floor(Lift(j, f) + e) == Floor(j + e) == MaxIndex(j + e) - MAX_BINS + 1
    ensures Floor(j + e) < f ==> Floor(j + e) <= f - 1
    ensures MinIndex(j + e) <= MinIndex(j)
  {
    LiftIndexes(j, f);
    if e == [] {
      assert j + e == j && Lift(j, f) + e == Lift(j, f);
    } else {
      IndexConcat(j, e);
      IndexConcat(Lift(j, f), e);
    }
  }

  lemma {:induction false} UpToAtMost(h: seq<Obs>, k: int)
    ensures CountUpTo(h, k) <= Weight(h)
  {
    if h != [] { UpToAtMost(h[..|h| - 1], k); }
  }

  /** Lifted above the floor of the whole, what was below goes missing there, as long as no counter
      is full. */
  lemma LiftedApart(j: seq<Obs>, e: seq<Obs>, f: int)
    requires j != [] && Positive(j) && Positive(e) && Weight(j + e) < MAX_COUNT
    requires MinIndex(j) < f <= MaxIndex(j) && Floor(j + e) < f
    ensures Canonical(Lift(j, f) + e).UpTo(f - 1) != Canonical(j + e).UpTo(f - 1)
  {
    hide CountUpTo, Canonical, Lift, View.UpTo;
    var g, m := j + e, Lift(j, f) + e;
    LiftedBounds(j, e, f);
    CanonicalUpTo(g, f - 1);
    CanonicalShape(m);
    LiftCounts(j, f, f - 1);
    CountConcat(Lift(j, f), e, f - 1);
    CountConcat(j, e, f - 1);
    UpToAtMost(g, f - 1);
    IndexBounds(j);
    var i :| 0 <= i < |j| && j[i].index == MinIndex(j);
    SomethingBelow(j, i, f - 1);
    if f - 1 >= Floor(m) {
      CanonicalUpTo(m, f - 1);
    } else {
      UpToStep(Canonical(m), f - 1);
    }
  }

  // ---------------------------------------------------------------------------------------
  // When the grouping matters.

  /** Merging a pair before it is coarsened to t does no harm: either the merge collapses nothing, or
      the whole is collapsed anyway and the floor of the merge, coarsened, is no higher than that of
      the whole or of the pair by itself. */
  predicate Harmless(a: Value, b: Value, whole: View, t: nat)
    requires t <= a.scale && t <= b.scale && t <= MergeValue(a, b).scale
  {
    || Fits(a, b)
    || (&& whole.collapsed
        && AlignedView(MergeValue(a, b), t).lo <= Max(MergeView(AlignedView(a, t), AlignedView(b, t)).lo, whole.lo))
  }

  /** Everything a window holds, ranked or not. */
  function Stored(v: View): nat { Total(v.cells, |v.cells|) }

  /** The floors the condition compares, as those of histories. */
  lemma Floors(h: seq<Obs>, e: seq<Obs>, s: nat)
    requires h != [] && Positive(h) && Positive(e) && Canonical(h).collapsed
    ensures var j, f := ShiftAll(h, s), Shift(Floor(h), s);
            && j != [] && Positive(j) && f <= MaxIndex(j) && MinIndex(j) <= f
            && Canonical(Lift(j, f)).lo == f && Canonical(j).lo == Floor(j) && Canonical(j + e).lo == Floor(j + e)
            && (f <= Max(Floor(j), Floor(j + e)) <==> f <= MinIndex(j) || f <= Floor(j + e))
  {
    hide Shift, Lift;
    var j, f := ShiftAll(h, s), Shift(Floor(h), s);
    ShiftAllIndexes(h, s);
    IndexBounds(h);
    ShiftMonotone(MinIndex(h), Floor(h), s);
    ShiftMonotone(Floor(h), MaxIndex(h), s);
    LiftIndexes(j, f);
    IndexBounds(j);
    if e == [] { assert j + e == j; } else { IndexConcat(j, e); }
  }

  lemma {:induction false} ShiftedWeight(h: seq<Obs>, s: nat)
    ensures Weight(ShiftAll(h, s)) == Weight(h)
  {
    if h != [] {
      var most := h[..|h| - 1];
      ShiftedWeight(most, s);
      assert ShiftAll(h, s)[..|ShiftAll(h, s)| - 1] == ShiftAll(most, s);
    }
  }

  lemma {:induction false} UpToAll(h: seq<Obs>, k: int)
    requires forall i :: 0 <= i < |h| ==> h[i].index <= k
    ensures CountUpTo(h, k) == Weight(h)
  {
    if h != [] { UpToAll(h[..|h| - 1], k); }
  }

  /** Coarsening a window that no counter could fill loses nothing. */
  lemma CoarsenedHolds(v: View, s: nat)
    requires v.Valid() && Stored(v) < MAX_COUNT
    ensures Stored(DownscaleView(v, s)) == Stored(v)
  {
    hide DownscaleView, Canonical, ShiftAll, CountUpTo;
    var h := Cells(v, |v.cells|);
    DownscaleOfCells(v, s);
    WeightOfCells(v, |v.cells|);
    ShiftedWeight(h, s);
    CanonicalHoldsAll(ShiftAll(h, s));
  }

  lemma CanonicalHoldsAll(h: seq<Obs>)
    requires Positive(h) && Weight(h) < MAX_COUNT
    ensures Stored(Canonical(h)) == Weight(h)
  {
    if h != [] {
      hide CountUpTo, CountAt;
      IndexBounds(h);
      CanonicalShape(h);
      CanonicalUpTo(h, MaxIndex(h));
      UpToAll(h, MaxIndex(h));
    }
  }

  lemma TogetherWeighs(a: Value, b: Value, c: View, s: nat)
    requires a.Valid() && b.Valid() && c.Valid() && Stored(a.view) + Stored(b.view) + Stored(c) < MAX_COUNT
    ensures Weight(ShiftAll(Together(a, b), s) + Cells(c, |c.cells|)) == Stored(a.view) + Stored(b.view) + Stored(c)
  {
    hide DownscaleView, Cells, ShiftAll, Stored;
    var m := if a.scale < b.scale then a.scale else b.scale;
    var x, y := AlignedView(a, m), AlignedView(b, m);
    CoarsenedHolds(a.view, a.scale - m);
    CoarsenedHolds(b.view, b.scale - m);
    StoredWeight(x);
    StoredWeight(y);
    StoredWeight(c);
    WeightConcat(Cells(x, |x.cells|), Cells(y, |y.cells|));
    ShiftedWeight(Together(a, b), s);
    WeightConcat(ShiftAll(Together(a, b), s), Cells(c, |c.cells|));
  }

  lemma StoredWeight(v: View)
    ensures Weight(Cells(v, |v.cells|)) == Stored(v)
  {
    WeightOfCells(v, |v.cells|);
  }

  /** A pair merged before it is coarsened, and a third window: harmless is enough, and needed unless
      a counter is full. */
  lemma PairMatters(a: Value, b: Value, c: View, t: nat)
    requires a.Valid() && b.Valid() && b.count > 0 && c.Valid() && t <= a.scale && t <= b.scale
    ensures t <= MergeValue(a, b).scale
    ensures var x := MergeView(AlignedView(MergeValue(a, b), t), c);
            var y := MergeView(MergeView(AlignedView(a, t), AlignedView(b, t)), c);
            && (Harmless(a, b, y, t) ==> x == y)
            && (x == y && Stored(a.view) + Stored(b.view) + Stored(c) < MAX_COUNT ==> Harmless(a, b, y, t))
            && (!Fits(a, b) && !y.collapsed ==> x != y)
  {
    hide DownscaleView, MergeView, Canonical, Cells, Lift, ShiftAll, Shift, Floor, Stored, AlignedView;
    var h, s := Together(a, b), (if a.scale < b.scale then a.scale else b.scale) - t;
    var e := Cells(c, |c.cells|);
    MergedThenCoarsened(a, b, t);
    if Fits(a, b) {
      MergeAligned(a, b, t);
    } else {
      CollapsedSomething(a, b);
      var j, f := ShiftAll(h, s), Shift(Floor(h), s);
      CoarsenedThenMerged(a, b, t);
      UncollapsedCells(c);
      Floors(h, e, s);
      var flag := a.view.collapsed || b.view.collapsed;
      LiftIndexes(j, f);
      WithThird(Lift(j, f), true, c);
      WithThird(j, flag, c);
      assert |j + e| > 0;
      if f <= MinIndex(j) || f <= Floor(j + e) {
        LiftedUnion(j, e, f);
        FlaggedSame(Canonical(Lift(j, f) + e), Canonical(j + e), flag || c.collapsed);
      } else if Stored(a.view) + Stored(b.view) + Stored(c) < MAX_COUNT {
        TogetherWeighs(a, b, c, s);
        LiftedApart(j, e, f);
        FlagKeepsUpTo(Canonical(Lift(j, f) + e), true, f - 1);
        FlagKeepsUpTo(Canonical(j + e), flag || c.collapsed, f - 1);
      }
    }
  }

  lemma CollapsedSomething(a: Value, b: Value)
    ensures !Fits(a, b) <==> Canonical(Together(a, b)).collapsed
    ensures !Fits(a, b) ==> Together(a, b) != []
  {
    hide DownscaleView, Cells;
  }

  lemma FlaggedSame(v: View, w: View, c: bool)
    requires v.Flag(true) == w.Flag(true)
    ensures v.Flag(true) == w.Flag(c) <==> w.Flag(c).collapsed
  {
  }

  lemma FlagKeepsUpTo(v: View, c: bool, k: int)
    ensures v.Flag(c).UpTo(k) == v.UpTo(k) && v.Flag(c).lo == v.lo
  {
  }

  /** No pair is merged before it is coarsened, or that does no harm. */
  predicate GroupingHarmless(a: Value, b: Value, c: Value)
    requires b.count > 0 && c.count > 0
  {
    && (c.scale < a.scale && c.scale < b.scale ==> Harmless(a, b, MergeValue(a, MergeValue(b, c)).view, c.scale))
    && (a.scale < b.scale && a.scale < c.scale ==> Harmless(b, c, MergeValue(MergeValue(a, b), c).view, a.scale))
  }

  /** Folding three sketches that hold observations, of any scales, gives the same value either way
      when the grouping is harmless, and, unless there are enough observations to fill a counter,
      only then. */
  lemma MergeAssociatesExactly(a: Value, b: Value, c: Value)
    requires a.Valid() && b.Valid() && c.Valid() && b.count > 0 && c.count > 0
    ensures GroupingHarmless(a, b, c) ==> MergeValue(MergeValue(a, b), c) == MergeValue(a, MergeValue(b, c))
    ensures Stored(a.view) + Stored(b.view) + Stored(c.view) < MAX_COUNT ==>
              (MergeValue(MergeValue(a, b), c) == MergeValue(a, MergeValue(b, c)) <==> GroupingHarmless(a, b, c))
  {
    hide DownscaleView, MergeView, Fits, AlignedView, Stored, Harmless;
    if c.scale < a.scale && c.scale < b.scale {
      CoarsestLast(a, b, c);
      PairMatters(a, b, c.view, c.scale);
    } else if a.scale < b.scale && a.scale < c.scale {
      CoarsestFirst(a, b, c);
      PairMatters(b, c, a.view, a.scale);
    } else {
      MergeAssociatesAcrossScales(a, b, c);
    }
  }

  lemma AlignedHere(v: Value)
    requires v.view.Valid()
    ensures AlignedView(v, v.scale) == v.view
  {
    DownscaleNone(v.view);
  }

  lemma MergedValid(a: Value, b: Value)
    requires a.Valid() && b.Valid() && b.count > 0
    ensures MergeValue(a, b).view.Valid()
  {
    hide DownscaleView, MergeView;
    var m := if a.scale < b.scale then a.scale else b.scale;
    MergeIsAligned(a, b, m);
    AlignedValid(a, m);
    AlignedValid(b, m);
    MergeValid(AlignedView(a, m), AlignedView(b, m));
  }

  lemma CoarsestLast(a: Value, b: Value, c: Value)
    requires a.Valid() && b.Valid() && c.Valid() && b.count > 0 && c.count > 0 && c.scale < a.scale && c.scale < b.scale
    ensures var l, r, t := MergeValue(MergeValue(a, b), c), MergeValue(a, MergeValue(b, c)), c.scale;
            && t <= MergeValue(a, b).scale
            && l.view == MergeView(AlignedView(MergeValue(a, b), t), c.view)
            && r.view == MergeView(MergeView(AlignedView(a, t), AlignedView(b, t)), c.view)
            && (l == r <==> l.view == r.view)
  {
    hide DownscaleView, MergeView, AlignedView;
    var t, p := c.scale, if a.scale < b.scale then a.scale else b.scale;
    MergeIsAligned(a, b, p);
    MergeIsAligned(b, c, t);
    MergedValid(a, b);
    MergedValid(b, c);
    MergeIsAligned(MergeValue(a, b), c, t);
    MergeIsAligned(a, MergeValue(b, c), t);
    AlignedHere(c);
    AlignedHere(MergeValue(b, c));
    AlignedValid(a, t);
    AlignedValid(b, t);
    MergeAssociates(AlignedView(a, t), AlignedView(b, t), c.view);
  }

  lemma CoarsestFirst(a: Value, b: Value, c: Value)
    requires a.Valid() && b.Valid() && c.Valid() && b.count > 0 && c.count > 0 && a.scale < b.scale && a.scale < c.scale
    ensures var l, r, t := MergeValue(MergeValue(a, b), c), MergeValue(a, MergeValue(b, c)), a.scale;
            && t <= MergeValue(b, c).scale
            && l.view == MergeView(MergeView(AlignedView(b, t), AlignedView(c, t)), a.view)
            && r.view == MergeView(AlignedView(MergeValue(b, c), t), a.view)
            && (l == r <==> l.view == r.view)
  {
    hide DownscaleView, MergeView, AlignedView;
    var t, q := a.scale, if b.scale < c.scale then b.scale else c.scale;
    MergeIsAligned(a, b, t);
    MergeIsAligned(b, c, q);
    MergedValid(a, b);
    MergedValid(b, c);
    MergeIsAligned(MergeValue(a, b), c, t);
    MergeIsAligned(a, MergeValue(b, c), t);
    AlignedHere(a);
    AlignedHere(MergeValue(a, b));
    AlignedValid(b, t);
    AlignedValid(c, t);
    MergeAssociates(a.view, AlignedView(b, t), AlignedView(c, t));
    MergeValid(AlignedView(b, t), AlignedView(c, t));
    MergeCommutes(a.view, MergeView(AlignedView(b, t), AlignedView(c, t)));
    CoarsenedValid(MergeValue(b, c), t);
    MergeCommutes(a.view, AlignedView(MergeValue(b, c), t));
  }

  lemma CoarsenedValid(v: Value, t: nat)
    requires v.view.Valid() && t <= v.scale
    ensures AlignedView(v, t).Valid()
  {
    DownscaleOfCells(v.view, v.scale - t);
  }

  /** A failing input, without a full counter or an empty sketch: two sketches 600 buckets apart and a
      third at scale 0. Merged first, the two are collapsed; merged last, nothing is. */
  lemma GroupingMatters()
    ensures var a, b := Value(4, 1, 0, 0.0, View(0, [1], false)), Value(4, 1, 0, 0.0, View(600, [1], false));
            var c := Value(0, 1, 0, 0.0, View(0, [1], false));
            && a.Valid() && b.Valid() && c.Valid() && !MergeValue(a, MergeValue(b, c)).view.collapsed
            && MergeValue(MergeValue(a, b), c) != MergeValue(a, MergeValue(b, c))
  {
    hide MergeView, DownscaleView, Canonical, AlignedView, Fits, MergeValue, View.Valid, Cells, Together, ShiftAll;
    var v, w := View(0, [1], false), View(600, [1], false);
    var a, b, c := Value(4, 1, 0, 0.0, v), Value(4, 1, 0, 0.0, w), Value(0, 1, 0, 0.0, v);
    OneCell(0);
    OneCell(600);
    TwoApart(a, b);
    CoarsestLast(a, b, c);
    CoarsenedThenMerged(a, b, 0);
    ThreeNear();
    WithThird([Obs(0, 1), Obs(37, 1)], false, v);
    PairMatters(a, b, v, 0);
  }

  lemma OneCell(i: int)
    ensures var v := View(i, [1], false);
            v.Valid() && Cells(v, |v.cells|) == [Obs(i, 1)] && Stored(v) == 1 && Ranked(Value(0, 1, 0, 0.0, v)) == 1
  {
    var v := View(i, [1], false);
    assert Cells(v, 1) == Cells(v, 0) + [Obs(i + 1 - 1, 1)];
    assert Total(v.cells, 1) == Total(v.cells, 0) + 1;
  }

  /** The two by themselves do not fit one window. */
  lemma TwoApart(a: Value, b: Value)
    requires a == Value(4, 1, 0, 0.0, View(0, [1], false)) && b == Value(4, 1, 0, 0.0, View(600, [1], false))
    ensures Together(a, b) == [Obs(0, 1), Obs(600, 1)] && !Fits(a, b)
  {
    hide DownscaleView;
    OneCell(0);
    OneCell(600);
    AlignedHere(a);
    AlignedHere(b);
    var h := [Obs(0, 1), Obs(600, 1)];
    assert [Obs(0, 1)] + [Obs(600, 1)] == h;
    assert h[..1] == [Obs(0, 1)];
    assert MinIndex(h) == 0 && MaxIndex(h) == 600;
  }

  lemma ThreeNear()
    ensures ShiftAll([Obs(0, 1), Obs(600, 1)], 4) == [Obs(0, 1), Obs(37, 1)]
    ensures Positive([Obs(0, 1), Obs(37, 1)]) && !Canonical([Obs(0, 1), Obs(37, 1)] + [Obs(0, 1)]).collapsed
  {
    var h, g := [Obs(0, 1), Obs(600, 1)], [Obs(0, 1), Obs(37, 1), Obs(0, 1)];
    assert h[..1] == [Obs(0, 1)] && h[..1][..0] == [];
    assert Pow2(4) == 2 * Pow2(3) == 4 * Pow2(2) == 8 * Pow2(1) == 16 * Pow2(0) == 16;
    assert [Obs(0, 1), Obs(37, 1)] + [Obs(0, 1)] == g;
    assert g[..2] == [Obs(0, 1), Obs(37, 1)] && g[..2][..1] == [Obs(0, 1)];
    assert MinIndex(g) == 0 && MaxIndex(g) == 37;
  }

  // ---------------------------------------------------------------------------------------
  // An empty sketch between two others.

  lemma DownscaleKeepsFlag(v: View, s: nat, c: bool)
    ensures DownscaleView(v.Flag(c), s) == DownscaleView(v, s).Flag(c)
  {
    CellsFlag(v.Flag(c), v, |v.cells|);
  }

  /** A middle sketch that counted nothing is passed over when folded into the first, and coarsens
      and flags the last when the last is folded into it. */
  lemma MergeAroundEmptyExactly(a: Value, b: Value, c: Value)
    requires a.Valid() && b.Valid() && c.Valid() && b.count == 0 && c.count > 0
    ensures var l, r := MergeValue(MergeValue(a, b), c), MergeValue(a, MergeValue(b, c));
            l == r
            <==> (a.scale <= b.scale || c.scale <= b.scale) && b.sum == 0.0 && (b.view.collapsed ==> l.view.collapsed)
  {
    hide DownscaleView, MergeView, AlignedView;
    var p := if a.scale < c.scale then a.scale else c.scale;
    var q := if b.scale < c.scale then b.scale else c.scale;
    var m := if a.scale < q then a.scale else q;
    var flag := b.view.collapsed;
    IntoEmpty(b, c, q);
    var bc := MergeValue(b, c);
    CoarsenedValid(bc, q);
    MergeIsAligned(a, c, p);
    MergeIsAligned(a, bc, m);
    if p == m {
      FlaggedTwice(bc, c, m, flag);
      MergeFlagged(AlignedView(a, m), AlignedView(c, m), flag);
    }
  }

  lemma IntoEmpty(b: Value, c: Value, q: nat)
    requires b.Valid() && c.Valid() && b.count == 0 && c.count > 0 && q == if b.scale < c.scale then b.scale else c.scale
    ensures MergeValue(b, c) == Value(q, c.count, c.zeroCount, b.sum + c.sum, AlignedView(c, q).Flag(b.view.collapsed))
    ensures MergeValue(b, c).view.Valid()
  {
    hide MergeView;
    NothingCounted(b);
    MergeIsAligned(b, c, q);
    AlignedValid(c, q);
    assert AlignedView(b, q) == b.view;
    MergeIntoNothing(b.view, AlignedView(c, q));
  }

  lemma FlaggedTwice(bc: Value, c: Value, m: nat, flag: bool)
    requires c.Valid() && m <= bc.scale <= c.scale && bc.view == AlignedView(c, bc.scale).Flag(flag)
    ensures AlignedView(bc, m) == AlignedView(c, m).Flag(flag)
  {
    DownscaleKeepsFlag(AlignedView(c, bc.scale), bc.scale - m, flag);
    DownscaleTwice(c.view, c.scale - bc.scale, bc.scale - m);
  }
}
