/**
 A whole sketch as a value: the totals, the scale and the bin window, with the operations of
 the sketch stated on values, and the two promises the sketch makes to its readers. A merge
 does not depend on order or grouping, and a quantile is within the advertised relative error
 of the sample element at its rank.

 Sums are reals, so the order of float additions is not part of this model.
 */
module SketchValues {
  import opened SketchSpec
  import opened Mapping

  datatype Value = Value(scale: nat, count: nat, zeroCount: nat, sum: real, view: View) {
    predicate Valid() { view.Valid() && Ranked(this) <= count }
  }

  // ---------------------------------------------------------------------------------------
  // Scale alignment and merge.

  function DownscaleValue(v: Value, target: nat): Value {
    if target >= v.scale then v
    else v.(scale := target, view := DownscaleView(v.view, v.scale - target))
  }

  /** other folded into v: nothing happens for an empty other; otherwise the finer of the two is
      first converted to the coarser scale. */
  function MergeValue(v: Value, other: Value): Value {
    if other.count == 0 then v
    else
      var a, b := DownscaleValue(v, other.scale), DownscaleValue(other, v.scale);
      Value(a.scale, a.count + b.count, a.zeroCount + b.zeroCount, a.sum + b.sum, MergeView(a.view, b.view))
  }

  /** A downscaled window is the window of its own cells, shifted: for any valid window. */
  lemma DownscaleOfCells(v: View, s: nat)
    requires v.Valid()
    ensures Positive(Cells(v, |v.cells|)) && Positive(ShiftAll(Cells(v, |v.cells|), s))
    ensures DownscaleView(v, s) == Canonical(ShiftAll(Cells(v, |v.cells|), s)).Flag(v.collapsed)
    ensures DownscaleView(v, s).Valid()
  {
    var h := Cells(v, |v.cells|);
    CellsDetermine(v);
    if v.cells == [] {
      assert ShiftAll(h, s) == [];
    } else {
      CellsEnds(v);
      ShiftAllIndexes(h, s);
      DownscaleIsExact(h, s);
      DownscaleFlag(v, Canonical(h), s);
      CanonicalValid(ShiftAll(h, s));
    }
  }

  lemma DownscaleFlag(v: View, w: View, s: nat)
    requires v == w.Flag(v.collapsed) && !w.collapsed
    ensures DownscaleView(v, s) == DownscaleView(w, s).Flag(v.collapsed)
  {
    CellsFlag(v, w, |v.cells|);
  }

  lemma {:induction false} CellsFlag(v: View, w: View, n: nat)
    requires v.lo == w.lo && v.cells == w.cells && n <= |v.cells|
    ensures Cells(v, n) == Cells(w, n)
  {
    if n > 0 { CellsFlag(v, w, n - 1); }
  }

  /** Two sketches that both hold observations merge to the same value either way round, at
      equal or different scales, collapsed or saturated or not. */
  lemma MergeValueCommutes(a: Value, b: Value)
    requires a.Valid() && b.Valid() && a.count > 0 && b.count > 0
    ensures MergeValue(a, b) == MergeValue(b, a)
  {
    hide MergeView, DownscaleView, Cells;
    DownscaleOfCells(a.view, if b.scale < a.scale then a.scale - b.scale else 0);
    DownscaleOfCells(b.view, if a.scale < b.scale then b.scale - a.scale else 0);
    MergeCommutes(DownscaleValue(a, b.scale).view, DownscaleValue(b, a.scale).view);
  }

  /** An empty sketch at a coarser scale does not commute: folding the finer sketch into it
      coarsens the result, folding it into the finer sketch is a no-op. */
  lemma EmptyCoarserDoesNotCommute()
    ensures var empty, one := Value(0, 0, 0, 0.0, EMPTY), Value(4, 1, 1, 0.0, EMPTY);
            empty.Valid() && one.Valid() && MergeValue(empty, one) != MergeValue(one, empty)
  {
  }

  lemma MergeIntoEmpty(b: View)
    requires b.Valid()
    ensures MergeView(EMPTY, b) == b
  {
    CellsDetermine(b);
    RunFlag(EMPTY, Cells(b, |b.cells|), b.collapsed);
    ObservationsGiveCanonical(Cells(b, |b.cells|));
  }

  /** With a sketch that counted nothing on one side, whether fresh or decoded, order is immaterial
      exactly when the empty sketch is not coarser than the other and carries neither an amount nor
      a flag that the other lacks. */
  lemma MergeWithEmpty(empty: Value, b: Value)
    requires empty.Valid() && empty.count == 0 && b.Valid() && b.count > 0
    ensures MergeValue(empty, b) == MergeValue(b, empty)
       <==> empty.scale >= b.scale && empty.sum == 0.0 && (empty.view.collapsed ==> b.view.collapsed)
  {
    hide MergeView;
    NothingCounted(empty);
    assert DownscaleValue(empty, b.scale).view == empty.view;
    if empty.scale >= b.scale { MergeIntoNothing(empty.view, b.view); }
  }

  /** A sketch that counted nothing has no bins. */
  lemma NothingCounted(v: Value)
    requires v.Valid() && v.count == 0
    ensures v.zeroCount == 0 && v.view == View(0, [], v.view.collapsed)
  {
    SomethingHeld(v.view);
  }

  lemma SomethingHeld(v: View)
    requires v.Valid()
    ensures v.cells != [] ==> Total(v.cells, |v.cells|) > 0
  {
    if v.cells != [] { assert Total(v.cells, |v.cells|) == Total(v.cells, |v.cells| - 1) + v.cells[|v.cells| - 1]; }
  }

  lemma MergeIntoNothing(e: View, b: View)
    requires b.Valid() && e == View(0, [], e.collapsed)
    ensures MergeView(e, b) == b.Flag(e.collapsed)
  {
    MergeIntoEmpty(b);
    RunFlag(EMPTY.Flag(b.collapsed), Cells(b, |b.cells|), e.collapsed);
    assert e.Flag(b.collapsed) == EMPTY.Flag(b.collapsed).Flag(e.collapsed);
  }

  /** Folding three sketches of one scale together does not depend on the grouping, unless the middle
      one counted nothing and carries an amount or a flag: it is then passed over under one
      grouping only. */
  lemma MergeValueAssociates(a: Value, b: Value, c: Value)
    requires a.Valid() && b.Valid() && c.Valid() && a.scale == b.scale == c.scale
    ensures MergeValue(MergeValue(a, b), c) == MergeValue(a, MergeValue(b, c))
       <==> (b.count == 0 && c.count > 0 ==>
               b.sum == 0.0 && (b.view.collapsed ==> MergeView(a.view, c.view).collapsed))
  {
    hide MergeView;
    if c.count > 0 {
      if b.count > 0 {
        MergeAssociates(a.view, b.view, c.view);
      } else {
        NothingCounted(b);
        MergeIntoNothing(b.view, c.view);
        MergeFlagged(a.view, c.view, b.view.collapsed);
      }
    }
  }

  lemma MergeFlagged(a: View, b: View, c: bool)
    ensures MergeView(a, b.Flag(c)) == MergeView(a, b).Flag(c)
  {
    MergeFlags(a, b, false, c);
    assert a.Flag(false) == a;
  }

  /** Downscaling before or after a merge is the same, as long as the merged window still
      covers every cell it was given. */
  lemma MergeThenDownscale(a: View, b: View, s: nat)
    requires a.Valid() && b.Valid()
    requires !Canonical(Cells(a, |a.cells|) + Cells(b, |b.cells|)).collapsed
    ensures DownscaleView(MergeView(a, b), s) == MergeView(DownscaleView(a, s), DownscaleView(b, s))
  {
    var g, h := Cells(a, |a.cells|), Cells(b, |b.cells|);
    var c := a.collapsed || b.collapsed;
    MergeIsUnion(a, b);
    DownscaleOfCells(a, s);
    DownscaleOfCells(b, s);
    DownscaleIsExact(g + h, s);
    DownscaleFlag(MergeView(a, b), Canonical(g + h), s);
    ShiftAllConcat(g, h, s);
    MergeOfHistories(ShiftAll(g, s), ShiftAll(h, s));
    MergeFlags(Canonical(ShiftAll(g, s)), Canonical(ShiftAll(h, s)), a.collapsed, b.collapsed);
  }

  lemma {:induction false} ShiftAllConcat(g: seq<Obs>, h: seq<Obs>, s: nat)
    ensures ShiftAll(g + h, s) == ShiftAll(g, s) + ShiftAll(h, s)
  {
    if h == [] {
      assert g + h == g;
    } else {
      assert (g + h)[..|g + h| - 1] == g + h[..|h| - 1];
      ShiftAllConcat(g, h[..|h| - 1], s);
    }
  }

  lemma MergeFlags(a: View, b: View, c: bool, d: bool)
    ensures MergeView(a.Flag(c), b.Flag(d)) == MergeView(a, b).Flag(c || d)
  {
    CellsFlag(b.Flag(d), b, |b.cells|);
    RunFlag(a.Flag(b.collapsed), Cells(b, |b.cells|), c || d);
    assert a.Flag(c).Flag(b.Flag(d).collapsed) == a.Flag(b.collapsed).Flag(c || d);
  }

  // ---------------------------------------------------------------------------------------
  // Observing a sample.

  /** One more observed value: at or below zero it goes to the zero bucket. */
  ghost function ObserveValue(v: Value, gamma: real, x: real): Value
    requires gamma > 1.0
  {
    if x <= 0.0 then v.(count := v.count + 1, sum := v.sum + x, zeroCount := v.zeroCount + 1)
    else v.(count := v.count + 1, sum := v.sum + x, view := AddView(v.view, Index(gamma, x), 1))
  }

  ghost function ObserveAll(scale: nat, gamma: real, xs: seq<real>): Value
    requires gamma > 1.0
  {
    if xs == [] then Value(scale, 0, 0, 0.0, EMPTY)
    else ObserveValue(ObserveAll(scale, gamma, xs[..|xs| - 1]), gamma, xs[|xs| - 1])
  }

  function Zeros(xs: seq<real>): nat {
    if xs == [] then 0 else Zeros(xs[..|xs| - 1]) + if xs[|xs| - 1] <= 0.0 then 1 else 0
  }

  /** The buckets of the positive members of a sample. */
  ghost function Buckets(gamma: real, xs: seq<real>): seq<Obs>
    requires gamma > 1.0
  {
    if xs == [] then []
    else if xs[|xs| - 1] <= 0.0 then Buckets(gamma, xs[..|xs| - 1])
    else Buckets(gamma, xs[..|xs| - 1]) + [Obs(Index(gamma, xs[|xs| - 1]), 1)]
  }

  lemma {:induction false} ObserveAllIs(scale: nat, gamma: real, xs: seq<real>)
    requires gamma > 1.0
    ensures Positive(Buckets(gamma, xs))
    ensures var v := ObserveAll(scale, gamma, xs);
            && v.scale == scale && v.count == |xs| && v.zeroCount == Zeros(xs)
            && v.view == Canonical(Buckets(gamma, xs))
    ensures Zeros(xs) + |Buckets(gamma, xs)| == |xs|
  {
    if xs != [] {
      var ys, x := xs[..|xs| - 1], xs[|xs| - 1];
      ObserveAllIs(scale, gamma, ys);
      if x > 0.0 {
        AddKeepsCanonical(Buckets(gamma, ys), Obs(Index(gamma, x), 1));
      }
    }
  }

  lemma BucketsAppend(gamma: real, xs: seq<real>, x: real)
    requires gamma > 1.0
    ensures Buckets(gamma, xs + [x])
         == if x <= 0.0 then Buckets(gamma, xs) else Buckets(gamma, xs) + [Obs(Index(gamma, x), 1)]
    ensures Zeros(xs + [x]) == Zeros(xs) + if x <= 0.0 then 1 else 0
  {
    assert (xs + [x])[..|xs|] == xs;
  }

  lemma {:induction false} BucketsConcat(gamma: real, xs: seq<real>, ys: seq<real>)
    requires gamma > 1.0
    ensures Buckets(gamma, xs + ys) == Buckets(gamma, xs) + Buckets(gamma, ys)
    ensures Zeros(xs + ys) == Zeros(xs) + Zeros(ys)
  {
    if ys == [] {
      assert xs + ys == xs;
    } else {
      assert (xs + ys)[..|xs + ys| - 1] == xs + ys[..|ys| - 1];
      BucketsConcat(gamma, xs, ys[..|ys| - 1]);
    }
  }

  lemma {:induction false} BucketsPermute(gamma: real, xs: seq<real>, ys: seq<real>)
    requires gamma > 1.0 && multiset(xs) == multiset(ys)
    ensures multiset(Buckets(gamma, xs)) == multiset(Buckets(gamma, ys)) && Zeros(xs) == Zeros(ys)
    decreases |xs|
  {
    if xs == [] {
      assert |multiset(ys)| == 0;
    } else {
      var x, xs' := xs[|xs| - 1], xs[..|xs| - 1];
      assert xs == xs' + [x];
      assert x in multiset(ys);
      var j :| 0 <= j < |ys| && ys[j] == x;
      var a, b := ys[..j], ys[j + 1..];
      assert ys == a + [x] + b;
      RemoveOne(xs', a, b, x);
      BucketsPermute(gamma, xs', a + b);
      BucketsInsert(gamma, xs', a, b, x);
    }
  }

  lemma RemoveOne(xs: seq<real>, a: seq<real>, b: seq<real>, x: real)
    requires multiset(xs + [x]) == multiset(a + [x] + b)
    ensures multiset(xs) == multiset(a + b)
  {
    assert multiset(xs) == multiset(xs + [x]) - multiset{x};
    assert multiset(a + b) == multiset(a + [x] + b) - multiset{x};
  }

  lemma BucketsInsert(gamma: real, xs: seq<real>, a: seq<real>, b: seq<real>, x: real)
    requires gamma > 1.0
    requires multiset(Buckets(gamma, xs)) == multiset(Buckets(gamma, a + b)) && Zeros(xs) == Zeros(a + b)
    ensures multiset(Buckets(gamma, xs + [x])) == multiset(Buckets(gamma, a + [x] + b))
    ensures Zeros(xs + [x]) == Zeros(a + [x] + b)
  {
    hide Buckets, Zeros;
    BucketsAppend(gamma, xs, x);
    BucketsAppend(gamma, a, x);
    BucketsConcat(gamma, a, b);
    BucketsConcat(gamma, a + [x], b);
  }

  // ---------------------------------------------------------------------------------------
  // Quantiles.

  /** How many observations a sketch can rank: those not lost to saturation. */
  function Ranked(v: Value): nat { v.zeroCount + Total(v.view.cells, |v.view.cells|) }

  /** The rank of a quantile among n observations, counted from zero. */
  function Rank(q: real, n: nat): real
    requires n > 0
  {
    q * (n - 1) as real
  }

  /** What Quantile answers: zero for an empty sketch, otherwise what is found at rank q*(n-1). */
  ghost predicate IsQuantile(v: Value, gamma: real, q: real, out: real)
    requires gamma > 1.0
  {
    if Ranked(v) == 0 then out == 0.0 else Answers(v, gamma, Rank(q, Ranked(v)), out)
  }

  /** Zero for a rank inside the zero bucket, otherwise the representative of the bucket whose
      cumulative count first exceeds the rank. */
  ghost predicate Answers(v: Value, gamma: real, rank: real, out: real)
    requires gamma > 1.0
  {
    if v.zeroCount as real > rank then out == 0.0
    else exists k :: AtRank(v, rank, k) && out == Representative(gamma, k)
  }

  ghost predicate AtRank(v: Value, rank: real, k: int) {
    && v.view.lo <= k <= v.view.Hi()
    && (v.zeroCount + v.view.UpTo(k - 1)) as real <= rank < (v.zeroCount + v.view.UpTo(k)) as real
  }

  lemma {:induction false} UpToMonotone(v: View, a: int, b: int)
    requires a <= b
    ensures v.UpTo(a) <= v.UpTo(b)
    decreases b - a
  {
    if a < b {
      UpToStep(v, b);
      UpToMonotone(v, a, b - 1);
    }
  }

  lemma RankBound(q: real, n: nat)
    requires 0.0 <= q <= 1.0 && n > 0
    ensures 0.0 <= Rank(q, n) <= (n - 1) as real
  {
    ScaleOrder(0.0, q, (n - 1) as real);
    ScaleOrder(q, 1.0, (n - 1) as real);
  }

  lemma RankOrder(q: real, r: real, n: nat)
    requires q <= r && n > 0
    ensures Rank(q, n) <= Rank(r, n)
  {
    ScaleOrder(q, r, (n - 1) as real);
  }

  lemma ScaleOrder(q: real, r: real, m: real)
    requires q <= r && m >= 0.0
    ensures q * m <= r * m
  {
    assert (r - q) * m >= 0.0;
  }

  /** A higher q never gives a lower answer, collapsed or saturated or not. */
  lemma QuantileMonotone(v: Value, gamma: real, q: real, r: real, x: real, y: real)
    requires gamma > 1.0 && 0.0 <= q <= r <= 1.0
    requires IsQuantile(v, gamma, q, x) && IsQuantile(v, gamma, r, y)
    ensures x <= y
  {
    if Ranked(v) > 0 {
      hide Ranked, Answers, Rank;
      RankOrder(q, r, Ranked(v));
      AnswersMonotone(v, gamma, Rank(q, Ranked(v)), Rank(r, Ranked(v)), x, y);
    }
  }

  lemma AnswersMonotone(v: Value, gamma: real, a: real, b: real, x: real, y: real)
    requires gamma > 1.0 && a <= b && Answers(v, gamma, a, x) && Answers(v, gamma, b, y)
    ensures x <= y
  {
    hide View.UpTo, Representative;
    if v.zeroCount as real <= b {
      var j :| AtRank(v, b, j) && y == Representative(gamma, j);
      RepresentativeMonotone(gamma, j, j);
      if v.zeroCount as real <= a {
        var i :| AtRank(v, a, i) && x == Representative(gamma, i);
        RanksOrdered(v, a, b, i, j);
        RepresentativeMonotone(gamma, i, j);
      }
    }
  }

  lemma RanksOrdered(v: Value, a: real, b: real, i: int, j: int)
    requires a <= b && AtRank(v, a, i) && AtRank(v, b, j)
    ensures i <= j
  {
    hide View.UpTo;
    if j < i { UpToMonotone(v.view, j, i - 1); }
  }

  /** A bucket at a rank is a bucket at the rank rounded down. */
  lemma RankFloor(v: Value, rank: real, k: int)
    requires AtRank(v, rank, k)
    ensures v.zeroCount + v.view.UpTo(k - 1) <= rank.Floor < v.zeroCount + v.view.UpTo(k)
  {
    hide View.UpTo;
    var x, y: int := v.zeroCount + v.view.UpTo(k - 1), v.zeroCount + v.view.UpTo(k);
    assert x as real <= rank < y as real;
  }

  predicate Sorted(xs: seq<real>) { forall i, j :: 0 <= i < j < |xs| ==> xs[i] <= xs[j] }

  ghost predicate AtMost(gamma: real, x: real, k: int)
    requires gamma > 1.0
  {
    x <= 0.0 || Index(gamma, x) <= k
  }

  /** In a sorted sample the members at or below a bucket are a prefix, and the bucket counts
      say how long it is. */
  lemma {:induction false} SortedPrefix(gamma: real, xs: seq<real>, k: int)
    requires gamma > 1.0 && Sorted(xs)
    ensures Zeros(xs) + CountUpTo(Buckets(gamma, xs), k) <= |xs|
    ensures forall j :: 0 <= j < |xs| ==>
              (AtMost(gamma, xs[j], k) <==> j < Zeros(xs) + CountUpTo(Buckets(gamma, xs), k))
  {
    if xs != [] {
      var ys, x := xs[..|xs| - 1], xs[|xs| - 1];
      SortedPrefix(gamma, ys, k);
      PrefixStep(gamma, ys, x, k);
      assert xs == ys + [x];
    }
  }

  lemma PrefixStep(gamma: real, ys: seq<real>, x: real, k: int)
    requires gamma > 1.0 && Sorted(ys + [x])
    requires Zeros(ys) + CountUpTo(Buckets(gamma, ys), k) <= |ys|
    requires forall j :: 0 <= j < |ys| ==>
               (AtMost(gamma, ys[j], k) <==> j < Zeros(ys) + CountUpTo(Buckets(gamma, ys), k))
    ensures Zeros(ys + [x]) + CountUpTo(Buckets(gamma, ys + [x]), k) <= |ys| + 1
    ensures forall j :: 0 <= j < |ys| + 1 ==>
              (AtMost(gamma, (ys + [x])[j], k)
               <==> j < Zeros(ys + [x]) + CountUpTo(Buckets(gamma, ys + [x]), k))
  {
    hide Buckets, Zeros, CountUpTo, Index;
    var xs := ys + [x];
    BucketsAppend(gamma, ys, x);
    if x > 0.0 {
      CountAppend(Buckets(gamma, ys), Obs(Index(gamma, x), 1), k);
    }
    if AtMost(gamma, x, k) && ys != [] {
      var y := ys[|ys| - 1];
      assert y == xs[|ys| - 1] && x == xs[|ys|];
      if y > 0.0 { IndexMonotone(gamma, y, x, Index(gamma, y), Index(gamma, x)); }
      assert AtMost(gamma, y, k);
    }
  }

  lemma {:induction false} SortedZeros(xs: seq<real>, j: nat)
    requires Sorted(xs) && j < |xs|
    ensures Zeros(xs) <= |xs|
    ensures xs[j] <= 0.0 <==> j < Zeros(xs)
  {
    var ys := xs[..|xs| - 1];
    if ys != [] {
      SortedZeros(ys, if j < |ys| then j else |ys| - 1);
      assert ys[|ys| - 1] <= xs[|xs| - 1];
    }
  }

  /** An uncollapsed window that retained every observation counts exactly. */
  lemma ExactUpTo(h: seq<Obs>, k: int)
    requires Positive(h) && !Canonical(h).collapsed
    requires Total(Canonical(h).cells, |Canonical(h).cells|) == CountAll(h)
    ensures Canonical(h).UpTo(k) == CountUpTo(h, k)
  {
    var v := Canonical(h);
    if h != [] {
      CanonicalShape(h);
      IndexBounds(h);
      CountAllIs(h, v.Hi());
      if k < v.lo {
        UpToStep(v, k);
        NothingBelow(h, k);
      } else if k > v.Hi() {
        CountAllIs(h, k);
      } else {
        ExactFrom(h, k);
      }
    }
  }

  function CountAll(h: seq<Obs>): nat {
    if h == [] then 0 else CountAll(h[..|h| - 1]) + h[|h| - 1].n
  }

  lemma {:induction false} CountAllIs(h: seq<Obs>, k: int)
    requires forall j :: 0 <= j < |h| ==> h[j].index <= k
    ensures CountUpTo(h, k) == CountAll(h)
  {
    if h != [] { CountAllIs(h[..|h| - 1], k); }
  }

  /** Clamping can only lose counts, so if nothing was lost by the top, nothing was lost below. */
  lemma {:induction false} ExactFrom(h: seq<Obs>, k: int)
    requires h != [] && Positive(h) && Floor(h) == MinIndex(h) <= k <= MaxIndex(h)
    requires Canonical(h).UpTo(MaxIndex(h)) == CountUpTo(h, MaxIndex(h))
    ensures Canonical(h).UpTo(k) == CountUpTo(h, k)
    decreases MaxIndex(h) - k
  {
    if k < MaxIndex(h) {
      ExactFrom(h, k + 1);
      UpToStep(Canonical(h), k + 1);
      CountOutside(h, k + 1);
      CellIsCount(h, k + 1);
      UpToAtMost(h, k);
    }
  }

  lemma {:induction false} UpToAtMost(h: seq<Obs>, k: int)
    requires h != [] && Positive(h) && Floor(h) == MinIndex(h) && MinIndex(h) - 1 <= k <= MaxIndex(h)
    ensures Canonical(h).UpTo(k) <= CountUpTo(h, k)
    decreases k - MinIndex(h)
  {
    UpToStep(Canonical(h), k);
    CountOutside(h, k);
    if k >= MinIndex(h) {
      UpToAtMost(h, k - 1);
      CellIsCount(h, k);
    }
  }

  lemma {:induction false} UnitCounts(gamma: real, xs: seq<real>)
    requires gamma > 1.0
    ensures CountAll(Buckets(gamma, xs)) == |Buckets(gamma, xs)|
  {
    if xs != [] {
      UnitCounts(gamma, xs[..|xs| - 1]);
      var g := Buckets(gamma, xs[..|xs| - 1]);
      if xs[|xs| - 1] > 0.0 {
        var o := Obs(Index(gamma, xs[|xs| - 1]), 1);
        assert (g + [o])[..|g|] == g;
      }
    }
  }

  /** The advertised accuracy. Let a sample of non-negative values be observed in any order by a
      sketch that neither collapsed nor lost a count to saturation. Then every answer for q is
      within the relative error of the sample element at rank floor(q*(n-1)), and it is exactly
      zero when that element is. */
  lemma QuantileWithinError(scale: nat, gamma: real, observed: seq<real>, sorted: seq<real>, q: real, out: real)
    requires gamma > 1.0 && 0.0 <= q <= 1.0 && sorted != []
    requires Sorted(sorted) && multiset(sorted) == multiset(observed)
    requires forall j :: 0 <= j < |sorted| ==> sorted[j] >= 0.0
    requires var v := ObserveAll(scale, gamma, observed);
             !v.view.collapsed && Ranked(v) == v.count && IsQuantile(v, gamma, q, out)
    ensures 0 <= Rank(q, |sorted|).Floor < |sorted|
    ensures var x := sorted[Rank(q, |sorted|).Floor];
            if x == 0.0 then out == 0.0 else Abs(out - x) <= Product(RelativeError(gamma), x)
  {
    hide ObserveAll, Canonical, Product, RelativeError, Rank, Answers, Ranked;
    assert |observed| == |sorted| by { assert |multiset(observed)| == |multiset(sorted)|; }
    RankBound(q, |sorted|);
    ObserveAllIs(scale, gamma, observed);
    AnswerWithinError(scale, gamma, observed, sorted, Rank(q, |sorted|), out);
  }

  lemma AnswerWithinError(scale: nat, gamma: real, observed: seq<real>, sorted: seq<real>, rank: real, out: real)
    requires gamma > 1.0 && Sorted(sorted) && multiset(sorted) == multiset(observed)
    requires 0.0 <= rank && rank.Floor < |sorted| && sorted[rank.Floor] >= 0.0
    requires var v := ObserveAll(scale, gamma, observed);
             !v.view.collapsed && Ranked(v) == v.count && Answers(v, gamma, rank, out)
    ensures var x := sorted[rank.Floor];
            if x == 0.0 then out == 0.0 else Abs(out - x) <= Product(RelativeError(gamma), x)
  {
    hide ObserveAll, Buckets, Zeros, Canonical, CountUpTo, CountAll, View.UpTo, Total, Representative, Product,
         RelativeError;
    var v := ObserveAll(scale, gamma, observed);
    var h := Buckets(gamma, observed);
    var r := rank.Floor;
    ObserveAllIs(scale, gamma, observed);
    BucketsPermute(gamma, sorted, observed);
    SortedZeros(sorted, r);
    if v.zeroCount as real <= rank {
      var k :| AtRank(v, rank, k) && out == Representative(gamma, k);
      UnitCounts(gamma, observed);
      ExactUpTo(h, k);
      ExactUpTo(h, k - 1);
      RankFloor(v, rank, k);
      ElementAtRank(gamma, observed, sorted, r, k);
      RepresentativeError(gamma, sorted[r], k);
    }
  }

  /** The bucket whose cumulative counts straddle r is the bucket of the r-th smallest member. */
  lemma ElementAtRank(gamma: real, observed: seq<real>, sorted: seq<real>, r: nat, k: int)
    requires gamma > 1.0 && Sorted(sorted) && multiset(sorted) == multiset(observed) && r < |sorted|
    requires Zeros(observed) + CountUpTo(Buckets(gamma, observed), k - 1) <= r
    requires r < Zeros(observed) + CountUpTo(Buckets(gamma, observed), k)
    ensures sorted[r] > 0.0 && IsIndex(gamma, sorted[r], k)
  {
    hide Buckets, Zeros, CountUpTo;
    var g, h := Buckets(gamma, sorted), Buckets(gamma, observed);
    BucketsPermute(gamma, sorted, observed);
    CountPermute(g, h, k);
    CountPermute(g, h, k - 1);
    SortedPrefix(gamma, sorted, k);
    SortedPrefix(gamma, sorted, k - 1);
    assert AtMost(gamma, sorted[r], k) && !AtMost(gamma, sorted[r], k - 1);
  }
}
