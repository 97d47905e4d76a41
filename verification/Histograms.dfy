/**
 Folding histogram points into sketches: an exponential point's buckets transfer exactly, a
 point with explicit bounds is placed at bucket midpoints with its unbounded tail kept apart,
 and a quantile over both parts answers the rank of the whole.

 Amounts are reals and finite. The estimate a folded sketch keeps of its own sum is not part of
 this model. The square root and the bucket mapping are parameters of the explicit fold.
 */
module Histograms {
  import opened Int32
  import opened Options
  import opened Mapping
  import opened SketchSpec
  import opened SketchValues

  const MIN_SCALE: int := -10
  const MAX_SCALE: int := 20
  const MAX_BUCKETS: nat := 65536
  const TWO_64: nat := 0x1_0000_0000_0000_0000

  /** Why a point has no percentiles; None is no reason. */
  datatype Reason = NoReason | NegativeObservations | ScaleOutOfRange | NoFiniteBoundaries

  datatype Scalars = Scalars(count: nat, sum: real, min: Option<real>, max: Option<real>)

  datatype Side = Side(offset: int, counts: seq<nat>)

  datatype ExpPoint = ExpPoint(scalars: Scalars, scale: int, zeroCount: nat, positive: Side, negative: Side)

  /** A folded sketch without its sum. */
  datatype Bins = Bins(scale: nat, count: nat, zeroCount: nat, view: View)

  datatype Fold = Fold(scalars: Scalars, bins: Option<Bins>, reason: Reason, sourceError: real, tailBound: Option<real>, tailCount: nat)

  // ---------------------------------------------------------------------------------------
  // Validation.

  function Sum(counts: seq<nat>): nat { if counts == [] then 0 else Sum(counts[..|counts| - 1]) + counts[|counts| - 1] }

  predicate BadScalars(s: Scalars) { s.min.Some? && s.max.Some? && s.min.value > s.max.value }

  predicate BadSide(b: Side) { |b.counts| > MAX_BUCKETS || b.offset + |b.counts| > MAX_INT32 || Sum(b.counts) >= TWO_64 }

  /** The total is added up in 64 bits, and an overflow is noticed when it ends below the positive
      total. */
  predicate BadTotal(p: ExpPoint) {
    var observed := (p.zeroCount + Sum(p.positive.counts) + Sum(p.negative.counts)) % TWO_64;
    observed < Sum(p.positive.counts) || p.scalars.count != observed
  }

  predicate Malformed(p: ExpPoint) {
    BadScalars(p.scalars) || p.scale < MIN_SCALE || p.scale > MAX_SCALE || BadSide(p.positive) || BadSide(p.negative) || BadTotal(p)
  }

  /** The total as it overflows unnoticed: the part outside the positive buckets overflows by itself,
      and the whole overflows only once. */
  predicate Unnoticed(p: ExpPoint) {
    && p.zeroCount + Sum(p.negative.counts) >= TWO_64
    && p.zeroCount + Sum(p.positive.counts) + Sum(p.negative.counts) < 2 * TWO_64
  }

  /** The check accepts exactly the bucket total and, when that overflows unnoticed, what is left of
      it in 64 bits. So a total that does not fit is accepted under some count exactly when it
      overflows unnoticed. */
  lemma TotalIsCheckedExactly(p: ExpPoint)
    requires p.zeroCount < TWO_64 && p.scalars.count < TWO_64 && !BadSide(p.positive) && !BadSide(p.negative)
    ensures
      var total := p.zeroCount + Sum(p.positive.counts) + Sum(p.negative.counts);
      && (!BadTotal(p) <==> p.scalars.count == total || (Unnoticed(p) && p.scalars.count == total - TWO_64))
      && (total >= TWO_64 ==> ((exists n: nat :: n < TWO_64 && !BadTotal(Claiming(p, n))) <==> Unnoticed(p)))
  {
    var total := p.zeroCount + Sum(p.positive.counts) + Sum(p.negative.counts);
    CheckedExactly(p);
    if total >= TWO_64 {
      forall n: nat | n < TWO_64 ensures !BadTotal(Claiming(p, n)) <==> Unnoticed(p) && n == total - TWO_64 {
        CheckedExactly(Claiming(p, n));
      }
      if Unnoticed(p) {
        var left: nat := total - TWO_64;
        assert !BadTotal(Claiming(p, left));
      }
    }
  }

  /** The point with another count. */
  function Claiming(p: ExpPoint, n: nat): ExpPoint { p.(scalars := p.scalars.(count := n)) }

  lemma CheckedExactly(p: ExpPoint)
    requires p.zeroCount < TWO_64 && p.scalars.count < TWO_64 && !BadSide(p.positive) && !BadSide(p.negative)
    ensures
      var total := p.zeroCount + Sum(p.positive.counts) + Sum(p.negative.counts);
      !BadTotal(p) <==> p.scalars.count == total || (Unnoticed(p) && p.scalars.count == total - TWO_64)
  {
    hide Sum;
    var total := p.zeroCount + Sum(p.positive.counts) + Sum(p.negative.counts);
    if total < TWO_64 {
      assert total % TWO_64 == total;
    } else if total < 2 * TWO_64 {
      assert total % TWO_64 == total - TWO_64;
    } else {
      assert total % TWO_64 == total - 2 * TWO_64;
    }
  }

  /** The overflow that gets through: a point that claims to be empty and is not. */
  lemma WrappedTotalIsAccepted()
    ensures
      var half := 0x8000_0000_0000_0000;
      var p := ExpPoint(Scalars(0, 0.0, None, None), 4, half, Side(0, []), Side(0, [half]));
      !Malformed(p)
  {
    var half := 0x8000_0000_0000_0000;
    assert [half][..0] == [];
    assert Sum([half]) == half;
  }

  // ---------------------------------------------------------------------------------------
  // Exponential points.

  function ShiftFor(scale: int): nat { if scale > DEFAULT_SCALE then scale - DEFAULT_SCALE else 0 }

  /** The first n buckets' observations at the sketch's scale. */
  function BucketObs(b: Side, n: nat, s: nat): seq<Obs>
    requires n <= |b.counts|
  {
    if n == 0 then []
    else if b.counts[n - 1] == 0 then BucketObs(b, n - 1, s)
    else BucketObs(b, n - 1, s) + [Obs(Shift(b.offset + n - 1, s), b.counts[n - 1])]
  }

  method FoldExponential(p: ExpPoint) returns (fold: Option<Fold>)
    requires p.scalars.count < TWO_64 && p.zeroCount < TWO_64
    ensures fold.None? <==> Malformed(p)
    ensures fold.Some? ==> fold.value.scalars == p.scalars && fold.value.sourceError == 0.0 && fold.value.tailCount == 0
    ensures fold.Some? && Sum(p.negative.counts) > 0 ==> fold.value.bins.None? && fold.value.reason == NegativeObservations
    ensures fold.Some? && Sum(p.negative.counts) == 0 && p.scale < 0 ==>
      fold.value.bins.None? && fold.value.reason == ScaleOutOfRange
    ensures fold.Some? && Sum(p.negative.counts) == 0 && p.scale >= 0 ==>
      && fold.value.reason == NoReason && fold.value.bins.Some?
      && var b := fold.value.bins.value;
         && b.scale == Min(p.scale, DEFAULT_SCALE) && b.zeroCount == p.zeroCount && b.count == p.scalars.count
         && b.view == Canonical(BucketObs(p.positive, |p.positive.counts|, ShiftFor(p.scale)))
  {
    hide Canonical, Malformed, Sum, BucketObs;
    if Malformed(p) { return None; }
    var neg := AddUp(p.negative.counts);
    if neg > 0 { return Some(Fold(p.scalars, None, NegativeObservations, 0.0, None, 0)); }
    if p.scale < 0 { return Some(Fold(p.scalars, None, ScaleOutOfRange, 0.0, None, 0)); }
    var view, count := PlaceBuckets(p.positive, ShiftFor(p.scale));
    AcceptedTotal(p);
    var scale := if p.scale < DEFAULT_SCALE then p.scale else DEFAULT_SCALE;
    fold := Some(Fold(p.scalars, Some(Bins(scale, count + p.zeroCount, p.zeroCount, view)), NoReason, 0.0, None, 0));
  }

  method PlaceBuckets(b: Side, s: nat) returns (view: View, count: nat)
    ensures view == Canonical(BucketObs(b, |b.counts|, s)) && count == Sum(b.counts)
  {
    hide Canonical, AddView, Shift, Sum;
    view, count := EMPTY, 0;
    NoBuckets();
    SumOfNone(b.counts);
    var i := 0;
    while i < |b.counts|
      invariant 0 <= i <= |b.counts|
      invariant Positive(BucketObs(b, i, s)) && view == Canonical(BucketObs(b, i, s))
      invariant count == Sum(b.counts[..i])
    {
      var c := b.counts[i];
      SumStep(b.counts, i);
      if c != 0 {
        var o := Obs(Shift(b.offset + i, s), c);
        AddKeepsCanonical(BucketObs(b, i, s), o);
        CountAppend(BucketObs(b, i, s), o, 0);
        count, view := count + c, AddView(view, o.index, c);
      }
      i := i + 1;
    }
    assert b.counts[..i] == b.counts;
  }

  lemma SumStep(counts: seq<nat>, n: nat)
    requires n < |counts|
    ensures Sum(counts[..n + 1]) == Sum(counts[..n]) + counts[n]
  {
    assert counts[..n + 1][..n] == counts[..n];
  }

  lemma SumOfNone(counts: seq<nat>)
    ensures Sum(counts[..0]) == 0
  {
  }

  lemma AcceptedTotal(p: ExpPoint)
    requires p.scalars.count < TWO_64 && p.zeroCount < TWO_64 && !Malformed(p) && Sum(p.negative.counts) == 0
    ensures p.scalars.count == p.zeroCount + Sum(p.positive.counts)
  {
    TotalIsCheckedExactly(p);
  }

  lemma NoBuckets()
    ensures Canonical([]) == EMPTY && Positive([])
  {
  }

  method AddUp(counts: seq<nat>) returns (sum: nat)
    ensures sum == Sum(counts)
  {
    sum := 0;
    for i := 0 to |counts|
      invariant sum == Sum(counts[..i])
    {
      assert counts[..i + 1][..i] == counts[..i];
      sum := sum + counts[i];
    }
    assert counts[..|counts|] == counts;
  }

  /** What a point's bucket index holds. */
  function PointCount(b: Side, k: int): nat { if b.offset <= k < b.offset + |b.counts| then b.counts[k - b.offset] else 0 }

  lemma NoShift(i: int)
    ensures Shift(i, 0) == i
  {
  }

  lemma {:induction false} PointCounts(b: Side, n: nat, k: int)
    requires n <= |b.counts|
    ensures CountAt(BucketObs(b, n, 0), k) == if b.offset <= k < b.offset + n then b.counts[k - b.offset] else 0
    ensures Positive(BucketObs(b, n, 0))
  {
    hide Shift, CountAt, CountUpTo;
    if n == 0 {
      NothingAt(k);
    } else {
      PointCounts(b, n - 1, k);
      NoShift(b.offset + n - 1);
      CountAppend(BucketObs(b, n - 1, 0), Obs(b.offset + n - 1, b.counts[n - 1]), k);
    }
  }

  lemma NothingAt(k: int)
    ensures CountAt([], k) == 0
  {
  }

  lemma {:induction false} BucketsShift(b: Side, n: nat, s: nat)
    requires n <= |b.counts|
    ensures BucketObs(b, n, s) == ShiftAll(BucketObs(b, n, 0), s)
  {
    hide Shift;
    if n > 0 {
      BucketsShift(b, n - 1, s);
      NoShift(b.offset + n - 1);
      if b.counts[n - 1] != 0 {
        var g, o := BucketObs(b, n - 1, 0), Obs(b.offset + n - 1, b.counts[n - 1]);
        assert (g + [o])[..|g|] == g;
      }
    }
  }

  /** Two histories with the same bucket populations. */
  ghost predicate SameCounts(g: seq<Obs>, h: seq<Obs>) { forall k :: CountAt(g, k) == CountAt(h, k) }

  lemma {:induction false} SameShiftedBelow(g: seq<Obs>, h: seq<Obs>, s: nat, k: int, lo: int, i: int)
    requires SameCounts(g, h) && lo <= i
    requires forall j :: 0 <= j < |g| ==> lo <= g[j].index
    requires forall j :: 0 <= j < |h| ==> lo <= h[j].index
    ensures CountShifted(Below(g, i), s, k) == CountShifted(Below(h, i), s, k)
    decreases i - lo
  {
    hide CountShifted, Below, CountAt, Shift;
    if i == lo {
      BelowNothing(g, i);
      BelowNothing(h, i);
    } else {
      SameShiftedBelow(g, h, s, k, lo, i - 1);
      BelowStep(g, i, k, s);
      BelowStep(h, i, k, s);
    }
  }

  lemma SameShifted(g: seq<Obs>, h: seq<Obs>, s: nat)
    requires SameCounts(g, h)
    ensures SameCounts(ShiftAll(g, s), ShiftAll(h, s))
  {
    var lo, hi := Lowest(g + h), Highest(g + h);
    Bounded(g, h);
    forall k ensures CountAt(ShiftAll(g, s), k) == CountAt(ShiftAll(h, s), k) {
      SameShiftedBelow(g, h, s, k, lo, hi + 1);
      BelowAll(g, hi + 1);
      BelowAll(h, hi + 1);
      CountShiftAll(g, s, k);
      CountShiftAll(h, s, k);
    }
  }

  function Lowest(h: seq<Obs>): int { if h == [] then 0 else MinIndex(h) }

  function Highest(h: seq<Obs>): int { if h == [] then 0 else MaxIndex(h) }

  lemma Bounded(g: seq<Obs>, h: seq<Obs>)
    ensures var lo, hi := Lowest(g + h), Highest(g + h);
            && lo <= hi
            && (forall j :: 0 <= j < |g| ==> lo <= g[j].index <= hi)
            && (forall j :: 0 <= j < |h| ==> lo <= h[j].index <= hi)
  {
    if g + h != [] {
      IndexBounds(g + h);
      forall j | 0 <= j < |g| ensures g[j] == (g + h)[j] { }
      forall j | 0 <= j < |h| ensures h[j] == (g + h)[|g| + j] { }
    }
  }

  /** Bucket populations determine the window. */
  lemma SameCanonical(g: seq<Obs>, h: seq<Obs>)
    requires Positive(g) && Positive(h) && SameCounts(g, h)
    ensures Canonical(g) == Canonical(h)
  {
    if g == [] {
      if h != [] { EndsPopulated(h); }
    } else if h == [] {
      EndsPopulated(g);
    } else {
      SameEnds(g, h);
      CanonicalShape(g);
      CanonicalShape(h);
      forall k | Canonical(g).lo <= k <= Canonical(g).Hi() ensures Canonical(g).At(k) == Canonical(h).At(k) {
        SameUpTo(g, h, k);
      }
      SameView(Canonical(g), Canonical(h));
    }
  }

  lemma SameEnds(g: seq<Obs>, h: seq<Obs>)
    requires Positive(g) && Positive(h) && SameCounts(g, h) && g != [] && h != []
    ensures MinIndex(g) == MinIndex(h) && MaxIndex(g) == MaxIndex(h)
  {
    IndexBounds(g);
    IndexBounds(h);
    CountOutside(g, MinIndex(g));
    CountOutside(h, MinIndex(g));
    CountOutside(g, MinIndex(h));
    CountOutside(h, MinIndex(h));
    CountOutside(g, MaxIndex(g));
    CountOutside(h, MaxIndex(g));
    CountOutside(g, MaxIndex(h));
    CountOutside(h, MaxIndex(h));
  }

  lemma {:induction false} SameUpTo(g: seq<Obs>, h: seq<Obs>, k: int)
    requires Positive(g) && Positive(h) && SameCounts(g, h)
    ensures CountUpTo(g, k) == CountUpTo(h, k)
    decreases if k < Lowest(g + h) then 0 else k - Lowest(g + h) + 1
  {
    Bounded(g, h);
    CountOutside(g, k);
    CountOutside(h, k);
    if k >= Lowest(g + h) { SameUpTo(g, h, k - 1); }
  }

  lemma {:induction false} BucketsRescale(gamma: real, s: nat, xs: seq<real>)
    requires gamma > 1.0 && Pow2(s) >= 1 && Pow(gamma, Pow2(s)) > 1.0
    ensures Buckets(Pow(gamma, Pow2(s)), xs) == ShiftAll(Buckets(gamma, xs), s)
  {
    hide Index, Pow, Shift;
    if xs != [] {
      var ys, x := xs[..|xs| - 1], xs[|xs| - 1];
      BucketsRescale(gamma, s, ys);
      if x > 0.0 {
        PerfectSubsetting(gamma, x, s);
        var g, o := Buckets(gamma, ys), Obs(Index(gamma, x), 1);
        assert (g + [o])[..|g|] == g;
      }
    }
  }

  /** Folding an exponential point is the same as observing, at the sketch's own scale, any sample
      whose buckets at the point's scale are the point's: nothing is lost but the values' places
      inside their buckets. */
  lemma FoldIsObserving(p: ExpPoint, gamma: real, xs: seq<real>)
    requires gamma > 1.0 && p.scale >= 0
    requires forall k :: CountAt(Buckets(gamma, xs), k) == PointCount(p.positive, k)
    ensures
      var s := ShiftFor(p.scale);
      && Pow2(s) >= 1 && Pow(gamma, Pow2(s)) > 1.0
      && ObserveAll(DEFAULT_SCALE, Pow(gamma, Pow2(s)), xs).view == Canonical(BucketObs(p.positive, |p.positive.counts|, s))
  {
    var s := ShiftFor(p.scale);
    var all := |p.positive.counts|;
    Pow2Positive(s);
    PowAboveOne(gamma, Pow2(s));
    var g, h := Buckets(gamma, xs), BucketObs(p.positive, all, 0);
    PointCounts(p.positive, all, 0);
    forall k ensures CountAt(g, k) == CountAt(h, k) { PointCounts(p.positive, all, k); }
    BucketsShift(p.positive, all, s);
    BucketsRescale(gamma, s, xs);
    SameShifted(g, h, s);
    ObserveAllIs(DEFAULT_SCALE, gamma, xs);
    ObserveAllIs(DEFAULT_SCALE, Pow(gamma, Pow2(s)), xs);
    if h != [] { ShiftAllIndexes(h, s); }
    SameCanonical(ShiftAll(g, s), ShiftAll(h, s));
  }

  // ---------------------------------------------------------------------------------------
  // Points with explicit bounds.

  datatype Point = Point(scalars: Scalars, bounds: seq<real>, counts: seq<nat>)

  /** Bounds ascend, there is one more bucket than bounds, and the buckets add up to the count. */
  predicate MalformedPoint(p: Point) {
    || BadScalars(p.scalars)
    || if p.counts == [] && p.bounds == [] then p.scalars.count != 0
       else
         || |p.counts| != |p.bounds| + 1
         || (exists i :: 0 < i < |p.bounds| && p.bounds[i] <= p.bounds[i - 1])
         || Sum(p.counts) >= TWO_64 || Sum(p.counts) != p.scalars.count
  }

  predicate NonNegative(p: Point) { p.scalars.min.Some? && p.scalars.min.value >= 0.0 }

  /** The lower end of a finite bucket as the point's own least value sharpens it; None when
      nothing bounds it. */
  function Lower(p: Point, i: nat): Option<real>
    requires i <= |p.bounds|
  {
    var below := if i > 0 then Some(p.bounds[i - 1]) else None;
    match p.scalars.min
    case None => below
    case Some(m) => if below.None? || m > below.value then Some(m) else below
  }

  /** The bucket may hold negative values and nothing rules them out. */
  predicate Unplaceable(p: Point, i: nat)
    requires i < |p.bounds|
  {
    var lower := Lower(p, i);
    (lower.None? || lower.value < 0.0 || p.bounds[i] <= 0.0) && (!NonNegative(p) || p.bounds[i] <= 0.0)
  }

  /** The lower end a placed bucket is given. */
  function Start(p: Point, i: nat): real
    requires i < |p.bounds|
  {
    var lower := Lower(p, i);
    if lower.None? || lower.value < 0.0 then 0.0 else lower.value
  }

  /** Where a bucket's observations are placed, and the error admitted for it. */
  function Midpoint(root: real -> real, lower: real, upper: real): (real, real) {
    if lower <= 0.0 then (upper / 2.0, 1.0) else (root(lower * upper), root(upper / lower) - 1.0)
  }

  /** What the placed buckets among the first n contribute. */
  function Placed(root: real -> real, index: real -> int, p: Point, n: nat): seq<Obs>
    requires n <= |p.bounds| && |p.counts| == |p.bounds| + 1
  {
    if n == 0 then []
    else if p.counts[n - 1] == 0 then Placed(root, index, p, n - 1)
    else
      var mid := Midpoint(root, Start(p, n - 1), p.bounds[n - 1]).0;
      if mid <= 0.0 then Placed(root, index, p, n - 1)
      else Placed(root, index, p, n - 1) + [Obs(index(mid), p.counts[n - 1])]
  }

  function ErrorOf(root: real -> real, p: Point, i: nat): real
    requires i < |p.bounds|
  {
    Midpoint(root, Start(p, i), p.bounds[i]).1
  }

  /** The state of the fold after the first n finite buckets. */
  ghost predicate Folding(root: real -> real, index: real -> int, p: Point, n: nat, view: View, count: nat, error: real)
    requires n <= |p.bounds| && |p.counts| == |p.bounds| + 1
  {
    && Positive(Placed(root, index, p, n)) && view == Canonical(Placed(root, index, p, n))
    && count == Sum(p.counts[..n])
    && (forall j :: 0 <= j < n && p.counts[j] > 0 ==> !Unplaceable(p, j) && ErrorOf(root, p, j) <= error)
    && (error == 0.0 || exists j :: 0 <= j < n && p.counts[j] > 0 && ErrorOf(root, p, j) == error)
  }

  lemma FoldingNothing(root: real -> real, index: real -> int, p: Point)
    requires |p.counts| == |p.bounds| + 1
    ensures Folding(root, index, p, 0, EMPTY, 0, 0.0)
  {
  }

  lemma FoldingSkip(root: real -> real, index: real -> int, p: Point, n: nat, view: View, count: nat, error: real)
    requires n < |p.bounds| && |p.counts| == |p.bounds| + 1 && p.counts[n] == 0
    requires Folding(root, index, p, n, view, count, error)
    ensures Folding(root, index, p, n + 1, view, count, error)
  {
    hide Canonical, Unplaceable, ErrorOf, Midpoint;
    SumStep(p.counts, n);
  }

  function Greater(x: real, y: real): real { if x > y then x else y }

  lemma FoldingStep(root: real -> real, index: real -> int, p: Point, n: nat, view: View, count: nat, error: real)
    requires n < |p.bounds| && |p.counts| == |p.bounds| + 1 && p.counts[n] > 0 && !Unplaceable(p, n)
    requires Folding(root, index, p, n, view, count, error)
    ensures
      var mid := Midpoint(root, Start(p, n), p.bounds[n]).0;
      Folding(root, index, p, n + 1, if mid <= 0.0 then view else AddView(view, index(mid), p.counts[n]),
              count + p.counts[n], Greater(ErrorOf(root, p, n), error))
  {
    hide Canonical, Unplaceable, Midpoint, AddView, Start, CountAt, CountUpTo;
    var mid := Midpoint(root, Start(p, n), p.bounds[n]).0;
    SumStep(p.counts, n);
    if mid > 0.0 {
      var o := Obs(index(mid), p.counts[n]);
      AddKeepsCanonical(Placed(root, index, p, n), o);
      CountAppend(Placed(root, index, p, n), o, 0);
    }
    ErrorsStep(root, p, n, error);
  }

  lemma ErrorsStep(root: real -> real, p: Point, n: nat, error: real)
    requires n < |p.bounds| && |p.counts| == |p.bounds| + 1 && p.counts[n] > 0
    requires forall j :: 0 <= j < n && p.counts[j] > 0 ==> ErrorOf(root, p, j) <= error
    requires error == 0.0 || exists j :: 0 <= j < n && p.counts[j] > 0 && ErrorOf(root, p, j) == error
    ensures forall j :: 0 <= j < n + 1 && p.counts[j] > 0 ==> ErrorOf(root, p, j) <= Greater(ErrorOf(root, p, n), error)
    ensures Greater(ErrorOf(root, p, n), error) == 0.0
      || exists j :: 0 <= j < n + 1 && p.counts[j] > 0 && ErrorOf(root, p, j) == Greater(ErrorOf(root, p, n), error)
  {
    hide ErrorOf;
  }

  lemma ShapeOf(p: Point)
    requires !MalformedPoint(p) && p.counts != []
    ensures |p.counts| == |p.bounds| + 1 && Sum(p.counts) == p.scalars.count
  {
  }

  /** The finite buckets and the tail are all there is. */
  lemma FoldedAll(p: Point)
    requires |p.counts| == |p.bounds| + 1
    ensures Sum(p.counts) == Sum(p.counts[..|p.bounds|]) + p.counts[|p.bounds|]
  {
    SumStep(p.counts, |p.bounds|);
    assert p.counts[..|p.counts|] == p.counts;
  }

  predicate Refused(p: Point)
    requires |p.counts| == |p.bounds| + 1
  {
    exists i :: 0 <= i < |p.bounds| && p.counts[i] > 0 && Unplaceable(p, i)
  }

  /** A fold with percentiles: every finite bucket is placed at its midpoint, the unbounded one is
      kept apart with the bound below it, the two account for the whole count, and the error
      admitted is the worst of a counted bucket. */
  ghost predicate FoldsAll(root: real -> real, index: real -> int, p: Point, f: Fold)
    requires |p.counts| == |p.bounds| + 1 && p.bounds != []
  {
    && f.reason == NoReason && f.bins.Some? && f.bins.value.scale == DEFAULT_SCALE
    && f.bins.value.count + f.tailCount == p.scalars.count
    && f.tailCount == p.counts[|p.bounds|]
    && f.tailBound == (if f.tailCount > 0 then Some(p.bounds[|p.bounds| - 1]) else None)
    && Folding(root, index, p, |p.bounds|, f.bins.value.view, f.bins.value.count, f.sourceError)
  }

  ghost predicate PositiveRoot(root: real -> real) { forall x: real :: x > 0.0 ==> root(x) > 0.0 }

  lemma MidpointIsPositive(root: real -> real, p: Point, i: nat)
    requires PositiveRoot(root) && i < |p.bounds| && !Unplaceable(p, i)
    ensures Midpoint(root, Start(p, i), p.bounds[i]).0 > 0.0
  {
    var lower := Start(p, i);
    if lower > 0.0 { PositiveProduct(lower, p.bounds[i]); }
  }

  /** Every counted finite bucket is placed at its own midpoint with its own count, none as zeros,
      and together they are all that the finite buckets count. */
  lemma {:induction false} PlacedIsAll(root: real -> real, index: real -> int, p: Point, n: nat)
    requires PositiveRoot(root) && n <= |p.bounds| && |p.counts| == |p.bounds| + 1
    requires forall j :: 0 <= j < n && p.counts[j] > 0 ==> !Unplaceable(p, j)
    ensures Weight(Placed(root, index, p, n)) == Sum(p.counts[..n])
    ensures forall j :: 0 <= j < n && p.counts[j] > 0 ==>
              Obs(index(Midpoint(root, Start(p, j), p.bounds[j]).0), p.counts[j]) in Placed(root, index, p, n)
  {
    hide Midpoint, Unplaceable, Start;
    if n > 0 {
      PlacedIsAll(root, index, p, n - 1);
      SumStep(p.counts, n - 1);
      if p.counts[n - 1] > 0 { MidpointIsPositive(root, p, n - 1); }
    }
  }

  method FoldHistogram(root: real -> real, index: real -> int, p: Point) returns (fold: Option<Fold>)
    requires p.scalars.count < TWO_64
    ensures fold.None? <==> MalformedPoint(p)
    ensures fold.Some? ==> fold.value.scalars == p.scalars
    ensures fold.Some? && (p.scalars.count == 0 || p.counts == []) ==>
      fold.value == Fold(p.scalars, Some(Bins(DEFAULT_SCALE, 0, 0, EMPTY)), NoReason, 0.0, None, 0)
    ensures fold.Some? && p.scalars.count > 0 ==> |p.counts| == |p.bounds| + 1
    ensures fold.Some? && p.scalars.count > 0 && p.bounds == [] ==>
      fold.value == Fold(p.scalars, None, NoFiniteBoundaries, 0.0, None, 0)
    ensures fold.Some? && p.scalars.count > 0 && p.bounds != [] && Refused(p) ==>
      fold.value.bins.None? && fold.value.reason == NegativeObservations && fold.value.tailCount == 0 && fold.value.tailBound.None?
    ensures fold.Some? && p.scalars.count > 0 && p.bounds != [] && !Refused(p) ==> FoldsAll(root, index, p, fold.value)
    ensures fold.Some? && p.scalars.count > 0 && p.bounds != [] && !Refused(p) && PositiveRoot(root) ==>
      fold.value.bins.value.zeroCount == 0
      && Weight(Placed(root, index, p, |p.bounds|)) == fold.value.bins.value.count
      && forall j :: 0 <= j < |p.bounds| && p.counts[j] > 0 ==>
           Obs(index(Midpoint(root, Start(p, j), p.bounds[j]).0), p.counts[j]) in Placed(root, index, p, |p.bounds|)
  {
    hide Canonical, AddView, Midpoint, Folding, Unplaceable, Start, ErrorOf, Sum, MalformedPoint, PositiveRoot, Placed, Weight;
    if MalformedPoint(p) { return None; }
    if p.scalars.count == 0 || p.counts == [] {
      if p.counts == [] { NoBucketsNoCount(p); }
      return Some(Fold(p.scalars, Some(Bins(DEFAULT_SCALE, 0, 0, EMPTY)), NoReason, 0.0, None, 0));
    }
    ShapeOf(p);
    if p.bounds == [] { return Some(Fold(p.scalars, None, NoFiniteBoundaries, 0.0, None, 0)); }
    var view, count, zeros, error := EMPTY, 0, 0, 0.0;
    FoldingNothing(root, index, p);
    var i := 0;
    while i < |p.bounds|
      invariant 0 <= i <= |p.bounds| && Folding(root, index, p, i, view, count, error)
      invariant forall j :: 0 <= j < i && p.counts[j] > 0 ==> !Unplaceable(p, j)
      invariant PositiveRoot(root) ==> zeros == 0
    {
      if p.counts[i] == 0 {
        FoldingSkip(root, index, p, i, view, count, error);
      } else {
        if Unplaceable(p, i) { return Some(Fold(p.scalars, None, NegativeObservations, error, None, 0)); }
        FoldingStep(root, index, p, i, view, count, error);
        if PositiveRoot(root) { MidpointIsPositive(root, p, i); }
        var mid := Midpoint(root, Start(p, i), p.bounds[i]).0;
        if mid <= 0.0 { zeros := zeros + p.counts[i]; } else { view := AddView(view, index(mid), p.counts[i]); }
        count := count + p.counts[i];
        error := Greater(ErrorOf(root, p, i), error);
      }
      i := i + 1;
    }
    FoldedAll(p);
    FoldingCount(root, index, p, i, view, count, error);
    if PositiveRoot(root) { PlacedIsAll(root, index, p, i); }
    fold := Some(Fold(p.scalars, Some(Bins(DEFAULT_SCALE, count, zeros, view)), NoReason, error,
                      if p.counts[i] > 0 then Some(p.bounds[i - 1]) else None, p.counts[i]));
  }

  lemma FoldingCount(root: real -> real, index: real -> int, p: Point, n: nat, view: View, count: nat, error: real)
    requires n <= |p.bounds| && |p.counts| == |p.bounds| + 1 && Folding(root, index, p, n, view, count, error)
    ensures count == Sum(p.counts[..n])
  {
  }

  lemma NoBucketsNoCount(p: Point)
    requires !MalformedPoint(p) && p.counts == []
    ensures p.scalars.count == 0
  {
  }

  // ---------------------------------------------------------------------------------------
  // How far a placed observation is from where it was.

  ghost predicate IsRoot(root: real -> real) { forall x: real :: x >= 0.0 ==> root(x) >= 0.0 && root(x) * root(x) == x }

  lemma PositiveProduct(x: real, y: real)
    requires x > 0.0 && y > 0.0
    ensures x * y > 0.0
  {
  }

  lemma SquareDifference(a: real, b: real)
    ensures (b - a) * (b + a) == b * b - a * a
  {
  }

  lemma Square(a: real, b: real)
    requires 0.0 <= a < b
    ensures a * a < b * b
  {
    PositiveProduct(b - a, b + a);
    SquareDifference(a, b);
  }

  lemma SameSquare(a: real, b: real)
    requires a >= 0.0 && b >= 0.0 && a * a == b * b
    ensures a == b
  {
    if a < b { Square(a, b); }
    if b < a { Square(b, a); }
  }

  lemma SquareOfProduct(r: real, l: real, q: real)
    requires r * r == q
    ensures (r * l) * (r * l) == (q * l) * l
  {
    Associate(r, l, r * l);
    Associate(l, r, l);
    Associate(r, r * l, l);
    Associate(r, r, l);
  }

  lemma Associate(a: real, b: real, c: real)
    ensures (a * b) * c == a * (b * c) && a * b == b * a
  {
  }

  lemma RatioAbove(l: real, u: real, q: real)
    requires 0.0 < l < u && q * l == u
    ensures q > 1.0
  {
    if q <= 1.0 { ScaleOrder(q, 1.0, l); }
  }

  lemma RootAbove(r: real, q: real)
    requires r >= 0.0 && r * r == q && q > 1.0
    ensures r > 1.0
  {
    if r < 1.0 { Square(r, 1.0); }
  }

  lemma Divides(l: real, u: real)
    requires l > 0.0
    ensures u / l * l == u
  {
  }

  lemma RootOfRatio(root: real -> real, l: real, u: real)
    requires IsRoot(root) && 0.0 < l < u
    ensures root(u / l) > 1.0 && root(l * u) == root(u / l) * l && u == root(u / l) * (root(u / l) * l)
  {
    var q := u / l;
    Divides(l, u);
    RatioAbove(l, u, q);
    var r := root(q);
    RootAbove(r, q);
    PositiveProduct(l, u);
    PositiveProduct(r, l);
    SquareOfProduct(r, l, q);
    Associate(l, u, 1.0);
    SameSquare(root(l * u), r * l);
    Associate(r, r, l);
  }

  /** In a bucket that starts above zero, the geometric midpoint is within the admitted relative
      error of every value in the bucket. */
  lemma MidpointAccuracy(root: real -> real, l: real, u: real, x: real)
    requires IsRoot(root) && 0.0 < l < x <= u
    ensures var m := Midpoint(root, l, u); Abs(x - m.0) <= m.1 * x
  {
    var r := root(u / l);
    RootOfRatio(root, l, u);
    MidpointBounds(r, l, x, r * l, u);
  }

  lemma UnitArea(r: real)
    ensures (2.0 - r) * r <= 1.0
  {
    assert (r - 1.0) * (r - 1.0) >= 0.0;
    assert (2.0 - r) * r == 1.0 - (r - 1.0) * (r - 1.0);
  }

  lemma NotTooHigh(r: real, x: real, m: real, u: real)
    requires 1.0 < r < 2.0 && x <= u && u == r * m && m >= 0.0
    ensures x * (2.0 - r) <= m
  {
    ScaleOrder(x, u, 2.0 - r);
    Associate(r, m, 2.0 - r);
    Associate(m, 2.0 - r, r);
    Associate(r, m * (2.0 - r), 1.0);
    Associate(r, 2.0 - r, m);
    UnitArea(r);
    ScaleOrder((2.0 - r) * r, 1.0, m);
    TurnProduct(r, m);
  }

  lemma TurnProduct(r: real, m: real)
    ensures (r * m) * (2.0 - r) == ((2.0 - r) * r) * m
  {
    var s := 2.0 - r;
    Associate(r * m, s, 1.0);
    Associate(s, r, m);
  }

  lemma Spread(r: real, x: real)
    ensures x * (2.0 - r) == 2.0 * x - r * x && (r - 1.0) * x == r * x - x
  {
  }

  lemma MidpointBounds(r: real, l: real, x: real, m: real, u: real)
    requires r > 1.0 && 0.0 < l < x <= u && m == r * l && u == r * m
    ensures Abs(x - m) <= (r - 1.0) * x
  {
    Spread(r, x);
    Associate(l, r, 1.0);
    Associate(x, r, 1.0);
    ScaleOrder(l, x, r);
    PositiveProduct(r, l);
    if r < 2.0 {
      NotTooHigh(r, x, m, u);
    } else {
      ScaleOrder(2.0, r, x);
    }
  }

  /** In a bucket that starts at zero, the midpoint is never further off than itself; against the
      value, the admitted 100% holds exactly from a quarter of the bucket up. */
  lemma ZeroBucketErrorExactly(root: real -> real, u: real, x: real)
    requires 0.0 < x <= u
    ensures var m := Midpoint(root, 0.0, u);
            Abs(x - m.0) <= m.0 && (Abs(x - m.0) <= m.1 * x <==> x >= u / 4.0)
  {
  }

  // ---------------------------------------------------------------------------------------
  // Quantiles over a sketch and a tail.

  datatype Answer = Nothing | AtLeast(bound: real) | Of(q: real)

  /** What a histogram's quantile is read from: the tail's bound, or the sketch at a rescaled q. */
  function HistogramQuantile(available: bool, sketch: Option<Value>, tailCount: nat, tailBound: real, q: real): Answer {
    var sketched := if sketch.Some? then sketch.value.count else 0;
    var total := sketched + tailCount;
    if !available || q < 0.0 || q > 1.0 || total == 0 then Nothing
    else if Rank(q, total) >= sketched as real then AtLeast(tailBound)
    else if sketch.None? then Nothing
    else Of(Rescale(Rank(q, total), sketched))
  }

  /** The q that asks n observations for a rank. */
  function Rescale(rank: real, n: nat): real {
    var s := if n > 1 then rank / (n - 1) as real else 0.0;
    if s > 1.0 then 1.0 else s
  }

  /** A lower bound is given exactly when the rank falls among the tail's observations. */
  lemma LowerBoundExactly(sketch: Option<Value>, tailCount: nat, tailBound: real, q: real)
    requires 0.0 <= q <= 1.0
    requires (if sketch.Some? then sketch.value.count else 0) + tailCount > 0
    ensures
      var sketched := if sketch.Some? then sketch.value.count else 0;
      HistogramQuantile(true, sketch, tailCount, tailBound, q).AtLeast?
      <==> Rank(q, sketched + tailCount).Floor >= sketched
  {
    var sketched: int := if sketch.Some? then sketch.value.count else 0;
    var rank := Rank(q, sketched + tailCount);
    if rank >= sketched as real { assert rank.Floor >= sketched; }
  }

  /** Otherwise, for a sketch that lost no observation, the rescaled q asks the sketch for the very
      rank of the whole distribution. */
  lemma QuantileIsSameRank(v: Value, gamma: real, tailCount: nat, tailBound: real, q: real, out: real)
    requires gamma > 1.0 && 0.0 <= q <= 1.0 && v.count > 0 && Ranked(v) == v.count
    requires HistogramQuantile(true, Some(v), tailCount, tailBound, q).Of?
    ensures
      IsQuantile(v, gamma, HistogramQuantile(true, Some(v), tailCount, tailBound, q).q, out)
      <==> Answers(v, gamma, Rank(q, v.count + tailCount), out)
  {
    hide Answers, Ranked, Rank, Rescale;
    var rank := Rank(q, v.count + tailCount);
    var sq := HistogramQuantile(true, Some(v), tailCount, tailBound, q).q;
    RankBound(q, v.count + tailCount);
    Rescaled(rank, v.count);
    SameFloor(v, gamma, rank, Rank(sq, v.count), out);
  }

  lemma Rescaled(rank: real, n: nat)
    requires n > 0 && 0.0 <= rank < n as real
    ensures Rank(Rescale(rank, n), n).Floor == rank.Floor
  {
    if n > 1 {
      var m := (n - 1) as real;
      var s := rank / m;
      assert s * m == rank;
      if s > 1.0 {
        assert (s - 1.0) * m > 0.0;
        assert m < rank < m + 1.0;
        FloorBetween(rank, n - 1);
      }
    } else {
      FloorBetween(rank, 0);
    }
  }

  lemma FloorBetween(x: real, k: int)
    requires k as real <= x < k as real + 1.0
    ensures x.Floor == k
  {
  }

  /** What is found at a rank depends on its whole part only. */
  lemma SameFloor(v: Value, gamma: real, a: real, b: real, out: real)
    requires gamma > 1.0 && a.Floor == b.Floor
    ensures Answers(v, gamma, a, out) <==> Answers(v, gamma, b, out)
  {
    hide View.UpTo, Representative;
    FloorBelow(v.zeroCount, a);
    FloorBelow(v.zeroCount, b);
    forall k ensures AtRank(v, a, k) <==> AtRank(v, b, k) {
      FloorBelow(v.zeroCount + v.view.UpTo(k - 1), a);
      FloorBelow(v.zeroCount + v.view.UpTo(k - 1), b);
      FloorBelow(v.zeroCount + v.view.UpTo(k), a);
      FloorBelow(v.zeroCount + v.view.UpTo(k), b);
    }
  }

  lemma FloorBelow(n: int, x: real)
    ensures n as real > x <==> n > x.Floor
  {
  }
}
