/**
 The statistics one series gathers in one window, as values: what each kind of observation adds
 and how two deltas fold together. Merging is meant to depend only on the observations; the
 theorems say exactly when it does.

 Sketches here are at the default scale. Amounts are reals.
 */
module Deltas {
  import opened Options
  import opened Mapping
  import opened SketchSpec
  import opened SketchValues
  import opened Scales

  const NEW_SKETCH := Value(DEFAULT_SCALE, 0, 0, 0.0, EMPTY)

  /** What simply adds up. */
  datatype Counts = Counts(points: nat, errors: nat, requests: nat, errorRequests: nat, resets: nat, logs: nat, counter: real)

  /** Count, sum, least and greatest. */
  datatype Range = Range(n: nat, sum: real, min: real, max: real)

  datatype Latest = Never | At(time: int, value: real)

  datatype Period = Unseen | Seen(first: int, last: int)

  datatype Flags = Flags(unavailable: bool, tail: bool, hasMin: bool, hasMax: bool, reason: nat)

  datatype Hist = Hist(n: nat, sum: real, min: real, max: real, sourceError: real, tailBound: real, tailCount: nat, flags: Flags)

  datatype Delta = Delta(counts: Counts, duration: Range, gauge: Range, latest: Latest, hist: Hist, logs: Period, sketch: Option<Value>)

  const NO_FLAGS := Flags(false, false, false, false, 0)
  const NO_RANGE := Range(0, 0.0, 0.0, 0.0)
  const NO_HIST := Hist(0, 0.0, 0.0, 0.0, 0.0, 0.0, 0, NO_FLAGS)
  const ZERO := Delta(Counts(0, 0, 0, 0, 0, 0, 0.0), NO_RANGE, NO_RANGE, Never, NO_HIST, Unseen, None)

  // ---------------------------------------------------------------------------------------
  // Folding one component into another.

  function AddCounts(a: Counts, b: Counts): Counts {
    Counts(a.points + b.points, a.errors + b.errors, a.requests + b.requests, a.errorRequests + b.errorRequests,
           a.resets + b.resets, a.logs + b.logs, a.counter + b.counter)
  }

  function Widened(r: Range, x: real): Range {
    Range(r.n + 1, r.sum + x, if r.n == 0 || x < r.min then x else r.min, if r.n == 0 || x > r.max then x else r.max)
  }

  function MergeRange(a: Range, b: Range): Range {
    if b.n == 0 then a
    else
      Range(a.n + b.n, a.sum + b.sum, if a.n == 0 || b.min < a.min then b.min else a.min,
            if a.n == 0 || b.max > a.max then b.max else a.max)
  }

  /** A later sample, or one as late, replaces the one before. */
  function Sampled(l: Latest, time: int, value: real): Latest {
    if l.Never? || time >= l.time then At(time, value) else l
  }

  /** Only a strictly later sample replaces one from the delta folded into. */
  function MergeLatest(a: Latest, b: Latest): Latest {
    if b.Never? then a else if a.Never? || b.time > a.time then b else a
  }

  function MergePeriod(a: Period, b: Period): Period {
    match (a, b)
    case (_, Unseen) => a
    case (Unseen, _) => b
    case (Seen(f, l), Seen(g, m)) => Seen(if g < f then g else f, if m > l then m else l)
  }

  /** The least reason that is one. */
  function MergeReason(a: nat, b: nat): nat { if a == 0 then b else if b != 0 && b < a then b else a }

  function MergeFlags(a: Flags, b: Flags): Flags {
    Flags(a.unavailable || b.unavailable, a.tail || b.tail, a.hasMin || b.hasMin, a.hasMax || b.hasMax, MergeReason(a.reason, b.reason))
  }

  /** A histogram part that counts nothing and flags nothing is skipped. */
  predicate Silent(h: Hist) { h.n == 0 && h.flags == NO_FLAGS }

  function JoinHist(a: Hist, b: Hist): Hist {
    Hist(a.n + b.n, a.sum + b.sum,
         if b.flags.hasMin && (!a.flags.hasMin || b.min < a.min) then b.min else a.min,
         if b.flags.hasMax && (!a.flags.hasMax || b.max > a.max) then b.max else a.max,
         if b.sourceError > a.sourceError then b.sourceError else a.sourceError,
         if b.flags.tail && (!a.flags.tail || b.tailBound < a.tailBound) then b.tailBound else a.tailBound,
         a.tailCount + b.tailCount, MergeFlags(a.flags, b.flags))
  }

  function MergeHist(a: Hist, b: Hist): Hist { if Silent(b) then a else JoinHist(a, b) }

  function MergeSketch(a: Option<Value>, b: Option<Value>): Option<Value> {
    if b.None? then a else Some(MergeValue(if a.Some? then a.value else NEW_SKETCH, b.value))
  }

  function Merge(a: Delta, b: Delta): Delta {
    Delta(AddCounts(a.counts, b.counts), MergeRange(a.duration, b.duration), MergeRange(a.gauge, b.gauge),
          if b.gauge.n == 0 then a.latest else MergeLatest(a.latest, b.latest),
          MergeHist(a.hist, b.hist), MergePeriod(a.logs, b.logs), MergeSketch(a.sketch, b.sketch))
  }

  // ---------------------------------------------------------------------------------------
  // Observing.

  datatype Observation =
    | Span(micros: real, isError: bool, isRequest: bool)
    | Log(time: int, isError: bool)
    | Gauge(value: real, time: int)
    | Counter(increase: real, reset: bool)
    | Histogram(fold: Hist, sketch: Option<Value>)

  function Bit(b: bool): nat { if b then 1 else 0 }

  function CountsOf(o: Observation): Counts {
    match o
    case Span(_, e, r) => Counts(1, Bit(e), Bit(r), Bit(e && r), 0, 0, 0.0)
    case Log(_, e) => Counts(1, Bit(e), 0, 0, 0, 1, 0.0)
    case Gauge(_, _) => Counts(1, 0, 0, 0, 0, 0, 0.0)
    case Counter(d, r) => Counts(1, 0, 0, 0, Bit(r), 0, d)
    case Histogram(_, _) => Counts(1, 0, 0, 0, 0, 0, 0.0)
  }

  /** The sketch one value makes. */
  ghost function Single(gamma: real, x: real): Value
    requires gamma > 1.0
  {
    ObserveValue(NEW_SKETCH, gamma, x)
  }

  ghost function SketchOf(gamma: real, o: Observation): Option<Value>
    requires gamma > 1.0
  {
    match o
    case Span(x, _, _) => Some(Single(gamma, x))
    case Histogram(_, s) => s
    case _ => None
  }

  ghost function Observe(gamma: real, d: Delta, o: Observation): Delta
    requires gamma > 1.0
  {
    var n := d.(counts := AddCounts(d.counts, CountsOf(o)));
    match o
    case Span(x, _, _) =>
      n.(duration := Widened(d.duration, x),
         sketch := Some(ObserveValue(if d.sketch.Some? then d.sketch.value else NEW_SKETCH, gamma, x)))
    case Log(t, _) => n.(logs := MergePeriod(d.logs, Seen(t, t)))
    case Gauge(x, t) => n.(gauge := Widened(d.gauge, x), latest := Sampled(d.latest, t, x))
    case Counter(_, _) => n
    case Histogram(f, s) => n.(hist := JoinHist(d.hist, f), sketch := MergeSketch(d.sketch, s))
  }

  ghost function ObserveEach(gamma: real, os: seq<Observation>): Delta
    requires gamma > 1.0
  {
    if os == [] then ZERO else Observe(gamma, ObserveEach(gamma, os[..|os| - 1]), os[|os| - 1])
  }

  // ---------------------------------------------------------------------------------------
  // Deltas as observations leave them.

  predicate NormalRange(r: Range) { r.n == 0 ==> r == NO_RANGE }

  predicate NormalHist(h: Hist) {
    && (!h.flags.hasMin ==> h.min == 0.0) && (!h.flags.hasMax ==> h.max == 0.0)
    && (!h.flags.tail ==> h.tailBound == 0.0 && h.tailCount == 0)
    && h.sourceError >= 0.0 && (Silent(h) ==> h.sourceError == 0.0)
  }

  predicate NormalSketch(s: Option<Value>) {
    s.Some? ==> s.value.Valid() && s.value.scale == DEFAULT_SCALE && (s.value.count == 0 ==> s.value == NEW_SKETCH)
  }

  /** A sketch that only merging has touched: at the default scale or, with points that came at a
      coarser one, at that. */
  predicate MergedSketch(s: Option<Value>) {
    s.Some? ==> s.value.Valid() && s.value.scale <= DEFAULT_SCALE && (s.value.count == 0 ==> s.value == NEW_SKETCH)
  }

  /** As merging leaves deltas, whatever scale their sketches have come to. */
  predicate Mergeable(d: Delta) {
    && NormalRange(d.duration) && NormalRange(d.gauge) && NormalHist(d.hist) && MergedSketch(d.sketch)
    && (d.latest.Never? <==> d.gauge.n == 0)
  }

  predicate Normal(d: Delta) {
    && NormalRange(d.duration) && NormalRange(d.gauge) && NormalHist(d.hist) && NormalSketch(d.sketch)
    && (d.latest.Never? <==> d.gauge.n == 0)
  }

  /** What the folds of histogram points satisfy. */
  predicate NormalObservation(o: Observation) {
    o.Histogram? ==> NormalHist(o.fold) && NormalSketch(o.sketch)
  }

  /** The amount a skipped histogram part would have added. */
  predicate LosesSum(h: Hist) { Silent(h) && h.sum != 0.0 }

  /** Two samples of one time that disagree. */
  predicate Tie(a: Latest, b: Latest) { a.At? && b.At? && a.time == b.time && a.value != b.value }

  // ---------------------------------------------------------------------------------------
  // Sketches.

  lemma SketchValid(a: Option<Value>, b: Option<Value>)
    requires NormalSketch(a) && NormalSketch(b)
    ensures NormalSketch(MergeSketch(a, b))
  {
    if b.Some? {
      var x := if a.Some? then a.value else NEW_SKETCH;
      MergedValid(x, b.value);
    }
  }

  lemma MergedValid(a: Value, b: Value)
    requires a.Valid() && b.Valid() && a.scale == b.scale
    ensures MergeValue(a, b).Valid()
  {
    hide MergeView;
    MergeValid(a.view, b.view);
    MergedPopulation(a.view, b.view);
  }

  /** Adding observations never stores more of them than there are. */
  lemma {:induction false} AddUpTo(v: View, i: int, n: nat, k: int)
    requires v.cells != [] && |v.cells| <= MAX_BINS
    requires AddView(v, i, n).lo <= k <= AddView(v, i, n).Hi()
    ensures AddView(v, i, n).UpTo(k) <= v.UpTo(k) + if Max(i, AddView(v, i, n).lo) <= k then n else 0
    decreases k - AddView(v, i, n).lo
  {
    hide AddView;
    var w := AddView(v, i, n);
    AddShape(v, i, n);
    UpToStep(w, k);
    UpToStep(v, k);
    if k > w.lo {
      AddUpTo(v, i, n, k - 1);
    } else {
      UpToStep(w, k - 1);
    }
  }

  lemma AddStoresAtMost(v: View, i: int, n: nat)
    requires |v.cells| <= MAX_BINS
    ensures |AddView(v, i, n).cells| <= MAX_BINS
    ensures Total(AddView(v, i, n).cells, |AddView(v, i, n).cells|) <= Total(v.cells, |v.cells|) + n
  {
    hide AddView;
    if v.cells == [] {
      FirstStores(v, i, n);
    } else {
      AddShape(v, i, n);
      AddUpTo(v, i, n, AddView(v, i, n).Hi());
    }
  }

  lemma FirstStores(v: View, i: int, n: nat)
    requires v.cells == []
    ensures AddView(v, i, n).cells == [Clamp(n)] && Total([Clamp(n)], 1) == Clamp(n)
  {
    assert Total([Clamp(n)], 0) == 0;
  }

  lemma {:induction false} RunStoresAtMost(v: View, w: View, n: nat)
    requires |v.cells| <= MAX_BINS && n <= |w.cells|
    ensures |Run(v, Cells(w, n)).cells| <= MAX_BINS
    ensures Total(Run(v, Cells(w, n)).cells, |Run(v, Cells(w, n)).cells|) <= Total(v.cells, |v.cells|) + Total(w.cells, n)
  {
    hide AddView;
    if n > 0 {
      RunStoresAtMost(v, w, n - 1);
      if w.cells[n - 1] != 0 {
        var o := Obs(w.lo + n - 1, w.cells[n - 1]);
        assert Cells(w, n) == Cells(w, n - 1) + [o];
        assert Cells(w, n)[..|Cells(w, n)| - 1] == Cells(w, n - 1);
        AddStoresAtMost(Run(v, Cells(w, n - 1)), o.index, o.n);
      }
    }
  }

  /** Merging never ranks more than was put in. */
  lemma MergedPopulation(a: View, b: View)
    requires a.Valid() && b.Valid()
    ensures Total(MergeView(a, b).cells, |MergeView(a, b).cells|) <= Total(a.cells, |a.cells|) + Total(b.cells, |b.cells|)
  {
    RunStoresAtMost(a.Flag(b.collapsed), b, |b.cells|);
  }

  lemma SketchCommutes(a: Option<Value>, b: Option<Value>)
    requires MergedSketch(a) && MergedSketch(b)
    ensures MergeSketch(a, b) == MergeSketch(b, a)
  {
    hide MergeView, DownscaleView;
    if a.Some? && b.Some? && a.value.count > 0 && b.value.count > 0 {
      MergeValueCommutes(a.value, b.value);
    } else {
      if a.Some? { IntoNew(a.value); }
      if b.Some? { IntoNew(b.value); }
    }
  }

  /** Merging into a new sketch gives the other one. */
  lemma IntoNew(v: Value)
    requires v.Valid() && v.scale <= DEFAULT_SCALE && (v.count == 0 ==> v == NEW_SKETCH)
    ensures MergeValue(NEW_SKETCH, v) == v
  {
    MergeIntoEmpty(v.view);
  }

  /** All three sketches hold observations, and merging two of them before they are coarsened shows. */
  predicate SketchesDisturbed(a: Option<Value>, b: Option<Value>, c: Option<Value>) {
    && a.Some? && b.Some? && c.Some? && a.value.count > 0 && b.value.count > 0 && c.value.count > 0
    && !GroupingHarmless(a.value, b.value, c.value)
  }

  /** No counter can fill. */
  predicate Few(a: Option<Value>, b: Option<Value>, c: Option<Value>) {
    StoredIn(a) + StoredIn(b) + StoredIn(c) < MAX_COUNT
  }

  function StoredIn(s: Option<Value>): nat { if s.Some? then Stored(s.value.view) else 0 }

  /** Sketches of one scale merge the same however grouped; so do others unless the grouping shows. */
  lemma SketchAssociates(a: Option<Value>, b: Option<Value>, c: Option<Value>)
    requires MergedSketch(a) && MergedSketch(b) && MergedSketch(c)
    ensures !SketchesDisturbed(a, b, c) ==> MergeSketch(MergeSketch(a, b), c) == MergeSketch(a, MergeSketch(b, c))
    ensures Few(a, b, c) && SketchesDisturbed(a, b, c) ==>
              MergeSketch(MergeSketch(a, b), c) != MergeSketch(a, MergeSketch(b, c))
    ensures (forall s :: s in {a, b, c} && s.Some? ==> s.value.scale == DEFAULT_SCALE) ==> !SketchesDisturbed(a, b, c)
  {
    hide MergeView, DownscaleView, Harmless, Stored, MergeValue;
    if c.Some? {
      IntoNew(c.value);
      if b.Some? {
        IntoNew(b.value);
        if a.Some? { ThreeAssociate(a.value, b.value, c.value); } else { FirstIsNew(b.value, c.value); }
      }
    }
  }

  lemma NormalAssociates(a: Option<Value>, b: Option<Value>, c: Option<Value>)
    requires NormalSketch(a) && NormalSketch(b) && NormalSketch(c)
    ensures MergeSketch(MergeSketch(a, b), c) == MergeSketch(a, MergeSketch(b, c))
  {
    hide MergeSketch, SketchesDisturbed, Few;
    SketchAssociates(a, b, c);
  }

  lemma ThreeAssociate(a: Value, b: Value, c: Value)
    requires MergedSketch(Some(a)) && MergedSketch(Some(b)) && MergedSketch(Some(c))
    ensures !SketchesDisturbed(Some(a), Some(b), Some(c)) ==>
              MergeValue(MergeValue(a, b), c) == MergeValue(a, MergeValue(b, c))
    ensures Few(Some(a), Some(b), Some(c)) && SketchesDisturbed(Some(a), Some(b), Some(c)) ==>
              MergeValue(MergeValue(a, b), c) != MergeValue(a, MergeValue(b, c))
  {
    hide MergeView, DownscaleView, Harmless, Stored;
    if c.count > 0 {
      if b.count == 0 {
        MergeAroundEmptyExactly(a, b, c);
      } else if a.count == 0 {
        FirstIsNew(b, c);
      } else {
        Scales.MergeAssociatesExactly(a, b, c);
      }
    }
  }

  lemma FirstIsNew(b: Value, c: Value)
    requires MergedSketch(Some(b)) && MergedSketch(Some(c))
    ensures MergeValue(MergeValue(NEW_SKETCH, b), c) == MergeValue(NEW_SKETCH, MergeValue(b, c))
  {
    hide MergeView, DownscaleView;
    IntoNew(b);
    if c.count > 0 && b.count > 0 {
      MergeValid(b.view, c.view);
      IntoNewMerged(b, c);
    } else {
      IntoNew(c);
    }
  }

  lemma IntoNewMerged(b: Value, c: Value)
    requires b.Valid() && c.Valid() && c.count > 0 && b.scale <= DEFAULT_SCALE && c.scale <= DEFAULT_SCALE
    ensures MergeValue(NEW_SKETCH, MergeValue(b, c)) == MergeValue(b, c)
  {
    hide MergeView;
    Scales.MergedValid(b, c);
    MergeIntoEmpty(MergeValue(b, c).view);
  }

  // ---------------------------------------------------------------------------------------
  // The algebra of merging, and exactly where it stops.

  lemma RangesCommute(a: Range, b: Range)
    requires NormalRange(a) && NormalRange(b)
    ensures MergeRange(a, b) == MergeRange(b, a)
  {
  }

  lemma RangesAssociate(a: Range, b: Range, c: Range)
    requires NormalRange(a) && NormalRange(b) && NormalRange(c)
    ensures MergeRange(MergeRange(a, b), c) == MergeRange(a, MergeRange(b, c))
  {
  }

  lemma ReasonsAgree(a: nat, b: nat, c: nat)
    ensures MergeReason(a, b) == MergeReason(b, a)
    ensures MergeReason(MergeReason(a, b), c) == MergeReason(a, MergeReason(b, c))
    ensures MergeReason(a, b) == 0 <==> a == 0 && b == 0
    ensures MergeReason(a, b) in {a, b} && (a != 0 ==> MergeReason(a, b) <= a) && (b != 0 ==> MergeReason(a, b) <= b)
  {
  }

  lemma JoinCommutes(a: Hist, b: Hist)
    requires NormalHist(a) && NormalHist(b)
    ensures JoinHist(a, b) == JoinHist(b, a)
  {
    ReasonsAgree(a.flags.reason, b.flags.reason, 0);
  }

  lemma JoinAssociates(a: Hist, b: Hist, c: Hist)
    requires NormalHist(a) && NormalHist(b) && NormalHist(c)
    ensures JoinHist(JoinHist(a, b), c) == JoinHist(a, JoinHist(b, c))
  {
    ReasonsAgree(a.flags.reason, b.flags.reason, c.flags.reason);
  }

  lemma JoinNormal(a: Hist, b: Hist)
    requires NormalHist(a) && NormalHist(b)
    ensures NormalHist(JoinHist(a, b))
    ensures Silent(JoinHist(a, b)) <==> Silent(a) && Silent(b)
    ensures Silent(b) && b.sum == 0.0 ==> JoinHist(a, b) == a
    ensures Silent(b) && b.sum != 0.0 ==> JoinHist(a, b) != a
    ensures Silent(b) ==> b == NO_HIST.(sum := b.sum)
  {
  }

  /** Folding order is immaterial to the histogram part unless one side is skipped and takes an
      amount with it that the other order keeps. */
  lemma HistsCommuteExactly(a: Hist, b: Hist)
    requires NormalHist(a) && NormalHist(b)
    ensures MergeHist(a, b) == MergeHist(b, a)
      <==> (if Silent(a) && Silent(b) then a.sum == b.sum else !LosesSum(a) && !LosesSum(b))
  {
    hide JoinHist;
    JoinCommutes(a, b);
    JoinNormal(a, b);
    JoinNormal(b, a);
  }

  lemma HistsAssociateExactly(a: Hist, b: Hist, c: Hist)
    requires NormalHist(a) && NormalHist(b) && NormalHist(c)
    ensures MergeHist(MergeHist(a, b), c) == MergeHist(a, MergeHist(b, c)) <==> !(LosesSum(b) && !Silent(c))
  {
    hide JoinHist;
    JoinAssociates(a, b, c);
    JoinNormal(b, c);
    JoinNormal(a, b);
    if LosesSum(b) && !Silent(c) { SilentSumKept(a, b, c); }
  }

  lemma SilentSumKept(a: Hist, b: Hist, c: Hist)
    requires b.sum != 0.0
    ensures JoinHist(a, JoinHist(b, c)).sum != JoinHist(a, c).sum
  {
  }

  /** Folding two deltas either way gives the same exactly when no two gauge samples of one time
      disagree and no skipped histogram part carries an amount. */
  lemma MergeCommutesExactly(a: Delta, b: Delta)
    requires Mergeable(a) && Mergeable(b)
    ensures Merge(a, b) == Merge(b, a) <==>
      && !Tie(a.latest, b.latest)
      && (if Silent(a.hist) && Silent(b.hist) then a.hist.sum == b.hist.sum else !LosesSum(a.hist) && !LosesSum(b.hist))
  {
    hide MergeSketch, MergeHist, MergeRange, Silent;
    RangesCommute(a.duration, b.duration);
    RangesCommute(a.gauge, b.gauge);
    HistsCommuteExactly(a.hist, b.hist);
    SketchCommutes(a.sketch, b.sketch);
  }

  /** Grouping never matters, except that a skipped histogram part in the middle loses its amount
      under one grouping only, and that sketches of different scales may be collapsed by it. */
  lemma MergeAssociatesExactly(a: Delta, b: Delta, c: Delta)
    requires Mergeable(a) && Mergeable(b) && Mergeable(c)
    ensures !SketchesDisturbed(a.sketch, b.sketch, c.sketch) || Few(a.sketch, b.sketch, c.sketch) ==>
              (Merge(Merge(a, b), c) == Merge(a, Merge(b, c))
               <==> !(LosesSum(b.hist) && !Silent(c.hist)) && !SketchesDisturbed(a.sketch, b.sketch, c.sketch))
    ensures Normal(a) && Normal(b) && Normal(c) ==> !SketchesDisturbed(a.sketch, b.sketch, c.sketch)
  {
    hide MergeSketch, MergeHist, Silent, LosesSum, SketchesDisturbed, Few;
    RangesAssociate(a.duration, b.duration, c.duration);
    RangesAssociate(a.gauge, b.gauge, c.gauge);
    HistsAssociateExactly(a.hist, b.hist, c.hist);
    SketchAssociates(a.sketch, b.sketch, c.sketch);
  }

  lemma SketchOnly(s: Option<Value>)
    requires MergedSketch(s)
    ensures MergeSketch(None, s) == s
  {
    hide MergeView;
    if s.Some? { IntoNew(s.value); }
  }

  /** Folding nothing changes nothing; folding into nothing keeps all but a skipped amount. */
  lemma ZeroIsNeutralExactly(d: Delta)
    requires Mergeable(d)
    ensures Merge(d, ZERO) == d
    ensures Merge(ZERO, d) == d <==> !LosesSum(d.hist)
  {
    hide JoinHist, MergeSketch, NormalSketch, MergeRange, Silent;
    SketchOnly(d.sketch);
    RangesCommute(d.duration, NO_RANGE);
    RangesCommute(d.gauge, NO_RANGE);
    NoneOf(d);
  }

  lemma NoneOf(d: Delta)
    requires NormalHist(d.hist)
    ensures MergeHist(d.hist, NO_HIST) == d.hist && (MergeHist(NO_HIST, d.hist) == d.hist <==> !LosesSum(d.hist))
    ensures MergeRange(d.duration, NO_RANGE) == d.duration && MergeRange(d.gauge, NO_RANGE) == d.gauge
    ensures MergeSketch(d.sketch, None) == d.sketch
  {
    JoinNormal(NO_HIST, d.hist);
    JoinCommutes(NO_HIST, d.hist);
    JoinNormal(d.hist, NO_HIST);
  }

  // ---------------------------------------------------------------------------------------
  // Splitting a run of observations.

  lemma SingleIsNormal(gamma: real, x: real)
    requires gamma > 1.0
    ensures NormalSketch(Some(Single(gamma, x))) && Single(gamma, x).count == 1
  {
    if x > 0.0 { FirstStores(EMPTY, Index(gamma, x), 1); }
  }

  /** Observing a value is merging the sketch it makes alone. */
  lemma ObserveIsMerge(v: Value, gamma: real, x: real)
    requires gamma > 1.0 && v.Valid() && v.scale == DEFAULT_SCALE
    ensures ObserveValue(v, gamma, x) == MergeValue(v, Single(gamma, x))
  {
    if x > 0.0 {
      AddIsMerge(v.view, Obs(Index(gamma, x), 1));
    } else {
      MergeNothing(v.view);
    }
  }

  lemma MergeNothing(v: View)
    ensures MergeView(v, EMPTY) == v
  {
    assert Cells(EMPTY, 0) == [];
  }

  /** What an observation leaves of the sketch is what merging its own sketch leaves. */
  lemma SketchStep(gamma: real, d: Delta, o: Observation)
    requires gamma > 1.0 && NormalSketch(d.sketch) && NormalObservation(o)
    ensures NormalSketch(SketchOf(gamma, o))
    ensures Observe(gamma, d, o).sketch == MergeSketch(d.sketch, SketchOf(gamma, o))
  {
    hide Index, MergeView;
    if o.Span? {
      SingleIsNormal(gamma, o.micros);
      ObserveIsMerge(if d.sketch.Some? then d.sketch.value else NEW_SKETCH, gamma, o.micros);
    }
  }

  lemma ObserveNormal(gamma: real, d: Delta, o: Observation)
    requires gamma > 1.0 && Normal(d) && NormalObservation(o)
    ensures Normal(Observe(gamma, d, o))
  {
    hide MergeSketch, JoinHist, ObserveValue, NormalSketch;
    SketchStep(gamma, d, o);
    SketchValid(d.sketch, SketchOf(gamma, o));
    if o.Histogram? { JoinNormal(d.hist, o.fold); }
  }

  lemma {:induction false} ObserveEachNormal(gamma: real, os: seq<Observation>)
    requires gamma > 1.0 && forall o :: o in os ==> NormalObservation(o)
    ensures Normal(ObserveEach(gamma, os))
  {
    hide NormalObservation, Observe, Normal;
    if os == [] {
      ZeroIsNormal();
    } else {
      ObserveEachNormal(gamma, os[..|os| - 1]);
      ObserveNormal(gamma, ObserveEach(gamma, os[..|os| - 1]), os[|os| - 1]);
    }
  }

  lemma ZeroIsNormal()
    ensures Normal(ZERO)
  {
  }

  /** The later of two samples, the second of two as late. */
  function Later(a: Latest, b: Latest): Latest {
    if b.Never? then a else if a.Never? || b.time >= a.time then b else a
  }

  /** What observing a second run after a first one leaves. */
  function Together(a: Delta, b: Delta): Delta {
    Delta(AddCounts(a.counts, b.counts), MergeRange(a.duration, b.duration), MergeRange(a.gauge, b.gauge),
          Later(a.latest, b.latest), JoinHist(a.hist, b.hist), MergePeriod(a.logs, b.logs), MergeSketch(a.sketch, b.sketch))
  }

  lemma TogetherSimple(a: Delta, b: Delta, x: real, t: int)
    requires NormalRange(b.duration) && NormalRange(b.gauge)
    ensures MergeRange(a.duration, Widened(b.duration, x)) == Widened(MergeRange(a.duration, b.duration), x)
    ensures MergeRange(a.gauge, Widened(b.gauge, x)) == Widened(MergeRange(a.gauge, b.gauge), x)
    ensures Later(a.latest, Sampled(b.latest, t, x)) == Sampled(Later(a.latest, b.latest), t, x)
    ensures MergePeriod(a.logs, MergePeriod(b.logs, Seen(t, t))) == MergePeriod(MergePeriod(a.logs, b.logs), Seen(t, t))
  {
  }

  lemma TogetherStep(gamma: real, a: Delta, b: Delta, o: Observation)
    requires gamma > 1.0 && Normal(a) && Normal(b) && NormalObservation(o)
    ensures Together(a, Observe(gamma, b, o)) == Observe(gamma, Together(a, b), o)
  {
    hide MergeSketch, JoinHist, ObserveValue, NormalSketch, MergeRange, Later, Sampled, Widened, MergePeriod,
         MergeFlags;
    var both := Together(a, b);
    SketchValid(a.sketch, b.sketch);
    SketchStep(gamma, b, o);
    SketchStep(gamma, both, o);
    NormalAssociates(a.sketch, b.sketch, SketchOf(gamma, o));
    match o {
      case Span(x, _, _) => TogetherSimple(a, b, x, 0);
      case Log(t, _) => TogetherSimple(a, b, 0.0, t);
      case Gauge(x, t) => TogetherSimple(a, b, x, t);
      case Counter(_, _) =>
      case Histogram(f, _) => JoinAssociates(a.hist, b.hist, f);
    }
  }

  lemma {:induction false} WholeIsTogether(gamma: real, g: seq<Observation>, h: seq<Observation>)
    requires gamma > 1.0
    requires forall o :: o in g + h ==> NormalObservation(o)
    ensures ObserveEach(gamma, g + h) == Together(ObserveEach(gamma, g), ObserveEach(gamma, h))
  {
    hide Observe, Together, NormalObservation, Normal;
    assert forall o :: o in g ==> o in g + h;
    ObserveEachNormal(gamma, g);
    if h == [] {
      assert g + h == g;
      TogetherNothing(ObserveEach(gamma, g));
    } else {
      var init, o := h[..|h| - 1], h[|h| - 1];
      assert (g + h)[..|g + h| - 1] == g + init && (g + h)[|g + h| - 1] == o;
      assert forall x :: x in g + init ==> x in g + h;
      assert forall x :: x in init ==> x in g + h;
      WholeIsTogether(gamma, g, init);
      ObserveEachNormal(gamma, init);
      assert o in g + h;
      TogetherStep(gamma, ObserveEach(gamma, g), ObserveEach(gamma, init), o);
    }
  }

  lemma TogetherNothing(d: Delta)
    requires Normal(d)
    ensures Together(d, ZERO) == d
  {
    hide JoinHist, NormalSketch;
    JoinNormal(d.hist, NO_HIST);
  }

  /** Splitting a run of observations in two and merging the two deltas is the same as observing
      it whole, exactly when the second part is not skipped with an amount in it and its last
      gauge sample does not contradict one of the same time. */
  lemma PartitionIsWholeExactly(gamma: real, g: seq<Observation>, h: seq<Observation>)
    requires gamma > 1.0
    requires forall o :: o in g + h ==> NormalObservation(o)
    ensures
      var a, b := ObserveEach(gamma, g), ObserveEach(gamma, h);
      Merge(a, b) == ObserveEach(gamma, g + h) <==> !LosesSum(b.hist) && !Tie(a.latest, b.latest)
  {
    hide Observe, ObserveEach, JoinHist, MergeSketch, MergeRange, NormalSketch, NormalObservation, Silent;
    assert forall o :: o in g ==> o in g + h;
    assert forall o :: o in h ==> o in g + h;
    ObserveEachNormal(gamma, g);
    ObserveEachNormal(gamma, h);
    WholeIsTogether(gamma, g, h);
    JoinOrMerge(ObserveEach(gamma, g).hist, ObserveEach(gamma, h).hist);
  }

  lemma JoinOrMerge(a: Hist, b: Hist)
    requires NormalHist(a) && NormalHist(b)
    ensures MergeHist(a, b) == JoinHist(a, b) <==> !LosesSum(b)
  {
    JoinNormal(a, b);
  }

  lemma OnlyOne(gamma: real, o: Observation)
    requires gamma > 1.0
    ensures ObserveEach(gamma, [o]) == Observe(gamma, ZERO, o) && ObserveEach(gamma, []) == ZERO
  {
    hide Observe;
    assert [o][..0] == [];
  }

  lemma EmptyPointHist(gamma: real, sum: real, s: Option<Value>)
    requires gamma > 1.0
    ensures Observe(gamma, ZERO, Histogram(NO_HIST.(sum := sum), s)).hist == NO_HIST.(sum := sum)
  {
    hide MergeSketch, AddCounts;
  }

  /** A histogram point may count nothing and still report a sum: observing it keeps the sum, and
      merging the delta it makes loses it. */
  lemma EmptyPointLosesItsSum(gamma: real, sum: real)
    requires gamma > 1.0 && sum != 0.0
    ensures
      var o := Histogram(NO_HIST.(sum := sum), Some(NEW_SKETCH));
      && NormalObservation(o)
      && ObserveEach(gamma, [o]).hist.sum == sum
      && Merge(ObserveEach(gamma, []), ObserveEach(gamma, [o])).hist.sum == 0.0
  {
    hide Observe, ObserveEach, MergeSketch, MergeRange, AddCounts, MergePeriod, MergeLatest, JoinHist;
    OnlyOne(gamma, Histogram(NO_HIST.(sum := sum), Some(NEW_SKETCH)));
    EmptyPointHist(gamma, sum, Some(NEW_SKETCH));
  }

  // ---------------------------------------------------------------------------------------
  // What the extremes are.

  function Durations(os: seq<Observation>): seq<real> {
    if os == [] then []
    else Durations(os[..|os| - 1]) + if os[|os| - 1].Span? then [os[|os| - 1].micros] else []
  }

  function Samples(os: seq<Observation>): seq<real> {
    if os == [] then []
    else Samples(os[..|os| - 1]) + if os[|os| - 1].Gauge? then [os[|os| - 1].value] else []
  }

  function SumOf(xs: seq<real>): real { if xs == [] then 0.0 else SumOf(xs[..|xs| - 1]) + xs[|xs| - 1] }

  ghost predicate Describes(r: Range, xs: seq<real>) {
    && r.n == |xs| && r.sum == SumOf(xs)
    && (forall x :: x in xs ==> r.min <= x <= r.max)
    && (xs != [] ==> r.min in xs && r.max in xs)
  }

  /** The latest sample is the last one of the latest time. */
  ghost predicate IsLatest(l: Latest, os: seq<Observation>) {
    match l
    case Never => forall i :: 0 <= i < |os| ==> !os[i].Gauge?
    case At(t, x) =>
      exists i :: 0 <= i < |os| && os[i] == Gauge(x, t)
        && forall j :: 0 <= j < |os| && os[j].Gauge? ==> os[j].time <= t && (i < j ==> os[j].time < t)
  }

  /** The period runs from the earliest log to the latest. */
  ghost predicate IsPeriod(p: Period, os: seq<Observation>) {
    match p
    case Unseen => forall o :: o in os ==> !o.Log?
    case Seen(first, last) =>
      && (forall o :: o in os && o.Log? ==> first <= o.time <= last)
      && (exists o :: o in os && o.Log? && o.time == first)
      && exists o :: o in os && o.Log? && o.time == last
  }

  lemma ObservedParts(gamma: real, d: Delta, o: Observation)
    requires gamma > 1.0
    ensures var n := Observe(gamma, d, o);
            && n.duration == (if o.Span? then Widened(d.duration, o.micros) else d.duration)
            && n.gauge == (if o.Gauge? then Widened(d.gauge, o.value) else d.gauge)
            && n.latest == (if o.Gauge? then Sampled(d.latest, o.time, o.value) else d.latest)
            && n.logs == if o.Log? then MergePeriod(d.logs, Seen(o.time, o.time)) else d.logs
  {
    hide MergeSketch, ObserveValue, JoinHist, AddCounts, CountsOf, Widened, Sampled, MergePeriod;
  }

  /** Durations and gauge samples are counted and added up, and their extremes kept; the latest
      sample and the period of the logs are those of the observations. */
  lemma {:induction false} ObservedIsDescribed(gamma: real, os: seq<Observation>)
    requires gamma > 1.0
    ensures var d := ObserveEach(gamma, os);
            && Describes(d.duration, Durations(os)) && Describes(d.gauge, Samples(os))
            && IsLatest(d.latest, os) && IsPeriod(d.logs, os)
  {
    hide Observe, Describes, IsLatest, IsPeriod, Widened, Sampled, MergePeriod;
    if os == [] {
      NothingIsDescribed();
    } else {
      var init, o := os[..|os| - 1], os[|os| - 1];
      var d := ObserveEach(gamma, init);
      ObservedIsDescribed(gamma, init);
      ObservedParts(gamma, d, o);
      assert os == init + [o];
      if o.Span? { WidenedDescribes(d.duration, Durations(init), o.micros); }
      if o.Gauge? { WidenedDescribes(d.gauge, Samples(init), o.value); }
      assert Durations(init) + [] == Durations(init) && Samples(init) + [] == Samples(init);
      LatestStep(d.latest, init, o);
      PeriodStep(d.logs, init, o);
    }
  }

  lemma NothingIsDescribed()
    ensures Describes(NO_RANGE, []) && IsLatest(Never, []) && IsPeriod(Unseen, [])
  {
  }

  lemma WidenedDescribes(r: Range, xs: seq<real>, x: real)
    requires Describes(r, xs)
    ensures Describes(Widened(r, x), xs + [x])
  {
    assert (xs + [x])[..|xs|] == xs;
    assert x in xs + [x];
    assert forall y :: y in xs + [x] <==> y in xs || y == x;
  }

  lemma LatestStep(l: Latest, os: seq<Observation>, o: Observation)
    requires IsLatest(l, os)
    ensures IsLatest(if o.Gauge? then Sampled(l, o.time, o.value) else l, os + [o])
  {
    var n := os + [o];
    assert n[|os|] == o;
    if l.At? {
      var i :| 0 <= i < |os| && os[i] == Gauge(l.value, l.time)
        && forall j :: 0 <= j < |os| && os[j].Gauge? ==> os[j].time <= l.time && (i < j ==> os[j].time < l.time);
      assert n[i] == Gauge(l.value, l.time);
    }
  }

  lemma PeriodStep(p: Period, os: seq<Observation>, o: Observation)
    requires IsPeriod(p, os)
    ensures IsPeriod(if o.Log? then MergePeriod(p, Seen(o.time, o.time)) else p, os + [o])
  {
    assert o in os + [o];
    assert forall x :: x in os + [o] <==> x in os || x == o;
  }

  // ---------------------------------------------------------------------------------------
  // What the counts count and what the histogram part keeps.

  predicate IsError(o: Observation) { (o.Span? || o.Log?) && o.isError }

  predicate IsRequest(o: Observation) { o.Span? && o.isRequest }

  function Where(os: seq<Observation>, holds: Observation -> bool): set<nat> {
    set i: nat | i < |os| && holds(os[i])
  }

  lemma WhereLast(os: seq<Observation>, o: Observation, holds: Observation -> bool)
    ensures |Where(os + [o], holds)| == |Where(os, holds)| + Bit(holds(o))
  {
    assert Where(os + [o], holds) == Where(os, holds) + if holds(o) then {|os|} else {};
  }

  lemma ObserveCounts(gamma: real, d: Delta, o: Observation)
    requires gamma > 1.0
    ensures Observe(gamma, d, o).counts == AddCounts(d.counts, CountsOf(o))
  {
    hide MergeSketch, ObserveValue, JoinHist, AddCounts, CountsOf, Widened, Sampled, MergePeriod;
  }

  lemma {:induction false} CountsStep(gamma: real, os: seq<Observation>)
    requires gamma > 1.0
    ensures var last := |os| - 1;
            ObserveEach(gamma, os).counts
            == if os == [] then ZERO.counts
               else AddCounts(ObserveEach(gamma, os[..last]).counts, CountsOf(os[last]))
  {
    hide Observe, AddCounts, CountsOf;
    if os != [] { ObserveCounts(gamma, ObserveEach(gamma, os[..|os| - 1]), os[|os| - 1]); }
  }

  /** Every count is of the observations that are what it counts: errors are the failed spans and
      the logs of error severity alike. */
  lemma {:induction false} CountsAreExact(gamma: real, os: seq<Observation>)
    requires gamma > 1.0
    ensures var c := ObserveEach(gamma, os).counts;
            && c.points == |os|
            && c.errors == |Where(os, IsError)|
            && c.requests == |Where(os, IsRequest)|
            && c.errorRequests == |Where(os, o => IsError(o) && IsRequest(o))|
            && c.resets == |Where(os, (o: Observation) => o.Counter? && o.reset)|
            && c.logs == |Where(os, (o: Observation) => o.Log?)|
  {
    hide ObserveEach, Where;
    CountsStep(gamma, os);
    if os == [] {
      NoneWhere();
    } else {
      var init, o := os[..|os| - 1], os[|os| - 1];
      CountsAreExact(gamma, init);
      assert os == init + [o];
      WhereLast(init, o, IsError);
      WhereLast(init, o, IsRequest);
      WhereLast(init, o, o => IsError(o) && IsRequest(o));
      WhereLast(init, o, (o: Observation) => o.Counter? && o.reset);
      WhereLast(init, o, (o: Observation) => o.Log?);
    }
  }

  lemma NoneWhere()
    ensures forall holds: Observation -> bool :: Where([], holds) == {}
  {
  }

  function Folds(os: seq<Observation>): set<Hist> { set o | o in os && o.Histogram? :: o.fold }

  /** A bound is reported when some point reports one, and is the least or the greatest of those
      reported; the source error is the worst of all. */
  ghost predicate HistDescribes(h: Hist, fs: set<Hist>) {
    && (h.flags.tail <==> exists f :: f in fs && f.flags.tail)
    && (h.flags.hasMin <==> exists f :: f in fs && f.flags.hasMin)
    && (h.flags.hasMax <==> exists f :: f in fs && f.flags.hasMax)
    && (forall f :: f in fs && f.flags.tail ==> h.tailBound <= f.tailBound)
    && (forall f :: f in fs && f.flags.hasMin ==> h.min <= f.min)
    && (forall f :: f in fs && f.flags.hasMax ==> h.max >= f.max)
    && (h.flags.tail ==> exists f :: f in fs && f.flags.tail && f.tailBound == h.tailBound)
    && (h.flags.hasMin ==> exists f :: f in fs && f.flags.hasMin && f.min == h.min)
    && (h.flags.hasMax ==> exists f :: f in fs && f.flags.hasMax && f.max == h.max)
    && (forall f :: f in fs ==> h.sourceError >= f.sourceError)
    && (h.sourceError == 0.0 || exists f :: f in fs && f.sourceError == h.sourceError)
  }

  lemma JoinDescribes(h: Hist, fs: set<Hist>, f: Hist)
    requires HistDescribes(h, fs) && h.sourceError >= 0.0 && f.sourceError >= 0.0
    ensures HistDescribes(JoinHist(h, f), fs + {f}) && JoinHist(h, f).sourceError >= 0.0
  {
    assert f in fs + {f};
  }

  lemma {:induction false} HistogramsAreDescribed(gamma: real, os: seq<Observation>)
    requires gamma > 1.0 && forall o :: o in os ==> NormalObservation(o)
    ensures HistDescribes(ObserveEach(gamma, os).hist, Folds(os)) && ObserveEach(gamma, os).hist.sourceError >= 0.0
  {
    hide MergeSketch, ObserveValue, JoinHist, HistDescribes;
    if os == [] {
      NothingDescribes();
    } else {
      var init, o := os[..|os| - 1], os[|os| - 1];
      assert os == init + [o];
      assert o in os;
      HistogramsAreDescribed(gamma, init);
      if o.Histogram? {
        JoinDescribes(ObserveEach(gamma, init).hist, Folds(init), o.fold);
        assert Folds(os) == Folds(init) + {o.fold};
      } else {
        assert Folds(os) == Folds(init);
      }
    }
  }

  lemma NothingDescribes()
    ensures HistDescribes(NO_HIST, {}) && Folds([]) == {}
  {
  }
}
