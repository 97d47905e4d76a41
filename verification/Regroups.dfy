/**
 Reading sketches back in groups. A range read folds every candidate sketch into one probe
 first; if that lost nothing, each group's sketch is exact and any other grouping of the same
 observations gives the same answer. Otherwise the original rows are returned one by one.
 */
module Regroups {
  import opened SketchSpec

  /** Nothing is lost by putting these observations in one window: they span no more buckets than
      it has, and no bucket overflows its counter. */
  ghost predicate Lossless(h: seq<Obs>) {
    h == [] || (MaxIndex(h) - MinIndex(h) < MAX_BINS && forall k :: CountAt(h, k) <= MAX_COUNT)
  }

  /** A window under construction, and whether a counter has been clamped on the way. */
  datatype Tracked = Tracked(view: View, saturated: bool)

  const FRESH := Tracked(EMPTY, false)

  /** One more run of observations would clamp a counter of the window. */
  predicate Overflows(v: View, i: int, n: nat) {
    if v.cells == [] then n > MAX_COUNT
    else
      var hi := Max(v.Hi(), i);
      var lo := Max(Min(v.lo, i), hi - MAX_BINS + 1);
      exists k :: lo <= k <= hi && Mass(v, k, lo) + (if Max(i, lo) == k then n else 0) > MAX_COUNT
  }

  function Observe(t: Tracked, o: Obs): Tracked {
    Tracked(AddView(t.view, o.index, o.n), t.saturated || Overflows(t.view, o.index, o.n))
  }

  function RunAll(t: Tracked, h: seq<Obs>): Tracked {
    if h == [] then t else Observe(RunAll(t, h[..|h| - 1]), h[|h| - 1])
  }

  // ---------------------------------------------------------------------------------------
  // The flags tell exactly whether something was lost.

  lemma {:induction false} RunAllView(t: Tracked, h: seq<Obs>)
    ensures RunAll(t, h).view == Run(t.view, h)
  {
    if h != [] { RunAllView(t, h[..|h| - 1]); }
  }

  lemma {:induction false} RunAllConcat(t: Tracked, g: seq<Obs>, h: seq<Obs>)
    ensures RunAll(t, g + h) == RunAll(RunAll(t, g), h)
  {
    if h == [] {
      assert g + h == g;
    } else {
      assert (g + h)[..|g + h| - 1] == g + h[..|h| - 1];
      RunAllConcat(t, g, h[..|h| - 1]);
    }
  }

  /** A lossless history's window holds every bucket's exact population. */
  lemma LosslessIsExact(h: seq<Obs>)
    requires Positive(h) && Lossless(h)
    ensures !Canonical(h).collapsed
    ensures forall k :: Canonical(h).At(k) == CountAt(h, k)
  {
    if h != [] {
      var v := Canonical(h);
      CanonicalShape(h);
      forall k ensures v.At(k) == CountAt(h, k) {
        NothingBelow(h, k);
        NothingBelow(h, v.lo - 1);
        CountOutside(h, k);
      }
    }
  }

  lemma LosslessPrefix(g: seq<Obs>, o: Obs)
    requires Lossless(g + [o])
    ensures Lossless(g)
  {
    if g != [] {
      CountAppend(g, o, 0);
      forall k ensures CountAt(g, k) <= MAX_COUNT { CountAppend(g, o, k); }
    }
  }

  lemma CollapsedStays(g: seq<Obs>, o: Obs)
    requires Positive(g) && Canonical(g).collapsed
    ensures Canonical(g + [o]).collapsed
  {
    CountAppend(g, o, 0);
  }

  /** What each bucket of the window would hold after one more run, before clamping. */
  lemma MassIsCount(g: seq<Obs>, o: Obs, k: int)
    requires g != [] && Positive(g) && o.n > 0 && Lossless(g)
    requires MaxIndex(g + [o]) - MinIndex(g + [o]) < MAX_BINS
    requires MinIndex(g + [o]) <= k <= MaxIndex(g + [o])
    ensures Mass(Canonical(g), k, MinIndex(g + [o])) + (if o.index == k then o.n else 0) == CountAt(g + [o], k)
  {
    hide Lossless, CountAt, CountUpTo;
    CountAppend(g, o, k);
    LosslessIsExact(g);
    CanonicalShape(g);
    var v := Canonical(g);
    if k == MinIndex(g + [o]) {
      UpToStep(v, k);
      UpToStep(v, k - 1);
    }
  }

  lemma OverflowsExactly(g: seq<Obs>, o: Obs)
    requires g != [] && Positive(g) && o.n > 0 && Lossless(g)
    requires MaxIndex(g + [o]) - MinIndex(g + [o]) < MAX_BINS
    ensures Overflows(Canonical(g), o.index, o.n) <==> !Lossless(g + [o])
  {
    hide Mass, CountAt, CountUpTo;
    var v, h := Canonical(g), g + [o];
    CanonicalShape(g);
    CountAppend(g, o, 0);
    var lo, hi := MinIndex(h), MaxIndex(h);
    assert Max(v.Hi(), o.index) == hi && Max(Min(v.lo, o.index), hi - MAX_BINS + 1) == lo && Max(o.index, lo) == o.index;
    forall k | lo <= k <= hi
      ensures Mass(v, k, lo) + (if Max(o.index, lo) == k then o.n else 0) == CountAt(h, k)
    {
      MassIsCount(g, o, k);
    }
    forall k | !(lo <= k <= hi) ensures CountAt(h, k) == 0 {
      CountAppend(g, o, k);
      NothingBelow(h, k);
    }
  }

  /** After any observations, the window is neither collapsed nor saturated exactly when it holds
      them all. */
  lemma {:induction false} FlagsAreExact(h: seq<Obs>)
    requires Positive(h)
    ensures var t := RunAll(FRESH, h); t.view == Canonical(h) && (!t.saturated && !t.view.collapsed <==> Lossless(h))
  {
    RunAllView(FRESH, h);
    ObservationsGiveCanonical(h);
    if h != [] {
      var g, o := h[..|h| - 1], h[|h| - 1];
      assert h == g + [o];
      FlagsAreExact(g);
      FlagsStep(g, o);
    }
  }

  lemma FlagsStep(g: seq<Obs>, o: Obs)
    requires Positive(g) && o.n > 0
    requires var t := RunAll(FRESH, g); t.view == Canonical(g) && (!t.saturated && !t.view.collapsed <==> Lossless(g))
    ensures var t := Observe(RunAll(FRESH, g), o);
            t.view == Canonical(g + [o]) && (!t.saturated && !t.view.collapsed <==> Lossless(g + [o]))
  {
    hide RunAll, Overflows, AddView;
    AddKeepsCanonical(g, o);
    if !Lossless(g) {
      if Lossless(g + [o]) { LosslessPrefix(g, o); }
      if Canonical(g).collapsed { CollapsedStays(g, o); }
    } else if g == [] {
      FirstFlags(o);
    } else {
      CountAppend(g, o, 0);
      IndexBounds(g + [o]);
      if MaxIndex(g + [o]) - MinIndex(g + [o]) < MAX_BINS { OverflowsExactly(g, o); }
    }
  }

  lemma FirstFlags(o: Obs)
    ensures [] + [o] == [o]
    ensures Overflows(EMPTY, o.index, o.n) <==> !Lossless([o])
    ensures !Canonical([o]).collapsed
  {
    forall k ensures CountAt([o], k) == if o.index == k then o.n else 0 {
      assert [o][..0] == [];
    }
    assert CountAt([o], o.index) == o.n;
  }

  // ---------------------------------------------------------------------------------------
  // Any part of a lossless history is lossless.

  ghost predicate Within(g: seq<Obs>, h: seq<Obs>) {
    (forall o :: o in g ==> o in h) && forall k :: CountAt(g, k) <= CountAt(h, k)
  }

  lemma WithinLossless(g: seq<Obs>, h: seq<Obs>)
    requires Within(g, h) && Lossless(h)
    ensures Lossless(g)
  {
    if g != [] {
      assert g[0] in h;
      IndexBounds(g);
      IndexBounds(h);
      var i :| 0 <= i < |g| && g[i].index == MaxIndex(g);
      var j :| 0 <= j < |g| && g[j].index == MinIndex(g);
      assert g[i] in h && g[j] in h;
    }
  }

  // ---------------------------------------------------------------------------------------
  // Rows.

  /** What a sketch of the default scale holds: its window, all it counted, and the zeros among it. */
  datatype Held = Held(view: View, count: nat, zeros: nat)

  const NEW := Held(EMPTY, 0, 0)

  /** b merged into a; a sketch that counted nothing is passed over. */
  function Join(a: Held, b: Held): Held {
    if b.count == 0 then a else Held(MergeView(a.view, b.view), a.count + b.count, a.zeros + b.zeros)
  }

  /** A stored sketch and the service it belongs to. */
  datatype Row = Row(service: nat, scale: nat, held: Held, saturated: bool) {
    predicate Acceptable() { scale == DEFAULT_SCALE && !held.view.collapsed && !saturated }

    /** What decoding guarantees: the zeros and the bins are part of the count. */
    ghost predicate Valid() { held.view.Valid() && (held.count == 0 ==> held.zeros == 0 && held.view.cells == []) }
  }

  datatype Visit = Visit(service: nat, held: Held)

  function CellsIn(v: View): seq<Obs> { Cells(v, |v.cells|) }

  /** Every stored cell of the rows. */
  function AllCells(rows: seq<Row>): seq<Obs> {
    if rows == [] then [] else AllCells(rows[..|rows| - 1]) + CellsIn(rows[|rows| - 1].held.view)
  }

  /** The stored cells of one service's rows. */
  function CellsFor(rows: seq<Row>, id: nat): seq<Obs> {
    if rows == [] then []
    else CellsFor(rows[..|rows| - 1], id) + if rows[|rows| - 1].service == id then CellsIn(rows[|rows| - 1].held.view) else []
  }

  /** Everything one service's rows counted, and the zeros among it. */
  function CountFor(rows: seq<Row>, id: nat): nat {
    if rows == [] then 0
    else CountFor(rows[..|rows| - 1], id) + if rows[|rows| - 1].service == id then rows[|rows| - 1].held.count else 0
  }

  function ZerosFor(rows: seq<Row>, id: nat): nat {
    if rows == [] then 0
    else ZerosFor(rows[..|rows| - 1], id) + if rows[|rows| - 1].service == id then rows[|rows| - 1].held.zeros else 0
  }

  /** What one service's rows hold together. */
  function HeldFor(rows: seq<Row>, id: nat): Held {
    Held(Canonical(CellsFor(rows, id)), CountFor(rows, id), ZerosFor(rows, id))
  }

  function Services(rows: seq<Row>): set<nat> { set r | r in rows :: r.service }

  ghost predicate AllValid(rows: seq<Row>) { forall r :: r in rows ==> r.Valid() }

  /** The candidates may be regrouped. */
  ghost predicate Safe(rows: seq<Row>) { (forall r :: r in rows ==> r.Acceptable()) && Lossless(AllCells(rows)) }

  lemma {:induction false} CellsArePositive(rows: seq<Row>, id: nat)
    ensures Positive(AllCells(rows)) && Positive(CellsFor(rows, id))
  {
    if rows != [] {
      CellsArePositive(rows[..|rows| - 1], id);
      CellsIndexes(rows[|rows| - 1].held.view, |rows[|rows| - 1].held.view.cells|);
    }
  }

  lemma {:induction false} GroupWithin(rows: seq<Row>, id: nat)
    ensures Within(CellsFor(rows, id), AllCells(rows))
  {
    if rows != [] {
      var more, last := rows[..|rows| - 1], rows[|rows| - 1];
      GroupWithin(more, id);
      WithinAppend(CellsFor(more, id), AllCells(more), CellsIn(last.held.view));
      assert CellsFor(more, id) + [] == CellsFor(more, id);
    }
  }

  lemma WithinAppend(g: seq<Obs>, h: seq<Obs>, more: seq<Obs>)
    requires Within(g, h)
    ensures Within(g, h + more) && Within(g + more, h + more)
  {
    hide CountAt;
    forall k ensures CountAt(g, k) <= CountAt(h + more, k) && CountAt(g + more, k) <= CountAt(h + more, k) {
      CountConcat(g, more, k);
      CountConcat(h, more, k);
    }
  }

  /** One more row for a group already folded. */
  lemma GroupStep(rows: seq<Row>, r: Row, id: nat)
    requires AllValid(rows) && r.Valid() && !r.held.view.collapsed
    ensures CellsFor(rows + [r], id) == CellsFor(rows, id) + if r.service == id then CellsIn(r.held.view) else []
    ensures AllCells(rows + [r]) == AllCells(rows) + CellsIn(r.held.view)
    ensures MergeView(Canonical(CellsFor(rows, id)), r.held.view) == Canonical(CellsFor(rows, id) + CellsIn(r.held.view))
    ensures MergeView(EMPTY, r.held.view) == Canonical(CellsIn(r.held.view))
  {
    hide Canonical, Run;
    assert (rows + [r])[..|rows|] == rows;
    CellsArePositive(rows, id);
    CellsIndexes(r.held.view, |r.held.view.cells|);
    RunFromCanonical(CellsFor(rows, id), CellsIn(r.held.view));
    ObservationsGiveCanonical(CellsIn(r.held.view));
    NoFlag(Canonical(CellsFor(rows, id)));
    NoFlag(EMPTY);
  }

  lemma NoFlag(v: View)
    ensures v.Flag(false) == v
  {
  }

  /** The probe after one more row. */
  lemma ProbeStep(rows: seq<Row>, r: Row)
    requires r.Valid() && !r.held.view.collapsed
    ensures AllCells(rows + [r]) == AllCells(rows) + CellsIn(r.held.view)
    ensures RunAll(RunAll(FRESH, AllCells(rows)), CellsIn(r.held.view)) == RunAll(FRESH, AllCells(rows + [r]))
  {
    assert (rows + [r])[..|rows|] == rows;
    RunAllConcat(FRESH, AllCells(rows), CellsIn(r.held.view));
  }

  /** Once something is lost, more rows do not bring it back. */
  lemma {:induction false} UnsafeStays(rows: seq<Row>, n: nat)
    requires n <= |rows| && !Safe(rows[..n])
    ensures !Safe(rows)
    decreases |rows|
  {
    if n < |rows| {
      var most, last := rows[..|rows| - 1], rows[|rows| - 1];
      assert most[..n] == rows[..n];
      UnsafeStays(most, n);
      if Safe(rows) {
        assert AllCells(most) + [] == AllCells(most);
        WithinAppend(AllCells(most), AllCells(most), CellsIn(last.held.view));
        WithinLossless(AllCells(most), AllCells(rows));
      }
    } else {
      assert rows[..n] == rows;
    }
  }

  /** What a group's folded sketch holds when all candidates together lose nothing. */
  lemma GroupsAreExact(rows: seq<Row>, id: nat)
    requires Safe(rows)
    ensures !HeldFor(rows, id).view.collapsed
    ensures forall k :: HeldFor(rows, id).view.At(k) == CountAt(CellsFor(rows, id), k)
  {
    GroupWithin(rows, id);
    WithinLossless(CellsFor(rows, id), AllCells(rows));
    CellsArePositive(rows, id);
    LosslessIsExact(CellsFor(rows, id));
  }

  /** The state of the fold after some rows: one sketch for each service seen. */
  ghost predicate Folded(rows: seq<Row>, sketches: map<nat, Held>, order: seq<nat>) {
    && sketches.Keys == Services(rows)
    && (forall id :: id in sketches ==> sketches[id] == HeldFor(rows, id))
    && (forall id :: id in order <==> id in sketches)
    && (forall i, j :: 0 <= i < j < |order| ==> order[i] != order[j])
  }

  lemma {:induction false} NothingElsewhere(rows: seq<Row>, id: nat)
    requires id !in Services(rows)
    ensures CellsFor(rows, id) == [] && CountFor(rows, id) == 0 == ZerosFor(rows, id)
  {
    if rows != [] {
      assert rows[|rows| - 1] in rows;
      NothingElsewhere(rows[..|rows| - 1], id);
    }
  }

  /** What a service's rows hold, one row later. */
  lemma HeldStep(rows: seq<Row>, r: Row, id: nat)
    requires AllValid(rows) && r.Valid() && !r.held.view.collapsed
    ensures HeldFor(rows + [r], id) == if r.service == id then Join(HeldFor(rows, id), r.held) else HeldFor(rows, id)
    ensures r.service == id && id !in Services(rows) ==> HeldFor(rows + [r], id) == Join(NEW, r.held)
  {
    hide Canonical, MergeView, CellsFor;
    GroupStep(rows, r, id);
    assert (rows + [r])[..|rows|] == rows;
    assert CellsFor(rows, id) + [] == CellsFor(rows, id);
    if r.held.count == 0 { NothingMerged(r.held.view); }
    if id !in Services(rows) {
      NothingElsewhere(rows, id);
      EmptyCanonical();
    }
  }

  lemma EmptyCanonical()
    ensures Canonical([]) == EMPTY
  {
  }

  lemma NothingMerged(v: View)
    requires v.cells == []
    ensures CellsIn(v) == []
  {
  }

  lemma FoldedStep(rows: seq<Row>, r: Row, sketches: map<nat, Held>, order: seq<nat>)
    requires AllValid(rows) && r.Valid() && !r.held.view.collapsed && Folded(rows, sketches, order)
    ensures r.service in sketches ==> Folded(rows + [r], sketches[r.service := Join(sketches[r.service], r.held)], order)
    ensures r.service !in sketches ==> Folded(rows + [r], sketches[r.service := Join(NEW, r.held)], order + [r.service])
  {
    hide HeldFor, Join;
    var base := if r.service in sketches then sketches[r.service] else NEW;
    var next := sketches[r.service := Join(base, r.held)];
    assert Services(rows + [r]) == Services(rows) + {r.service} by {
      assert (rows + [r])[|rows|] == r;
      assert forall x :: x in rows + [r] <==> x in rows || x == r;
    }
    forall id | id in next ensures next[id] == HeldFor(rows + [r], id) { HeldStep(rows, r, id); }
  }

  lemma FoldedNothing()
    ensures Folded([], map[], []) && RunAll(FRESH, AllCells([])) == FRESH && Safe([])
  {
  }

  /** The candidates stay safe with one more row exactly when the row is acceptable and the probe
      comes through it unharmed. */
  lemma SafeStep(rows: seq<Row>, r: Row)
    requires Safe(rows) && r.Valid()
    ensures !r.Acceptable() ==> !Safe(rows + [r])
    ensures r.Acceptable() ==>
      var probe := RunAll(RunAll(FRESH, AllCells(rows)), CellsIn(r.held.view));
      && probe == RunAll(FRESH, AllCells(rows + [r]))
      && (Safe(rows + [r]) <==> !probe.saturated && !probe.view.collapsed)
  {
    hide RunAll, AllCells, Lossless;
    assert r in rows + [r];
    if r.Acceptable() {
      ProbeStep(rows, r);
      CellsArePositive(rows + [r], 0);
      FlagsAreExact(AllCells(rows + [r]));
    }
  }

  /** Streams a range's sketches by service. Safe candidates are folded, one exact sketch per
      service in the order the services appear; otherwise every original row is passed on. */
  method VisitSketches(candidates: seq<Row>, originals: seq<Row>) returns (visits: seq<Visit>)
    requires AllValid(candidates)
    ensures !Safe(candidates) ==> |visits| == |originals|
    ensures !Safe(candidates) ==>
      forall i :: 0 <= i < |originals| ==> visits[i] == Visit(originals[i].service, originals[i].held)
    ensures Safe(candidates) ==> forall i, j :: 0 <= i < j < |visits| ==> visits[i].service != visits[j].service
    ensures Safe(candidates) ==> (set x | x in visits :: x.service) == Services(candidates)
    ensures Safe(candidates) ==> forall i :: 0 <= i < |visits| ==>
      && !visits[i].held.view.collapsed
      && visits[i].held.count == CountFor(candidates, visits[i].service)
      && visits[i].held.zeros == ZerosFor(candidates, visits[i].service)
      && forall k :: visits[i].held.view.At(k) == CountAt(CellsFor(candidates, visits[i].service), k)
  {
    hide Join, RunAll, HeldFor, AllCells, CellsFor, CountFor, ZerosFor, CountAt, Safe, Folded, Services, View.At;
    FoldedNothing();
    var probe := FRESH;
    var sketches: map<nat, Held> := map[];
    var order: seq<nat> := [];
    var n := 0;
    while n < |candidates|
      invariant 0 <= n <= |candidates|
      invariant probe == RunAll(FRESH, AllCells(candidates[..n])) && Safe(candidates[..n])
      invariant Folded(candidates[..n], sketches, order)
    {
      var r := candidates[n];
      assert candidates[..n + 1] == candidates[..n] + [r];
      SafeStep(candidates[..n], r);
      var safe := r.Acceptable();
      if safe {
        FoldedStep(candidates[..n], r, sketches, order);
        probe := RunAll(probe, CellsIn(r.held.view));
        safe := !probe.saturated && !probe.view.collapsed;
      }
      if !safe {
        UnsafeStays(candidates, n + 1);
        visits := PassOn(originals);
        return;
      }
      if r.service in sketches {
        sketches := sketches[r.service := Join(sketches[r.service], r.held)];
      } else {
        sketches, order := sketches[r.service := Join(NEW, r.held)], order + [r.service];
      }
      n := n + 1;
    }
    assert candidates[..n] == candidates;
    visits := Emit(candidates, sketches, order);
  }

  method PassOn(originals: seq<Row>) returns (visits: seq<Visit>)
    ensures |visits| == |originals|
    ensures forall i :: 0 <= i < |originals| ==> visits[i] == Visit(originals[i].service, originals[i].held)
  {
    visits := [];
    for i := 0 to |originals|
      invariant |visits| == i
      invariant forall j :: 0 <= j < i ==> visits[j] == Visit(originals[j].service, originals[j].held)
    {
      visits := visits + [Visit(originals[i].service, originals[i].held)];
    }
  }

  method Emit(rows: seq<Row>, sketches: map<nat, Held>, order: seq<nat>) returns (visits: seq<Visit>)
    requires Folded(rows, sketches, order) && Safe(rows)
    ensures forall i, j :: 0 <= i < j < |visits| ==> visits[i].service != visits[j].service
    ensures (set x | x in visits :: x.service) == Services(rows)
    ensures forall i :: 0 <= i < |visits| ==>
      && !visits[i].held.view.collapsed
      && visits[i].held.count == CountFor(rows, visits[i].service)
      && visits[i].held.zeros == ZerosFor(rows, visits[i].service)
      && forall k :: visits[i].held.view.At(k) == CountAt(CellsFor(rows, visits[i].service), k)
  {
    hide Safe, Canonical, CellsFor, CountAt, CountFor, ZerosFor;
    visits := [];
    for i := 0 to |order|
      invariant |visits| == i
      invariant forall j :: 0 <= j < i ==> visits[j] == Visit(order[j], HeldFor(rows, order[j]))
    {
      visits := visits + [Visit(order[i], sketches[order[i]])];
    }
    forall i | 0 <= i < |visits|
      ensures !visits[i].held.view.collapsed
        && forall k :: visits[i].held.view.At(k) == CountAt(CellsFor(rows, visits[i].service), k)
    {
      GroupsAreExact(rows, order[i]);
    }
    forall id | id in Services(rows) ensures id in set x | x in visits :: x.service {
      var j :| 0 <= j < |order| && order[j] == id;
      assert visits[j] in visits;
    }
  }

  // ---------------------------------------------------------------------------------------
  // Grouping does not matter.

  /** A run of observations: zeros, or values of one bucket. */
  datatype Seen = Zero(n: nat) | Binned(o: Obs) {
    function Size(): nat { if Zero? then n else o.n }
  }

  function Bucketed(h: seq<Seen>): seq<Obs> {
    if h == [] then [] else Bucketed(h[..|h| - 1]) + if h[|h| - 1].Binned? then [h[|h| - 1].o] else []
  }

  function CountOf(h: seq<Seen>): nat { if h == [] then 0 else CountOf(h[..|h| - 1]) + h[|h| - 1].Size() }

  function ZerosOf(h: seq<Seen>): nat {
    if h == [] then 0 else ZerosOf(h[..|h| - 1]) + if h[|h| - 1].Zero? then h[|h| - 1].n else 0
  }

  predicate NoEmptyRun(h: seq<Seen>) { forall x :: x in h ==> x.Size() > 0 }

  /** The sketch that has seen a history. */
  function HeldOf(h: seq<Seen>): Held { Held(Canonical(Bucketed(h)), CountOf(h), ZerosOf(h)) }

  function Flatten(groups: seq<seq<Seen>>): seq<Seen> {
    if groups == [] then [] else Flatten(groups[..|groups| - 1]) + groups[|groups| - 1]
  }

  /** The sketches of the groups, folded one after another. */
  function FoldGroups(groups: seq<seq<Seen>>): Held {
    if groups == [] then NEW else Join(FoldGroups(groups[..|groups| - 1]), HeldOf(groups[|groups| - 1]))
  }

  lemma {:induction false} SeenConcat(g: seq<Seen>, h: seq<Seen>)
    ensures Bucketed(g + h) == Bucketed(g) + Bucketed(h)
    ensures CountOf(g + h) == CountOf(g) + CountOf(h) && ZerosOf(g + h) == ZerosOf(g) + ZerosOf(h)
  {
    if h == [] {
      assert g + h == g;
      assert Bucketed(g) + [] == Bucketed(g);
    } else {
      assert (g + h)[..|g + h| - 1] == g + h[..|h| - 1];
      SeenConcat(g, h[..|h| - 1]);
    }
  }

  lemma {:induction false} SeenPositive(h: seq<Seen>)
    requires NoEmptyRun(h)
    ensures Positive(Bucketed(h)) && (CountOf(h) == 0 ==> h == [])
  {
    if h != [] {
      assert h[|h| - 1] in h;
      SeenPositive(h[..|h| - 1]);
    }
  }

  lemma SeenRemove(a: seq<Seen>, x: Seen, b: seq<Seen>)
    ensures multiset(Bucketed(a + [x] + b)) == multiset(Bucketed(a + b)) + multiset(Bucketed([x]))
    ensures CountOf(a + [x] + b) == CountOf(a + b) + CountOf([x]) && ZerosOf(a + [x] + b) == ZerosOf(a + b) + ZerosOf([x])
  {
    hide Bucketed, CountOf, ZerosOf;
    SeenConcat(a, b);
    SeenConcat(a + [x], b);
    SeenConcat(a, [x]);
    var p, q, r := Bucketed(a), Bucketed([x]), Bucketed(b);
    assert multiset(p + q + r) == multiset(p + r) + multiset(q);
  }

  lemma SameRest(more: seq<Seen>, a: seq<Seen>, b: seq<Seen>, x: Seen)
    requires multiset(more + [x] + []) == multiset(a + [x] + b)
    ensures multiset(more) == multiset(a + b)
  {
    assert multiset(more) == multiset(more + [x] + []) - multiset{x};
    assert multiset(a + b) == multiset(a + [x] + b) - multiset{x};
  }

  /** The last run of one order, and where it is in the other. */
  lemma LastRun(g: seq<Seen>, h: seq<Seen>) returns (a: seq<Seen>, b: seq<Seen>)
    requires g != [] && multiset(g) == multiset(h)
    ensures h == a + [g[|g| - 1]] + b && multiset(g[..|g| - 1]) == multiset(a + b)
  {
    var x := g[|g| - 1];
    assert x in multiset(g) && x in h;
    var j :| 0 <= j < |h| && h[j] == x;
    a, b := h[..j], h[j + 1..];
    assert g == g[..|g| - 1] + [x] + [] && h == a + [x] + b;
    SameRest(g[..|g| - 1], a, b, x);
  }

  /** The same runs in another order count the same. */
  lemma {:induction false} SeenPermute(g: seq<Seen>, h: seq<Seen>)
    requires multiset(g) == multiset(h)
    ensures multiset(Bucketed(g)) == multiset(Bucketed(h)) && CountOf(g) == CountOf(h) && ZerosOf(g) == ZerosOf(h)
    decreases |g|
  {
    hide Bucketed, CountOf, ZerosOf;
    if g == [] {
      assert |multiset(h)| == 0;
    } else {
      var a, b := LastRun(g, h);
      var more, x := g[..|g| - 1], g[|g| - 1];
      SeenPermute(more, a + b);
      SeenRemove(more, x, []);
      SeenRemove(a, x, b);
      assert more + [x] + [] == g && more + [] == more;
    }
  }

  lemma {:induction false} FoldGroupsIs(groups: seq<seq<Seen>>)
    requires forall g :: g in groups ==> NoEmptyRun(g)
    requires Lossless(Bucketed(Flatten(groups)))
    ensures NoEmptyRun(Flatten(groups)) && FoldGroups(groups) == HeldOf(Flatten(groups))
  {
    hide Lossless, Canonical;
    if groups == [] {
      EmptyCanonical();
    } else {
      var most, last := groups[..|groups| - 1], groups[|groups| - 1];
      assert last in groups;
      var g, h := Flatten(most), last;
      SeenConcat(g, h);
      PartsLossless(Bucketed(g), Bucketed(h));
      FoldGroupsIs(most);
      SeenPositive(g);
      SeenPositive(h);
      MergeOfHistories(Bucketed(g), Bucketed(h));
      if CountOf(h) == 0 { assert Bucketed(g) + [] == Bucketed(g); }
    }
  }

  lemma PartsLossless(g: seq<Obs>, h: seq<Obs>)
    requires Lossless(g + h)
    ensures Lossless(g) && Lossless(h)
  {
    forall k ensures CountAt(g, k) <= CountAt(g + h, k) && CountAt(h, k) <= CountAt(g + h, k) { CountConcat(g, h, k); }
    WithinLossless(g, g + h);
    WithinLossless(h, g + h);
  }

  /** If everything together loses nothing, then any two ways of splitting it into sketches fold
      back to the same sketch, with every bucket's exact population and the exact totals. */
  lemma RegroupingIsLossless(groups: seq<seq<Seen>>, others: seq<seq<Seen>>)
    requires forall g :: g in groups ==> NoEmptyRun(g)
    requires forall g :: g in others ==> NoEmptyRun(g)
    requires multiset(Flatten(groups)) == multiset(Flatten(others)) && Lossless(Bucketed(Flatten(groups)))
    ensures FoldGroups(groups) == FoldGroups(others) && !FoldGroups(groups).view.collapsed
    ensures forall k :: FoldGroups(groups).view.At(k) == CountAt(Bucketed(Flatten(groups)), k)
    ensures FoldGroups(groups).count == CountOf(Flatten(groups)) && FoldGroups(groups).zeros == ZerosOf(Flatten(groups))
  {
    var g, h := Bucketed(Flatten(groups)), Bucketed(Flatten(others));
    SeenPermute(Flatten(groups), Flatten(others));
    forall k ensures CountAt(h, k) <= CountAt(g, k) { CountPermute(g, h, k); }
    forall o | o in h ensures o in g { assert o in multiset(h); assert o in multiset(g); }
    WithinLossless(h, g);
    FoldGroupsIs(groups);
    FoldGroupsIs(others);
    SeenPositive(Flatten(groups));
    SeenPositive(Flatten(others));
    CanonicalPermute(g, h);
    LosslessIsExact(g);
  }
}
