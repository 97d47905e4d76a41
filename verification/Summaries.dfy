/**
 Service summaries: a second derived level, built over complete hourly rollups.

 A summary's marker carries its own token and the token of the rollup it was built from. Nothing
 invalidates it directly: it is current only while its source token is still the complete
 rollup's. A builder clears, reads and writes in slices, each checked against both tokens; a
 cleaner deletes under a token of its own. Series are numbered in the order a builder visits
 them, in which the series of one group are next to each other.
 */
module Summaries {
  import opened Options
  import opened CellTables
  import opened Rollups

  // ---------------------------------------------------------------------------------------
  // What a summary must equal.

  /** Groups are contiguous in the order of the visit. */
  ghost predicate Contiguous(g: nat -> nat) { forall a: nat, b: nat :: a <= b ==> g(a) <= g(b) }

  /** What the first n series give to one group in an hour. */
  function PartSum(t: Cells, h: int, g: nat -> nat, k: nat, n: nat): multiset<nat> {
    if n == 0 then multiset{}
    else PartSum(t, h, g, k, n - 1) + if g(n - 1) == k then At(t, Cell(h, n - 1)) else multiset{}
  }

  ghost predicate HasPart(t: Cells, h: int, g: nat -> nat, k: nat, n: nat) {
    exists s: nat :: s < n && Cell(h, s) in t && g(s) == k
  }

  /** The summary rows of an hour are exactly the group sums of its first n series. */
  ghost predicate Grouped(cells: Cells, t: Cells, h: int, g: nat -> nat, n: nat) {
    forall k: nat {:trigger Cell(h, k)} ::
      && (Cell(h, k) in cells <==> HasPart(t, h, g, k, n))
      && (Cell(h, k) in cells ==> cells[Cell(h, k)] == PartSum(t, h, g, k, n))
  }

  // ---------------------------------------------------------------------------------------
  // Consuming series in order.

  /** A builder between two series: the group it is adding up, and the rows it has finished. */
  datatype Cursor = Cursor(after: int, group: Option<nat>, have: bool, acc: multiset<nat>, pending: Cells)

  const BEGIN := Cursor(-1, None, false, multiset{}, map[])

  function Flush(c: Cursor, h: int): Cursor {
    Cursor(c.after, None, false, multiset{},
           if c.group.Some? && c.have then c.pending[Cell(h, c.group.value) := c.acc] else c.pending)
  }

  function Consume(c: Cursor, t: Cells, h: int, g: nat -> nat, s: nat): Cursor {
    var d := if c.group == Some(g(s)) then c else Flush(c, h);
    Cursor(s, Some(g(s)), d.have || Cell(h, s) in t, d.acc + At(t, Cell(h, s)), d.pending)
  }

  /** Every series after the cursor and before n. */
  function ConsumeTo(c: Cursor, t: Cells, h: int, g: nat -> nat, series: set<nat>, n: nat): Cursor {
    if n == 0 || n - 1 <= c.after then c
    else
      var d := ConsumeTo(c, t, h, g, series, n - 1);
      if n - 1 in series then Consume(d, t, h, g, n - 1) else d
  }

  /** The finished rows: every group with a row but the one being added up. */
  ghost predicate ClosedOk(cells: Cells, c: Cursor, t: Cells, h: int, g: nat -> nat, n: nat) {
    forall k: nat {:trigger Cell(h, k)} ::
      && (Cell(h, k) in cells <==> c.group != Some(k) && HasPart(t, h, g, k, n))
      && (Cell(h, k) in cells ==> cells[Cell(h, k)] == PartSum(t, h, g, k, n))
  }

  /** The group being added up is the last one reached. */
  ghost predicate OpenOk(c: Cursor, t: Cells, h: int, g: nat -> nat, n: nat) {
    match c.group
    case None => forall k: nat :: !HasPart(t, h, g, k, n)
    case Some(k) =>
      && (c.have <==> HasPart(t, h, g, k, n)) && c.acc == PartSum(t, h, g, k, n)
      && (exists s: nat :: s < n && g(s) == k)
      && forall s: nat :: s < n && Cell(h, s) in t ==> g(s) <= k
  }

  /** What a cursor has made of the first n series. */
  ghost predicate ReadOk(cells: Cells, c: Cursor, t: Cells, h: int, g: nat -> nat, n: nat) {
    ClosedOk(cells, c, t, h, g, n) && OpenOk(c, t, h, g, n)
  }

  lemma PartStep(t: Cells, h: int, g: nat -> nat, k: nat, s: nat)
    ensures HasPart(t, h, g, k, s + 1) <==> HasPart(t, h, g, k, s) || (g(s) == k && Cell(h, s) in t)
    ensures PartSum(t, h, g, k, s + 1) == PartSum(t, h, g, k, s) + if g(s) == k then At(t, Cell(h, s)) else multiset{}
  {
  }

  lemma {:induction false} NoPartNoSum(t: Cells, h: int, g: nat -> nat, k: nat, n: nat)
    requires !HasPart(t, h, g, k, n)
    ensures PartSum(t, h, g, k, n) == multiset{}
  {
    if n > 0 {
      PartStep(t, h, g, k, n - 1);
      NoPartNoSum(t, h, g, k, n - 1);
    }
  }

  lemma SkipStep(t: Cells, h: int, g: nat -> nat, k: nat, s: nat)
    requires Cell(h, s) !in t
    ensures HasPart(t, h, g, k, s + 1) <==> HasPart(t, h, g, k, s)
    ensures PartSum(t, h, g, k, s + 1) == PartSum(t, h, g, k, s)
  {
    PartStep(t, h, g, k, s);
    assert PartSum(t, h, g, k, s) + multiset{} == PartSum(t, h, g, k, s);
  }

  /** A series that has no row in the hour changes nothing. */
  lemma SkipOk(cells: Cells, c: Cursor, t: Cells, h: int, g: nat -> nat, s: nat)
    requires ReadOk(cells, c, t, h, g, s) && Cell(h, s) !in t
    ensures ReadOk(cells, c, t, h, g, s + 1)
  {
    hide PartSum, HasPart;
    forall k: nat
      ensures HasPart(t, h, g, k, s + 1) <==> HasPart(t, h, g, k, s)
      ensures PartSum(t, h, g, k, s + 1) == PartSum(t, h, g, k, s)
    {
      SkipStep(t, h, g, k, s);
    }
    if c.group.None? {
      var n: nat := s + 1;
      forall k: nat ensures !HasPart(t, h, g, k, n) {
        SkipStep(t, h, g, k, s);
      }
    } else {
      SkipStep(t, h, g, c.group.value, s);
      var q: nat :| q < s && g(q) == c.group.value;
      assert q < s + 1;
    }
  }

  /** Finishing a group writes its sum, if it has any row. */
  lemma FlushOk(cells: Cells, c: Cursor, t: Cells, h: int, g: nat -> nat, n: nat)
    requires ReadOk(cells + c.pending, c, t, h, g, n)
    ensures Grouped(cells + Flush(c, h).pending, t, h, g, n)
  {
    hide PartSum, HasPart;
    var d := Flush(c, h);
    forall k: nat {:trigger Cell(h, k)}
      ensures Cell(h, k) in cells + d.pending <==> HasPart(t, h, g, k, n)
      ensures Cell(h, k) in cells + d.pending ==> (cells + d.pending)[Cell(h, k)] == PartSum(t, h, g, k, n)
    {
      assert Cell(h, k) in cells + c.pending <==> c.group != Some(k) && HasPart(t, h, g, k, n);
      assert Cell(h, k) in cells + c.pending ==> (cells + c.pending)[Cell(h, k)] == PartSum(t, h, g, k, n);
    }
  }

  /** The next series starts a new group, or goes on with the one being added up. */
  lemma ConsumeOk(cells: Cells, c: Cursor, t: Cells, h: int, g: nat -> nat, s: nat)
    requires Contiguous(g) && ReadOk(cells + c.pending, c, t, h, g, s)
    ensures var d := Consume(c, t, h, g, s); ReadOk(cells + d.pending, d, t, h, g, s + 1)
  {
    var d := Consume(c, t, h, g, s);
    if c.group == Some(g(s)) {
      SameGroup(cells, c, t, h, g, s);
    } else {
      FlushOk(cells, c, t, h, g, s);
      NewGroup(cells + d.pending, c, t, h, g, s);
      NextGroup(cells, Flush(c, h).pending, t, h, g, s);
    }
  }

  lemma SameGroup(cells: Cells, c: Cursor, t: Cells, h: int, g: nat -> nat, s: nat)
    requires ReadOk(cells + c.pending, c, t, h, g, s) && c.group == Some(g(s))
    ensures var d := Consume(c, t, h, g, s); ReadOk(cells + d.pending, d, t, h, g, s + 1)
  {
    hide PartSum, HasPart;
    forall k: nat
      ensures HasPart(t, h, g, k, s + 1) <==> HasPart(t, h, g, k, s) || (g(s) == k && Cell(h, s) in t)
      ensures PartSum(t, h, g, k, s + 1) == PartSum(t, h, g, k, s) + if g(s) == k then At(t, Cell(h, s)) else multiset{}
    {
      PartStep(t, h, g, k, s);
    }
    forall k: nat | k != g(s) ensures PartSum(t, h, g, k, s + 1) == PartSum(t, h, g, k, s) {
      assert PartSum(t, h, g, k, s) + multiset{} == PartSum(t, h, g, k, s);
    }
  }

  /** The group of a series that changes the group has had no row before. */
  lemma NewGroup(cells: Cells, c: Cursor, t: Cells, h: int, g: nat -> nat, s: nat)
    requires Contiguous(g) && c.group != Some(g(s))
    requires c.group.Some? ==> exists q: nat :: q < s && g(q) == c.group.value
    requires c.group.None? ==> !HasPart(t, h, g, g(s), s)
    requires c.group.Some? ==> forall q: nat :: q < s && Cell(h, q) in t ==> g(q) <= c.group.value
    ensures !HasPart(t, h, g, g(s), s)
  {
    if c.group.Some? {
      var q: nat :| q < s && g(q) == c.group.value;
      assert g(q) <= g(s);
    }
  }

  lemma NextGroup(cells: Cells, pending: Cells, t: Cells, h: int, g: nat -> nat, s: nat)
    requires Contiguous(g) && Grouped(cells + pending, t, h, g, s) && !HasPart(t, h, g, g(s), s)
    ensures ReadOk(cells + pending, Cursor(s, Some(g(s)), Cell(h, s) in t, multiset{} + At(t, Cell(h, s)), pending), t, h, g, s + 1)
  {
    hide PartSum, HasPart;
    NoPartNoSum(t, h, g, g(s), s);
    forall k: nat
      ensures HasPart(t, h, g, k, s + 1) <==> HasPart(t, h, g, k, s) || (g(s) == k && Cell(h, s) in t)
      ensures PartSum(t, h, g, k, s + 1) == PartSum(t, h, g, k, s) + if g(s) == k then At(t, Cell(h, s)) else multiset{}
    {
      PartStep(t, h, g, k, s);
    }
    forall k: nat | k != g(s) ensures PartSum(t, h, g, k, s + 1) == PartSum(t, h, g, k, s) {
      assert PartSum(t, h, g, k, s) + multiset{} == PartSum(t, h, g, k, s);
    }
  }

  /** Reading on from a cursor keeps what it has made, whatever series have no row in the hour. */
  lemma {:induction false} ConsumeToOk(cells: Cells, c: Cursor, t: Cells, h: int, g: nat -> nat, series: set<nat>,
                                       n: nat)
    requires Contiguous(g) && -1 <= c.after && c.after + 1 <= n
    requires forall s: nat :: Cell(h, s) in t ==> s in series
    requires ReadOk(cells + c.pending, c, t, h, g, c.after + 1)
    ensures var d := ConsumeTo(c, t, h, g, series, n); ReadOk(cells + d.pending, d, t, h, g, n)
  {
    hide ReadOk, Consume, Contiguous;
    if c.after < n - 1 {
      ConsumeToOk(cells, c, t, h, g, series, n - 1);
      var d := ConsumeTo(c, t, h, g, series, n - 1);
      if n - 1 in series {
        ConsumeOk(cells, d, t, h, g, n - 1);
      } else {
        SkipOk(cells + d.pending, d, t, h, g, n - 1);
      }
    }
  }

  // ---------------------------------------------------------------------------------------
  // States and events.

  datatype Stage =
    | Cleaning
    | Reading(cursor: Cursor)
    | Flushing(cursor: Cursor, last: bool)
    | Ended

  datatype SummaryBuilder = SummaryBuilder(hour: int, source: nat, stage: Stage)

  datatype Cleaner = Cleaner(hour: int, source: nat)

  /** States: 1 being built, 2 complete, 3 being deleted, 4 complete but not for sums. */
  datatype SummaryMark = SummaryMark(state: nat, token: nat, source: nat)

  datatype Layers = Layers(
    base: World, summary: Cells, smarks: map<int, SummaryMark>,
    sbuilders: map<nat, SummaryBuilder>, cleaners: map<nat, Cleaner>, snext: nat)

  datatype Move =
    | Below(e: Event)
    | ClaimSummary(hour: int)
    | CleanSlice(token: nat, gone: set<Cell>)
    | ReadSlice(token: nat, upTo: nat)
    | ReadEnd(token: nat)
    | WriteSlice(token: nat, exact: bool)
    | ClaimCleanup(hour: int)
    | CleanupSlice(token: nat, gone: set<Cell>)

  /** The token of the complete rollup of an hour, 0 when there is none. */
  function SourceToken(w: World, h: int): nat { if h in w.marks && w.marks[h].state == 2 then w.marks[h].token else 0 }

  predicate Finished(w: Layers, h: int) {
    h in w.smarks && (w.smarks[h].state == 2 || w.smarks[h].state == 4)
  }

  /** Complete, and built from the rollup that is complete now. */
  predicate Current(w: Layers, h: int) {
    Finished(w, h) && h in w.base.marks && w.base.marks[h] == Mark(2, w.smarks[h].source)
  }

  predicate SummaryLive(w: Layers, t: nat)
    requires t in w.sbuilders
  {
    var b := w.sbuilders[t];
    && b.hour in w.smarks && w.smarks[b.hour] == SummaryMark(1, t, b.source)
    && b.hour in w.base.marks && w.base.marks[b.hour] == Mark(2, b.source)
  }

  predicate Batched(gone: set<Cell>, all: set<Cell>) {
    gone <= all && (|gone| == BATCH || (|gone| < BATCH && gone == all))
  }

  predicate Ready(w: Layers, m: Move) {
    match m
    case Below(e) => Enabled(w.base, e)
    case ClaimSummary(h) => h in w.base.marks && w.base.marks[h].state == 2 && !Current(w, h)
    case CleanSlice(t, gone) =>
      t in w.sbuilders && w.sbuilders[t].stage.Cleaning? && Batched(gone, HourCells(w.summary, w.sbuilders[t].hour))
    case ReadSlice(t, upTo) =>
      t in w.sbuilders && w.sbuilders[t].stage.Reading? && upTo > w.sbuilders[t].stage.cursor.after && upTo in w.base.series
    case ReadEnd(t) =>
      && t in w.sbuilders && w.sbuilders[t].stage.Reading?
      && forall s :: s in w.base.series ==> s <= w.sbuilders[t].stage.cursor.after
    case WriteSlice(t, _) => t in w.sbuilders && w.sbuilders[t].stage.Flushing?
    case ClaimCleanup(h) => true
    case CleanupSlice(t, gone) => t in w.cleaners && Batched(gone, HourCells(w.summary, w.cleaners[t].hour))
  }

  function Onward(w: Layers, t: nat, stage: Stage): Layers
    requires t in w.sbuilders
  {
    w.(sbuilders := w.sbuilders[t := SummaryBuilder(w.sbuilders[t].hour, w.sbuilders[t].source, stage)])
  }

  function Written(w: Layers, t: nat, exact: bool): Layers
    requires t in w.sbuilders && w.sbuilders[t].stage.Flushing?
  {
    var b := w.sbuilders[t];
    var c := b.stage.cursor;
    var v := w.(summary := w.summary + c.pending);
    if b.stage.last then
      Onward(v.(smarks := v.smarks[b.hour := SummaryMark(if exact then 2 else 4, t, b.source)]), t, Ended)
    else
      Onward(v, t, Reading(Cursor(c.after, c.group, c.have, c.acc, map[])))
  }

  function Swept(w: Layers, t: nat, gone: set<Cell>): Layers
    requires t in w.cleaners
  {
    var h := w.cleaners[t].hour;
    if !(h in w.smarks && w.smarks[h] == SummaryMark(3, t, w.cleaners[t].source) && SourceToken(w.base, h) == w.cleaners[t].source) then w
    else if |gone| < BATCH then w.(summary := w.summary - gone, smarks := w.smarks - {h})
    else w.(summary := w.summary - gone)
  }

  function Next(w: Layers, g: nat -> nat, m: Move): Layers
    requires Ready(w, m)
  {
    match m
    case Below(e) => w.(base := Step(w.base, e))
    case ClaimSummary(h) =>
      var source := w.base.marks[h].token;
      w.(smarks := w.smarks[h := SummaryMark(1, w.snext, source)],
         sbuilders := w.sbuilders[w.snext := SummaryBuilder(h, source, Cleaning)], snext := w.snext + 1)
    case CleanSlice(t, gone) =>
      if !SummaryLive(w, t) then Onward(w, t, Ended)
      else Onward(w.(summary := w.summary - gone), t, if |gone| < BATCH then Reading(BEGIN) else Cleaning)
    case ReadSlice(t, upTo) =>
      var b := w.sbuilders[t];
      if !SummaryLive(w, t) then Onward(w, t, Ended)
      else Onward(w, t, Flushing(ConsumeTo(b.stage.cursor, w.base.hourly, b.hour, g, w.base.series, upTo + 1), false))
    case ReadEnd(t) =>
      var b := w.sbuilders[t];
      if !SummaryLive(w, t) then Onward(w, t, Ended)
      else Onward(w, t, Flushing(Flush(b.stage.cursor, b.hour), true))
    case WriteSlice(t, exact) => if !SummaryLive(w, t) then Onward(w, t, Ended) else Written(w, t, exact)
    case ClaimCleanup(h) =>
      w.(smarks := w.smarks[h := SummaryMark(3, w.snext, SourceToken(w.base, h))],
         cleaners := w.cleaners[w.snext := Cleaner(h, SourceToken(w.base, h))], snext := w.snext + 1)
    case CleanupSlice(t, gone) => Swept(w, t, gone)
  }

  // ---------------------------------------------------------------------------------------
  // The invariant.

  /** The summary rows of an hour are the group sums of all its hourly rows. */
  ghost predicate Summarized(w: Layers, g: nat -> nat, h: int) {
    forall n: nat :: (forall s: nat :: Cell(h, s) in w.base.hourly ==> s < n) ==> Grouped(w.summary, w.base.hourly, h, g, n)
  }

  /** What the builder that owns an hour's summary has done so far. */
  ghost predicate StageOk(w: Layers, g: nat -> nat, h: int, stage: Stage) {
    match stage
    case Cleaning => true
    case Reading(c) =>
      && -1 <= c.after && c.pending == map[]
      && ReadOk(w.summary, c, w.base.hourly, h, g, c.after + 1)
    case Flushing(c, last) =>
      && -1 <= c.after && (forall x :: x in c.pending ==> x.window == h)
      && (if last then
            && Grouped(w.summary + c.pending, w.base.hourly, h, g, c.after + 1)
            && forall s: nat :: Cell(h, s) in w.base.hourly ==> s <= c.after
          else ReadOk(w.summary + c.pending, c, w.base.hourly, h, g, c.after + 1))
    case Ended => false
  }

  /** A finished marker that is current describes its rows; a builder whose marker and source are
      still there has done what its stage says. */
  ghost predicate SummaryOk(w: Layers, g: nat -> nat, h: int) {
    h in w.smarks ==>
      var m := w.smarks[h];
      && (Current(w, h) ==> Summarized(w, g, h))
      && (m.state == 1 ==> m.token in w.sbuilders && w.sbuilders[m.token].hour == h && w.sbuilders[m.token].source == m.source)
      && (m.state == 1 && h in w.base.marks && w.base.marks[h] == Mark(2, m.source) ==>
            StageOk(w, g, h, w.sbuilders[m.token].stage))
  }

  /** Every source was a complete rollup when it was claimed, so its builder is over. */
  ghost predicate SourcesOver(w: Layers) {
    && (forall t :: t in w.sbuilders ==> KnownSource(w.base, w.sbuilders[t].hour, w.sbuilders[t].source) && t < w.snext)
    && (forall h :: h in w.smarks && w.smarks[h].state != 3 ==> KnownSource(w.base, h, w.smarks[h].source))
  }

  predicate KnownSource(w: World, h: int, source: nat) {
    source in w.builders && w.builders[source] == Builder(h, Over)
  }

  ghost predicate LayersInv(w: Layers, g: nat -> nat) {
    && Inv(w.base) && SourcesOver(w)
    && (forall t :: t in w.cleaners ==> t < w.snext)
    && forall h :: SummaryOk(w, g, h)
  }

  const NO_LAYERS := Layers(EMPTY, map[], map[], map[], map[], 1)

  // ---------------------------------------------------------------------------------------
  // Frames.

  lemma {:induction false} SamePart(t: Cells, u: Cells, h: int, g: nat -> nat, k: nat, n: nat)
    requires SameIn(t, u, h, h + 1)
    ensures PartSum(t, h, g, k, n) == PartSum(u, h, g, k, n)
    ensures HasPart(t, h, g, k, n) <==> HasPart(u, h, g, k, n)
  {
    if n > 0 {
      SamePart(t, u, h, g, k, n - 1);
      PartStep(t, h, g, k, n - 1);
      PartStep(u, h, g, k, n - 1);
      assert Cell(h, n - 1).window == h;
    }
  }

  lemma SameGrouped(x: Cells, y: Cells, t: Cells, u: Cells, h: int, g: nat -> nat, n: nat)
    requires SameIn(x, y, h, h + 1) && SameIn(t, u, h, h + 1) && Grouped(x, t, h, g, n)
    ensures Grouped(y, u, h, g, n)
  {
    hide PartSum, HasPart;
    forall k: nat {:trigger Cell(h, k)}
      ensures Cell(h, k) in y <==> HasPart(u, h, g, k, n)
      ensures Cell(h, k) in y ==> y[Cell(h, k)] == PartSum(u, h, g, k, n)
    {
      SamePart(t, u, h, g, k, n);
      assert Cell(h, k).window == h;
    }
  }

  lemma SameRead(x: Cells, y: Cells, c: Cursor, t: Cells, u: Cells, h: int, g: nat -> nat, n: nat)
    requires SameIn(x, y, h, h + 1) && SameIn(t, u, h, h + 1) && ReadOk(x, c, t, h, g, n)
    ensures ReadOk(y, c, u, h, g, n)
  {
    hide PartSum, HasPart;
    forall k: nat {:trigger Cell(h, k)}
      ensures Cell(h, k) in y <==> c.group != Some(k) && HasPart(u, h, g, k, n)
      ensures Cell(h, k) in y ==> y[Cell(h, k)] == PartSum(u, h, g, k, n)
      ensures HasPart(t, h, g, k, n) <==> HasPart(u, h, g, k, n)
    {
      SamePart(t, u, h, g, k, n);
      assert Cell(h, k).window == h;
    }
    if c.group.None? {
      forall k: nat ensures !HasPart(u, h, g, k, n) { SamePart(t, u, h, g, k, n); }
    } else {
      SamePart(t, u, h, g, c.group.value, n);
      forall s: nat | s < n && Cell(h, s) in u ensures g(s) <= c.group.value {
        assert Cell(h, s).window == h;
      }
    }
  }

  lemma SamePlus(x: Cells, y: Cells, p: Cells, lo: int, hi: int)
    requires SameIn(x, y, lo, hi)
    ensures SameIn(x + p, y + p, lo, hi)
  {
  }

  lemma SameStage(w: Layers, v: Layers, g: nat -> nat, h: int, stage: Stage)
    requires StageOk(w, g, h, stage)
    requires SameIn(w.summary, v.summary, h, h + 1) && SameIn(w.base.hourly, v.base.hourly, h, h + 1)
    ensures StageOk(v, g, h, stage)
  {
    hide ReadOk, Grouped;
    match stage {
      case Reading(c) => SameRead(w.summary, v.summary, c, w.base.hourly, v.base.hourly, h, g, c.after + 1);
      case Flushing(c, last) =>
        SamePlus(w.summary, v.summary, c.pending, h, h + 1);
        if last {
          SameGrouped(w.summary + c.pending, v.summary + c.pending, w.base.hourly, v.base.hourly, h, g, c.after + 1);
          forall s: nat | Cell(h, s) in v.base.hourly ensures s <= c.after { assert Cell(h, s).window == h; }
        } else {
          SameRead(w.summary + c.pending, v.summary + c.pending, c, w.base.hourly, v.base.hourly, h, g, c.after + 1);
        }
      case _ =>
    }
  }

  lemma SameSummarized(w: Layers, v: Layers, g: nat -> nat, h: int)
    requires Summarized(w, g, h)
    requires SameIn(w.summary, v.summary, h, h + 1) && SameIn(w.base.hourly, v.base.hourly, h, h + 1)
    ensures Summarized(v, g, h)
  {
    hide Grouped;
    forall n: nat | forall s: nat :: Cell(h, s) in v.base.hourly ==> s < n ensures Grouped(v.summary, v.base.hourly, h, g, n) {
      forall s: nat | Cell(h, s) in w.base.hourly ensures s < n { assert Cell(h, s).window == h; }
      SameGrouped(w.summary, v.summary, w.base.hourly, v.base.hourly, h, g, n);
    }
  }

  /** An hour stays as it was when its marker, its builder and its rows do, and its source is
      either the same with the same rows or gone. */
  lemma FrameHour(w: Layers, v: Layers, g: nat -> nat, h: int)
    requires SummaryOk(w, g, h)
    requires h in v.smarks ==> h in w.smarks && v.smarks[h] == w.smarks[h]
    requires h in v.smarks && v.smarks[h].state == 1 ==>
               v.smarks[h].token in v.sbuilders && v.sbuilders[v.smarks[h].token] == w.sbuilders[v.smarks[h].token]
    requires SameIn(w.summary, v.summary, h, h + 1)
    requires h in v.smarks && v.smarks[h].state != 3 && h in v.base.marks && v.base.marks[h] == Mark(2, v.smarks[h].source) ==>
               h in w.base.marks && w.base.marks[h] == v.base.marks[h] && SameIn(w.base.hourly, v.base.hourly, h, h + 1)
    ensures SummaryOk(v, g, h)
  {
    hide StageOk, Summarized, SameIn;
    if h in v.smarks && v.smarks[h].state != 3 && h in v.base.marks && v.base.marks[h] == Mark(2, v.smarks[h].source) {
      if Current(v, h) { SameSummarized(w, v, g, h); }
      if v.smarks[h].state == 1 { SameStage(w, v, g, h, w.sbuilders[v.smarks[h].token].stage); }
    }
  }

  // ---------------------------------------------------------------------------------------
  // Every move keeps the invariant.

  lemma InvParts(w: Layers, g: nat -> nat, h: int)
    requires LayersInv(w, g)
    ensures Inv(w.base) && SourcesOver(w) && SummaryOk(w, g, h)
  {
  }

  lemma BelowKeepsHour(w: Layers, g: nat -> nat, e: Event, h: int)
    requires LayersInv(w, g) && Enabled(w.base, e)
    ensures SummaryOk(Next(w, g, Below(e)), g, h)
  {
    hide LayersInv, Inv, Step, StageOk, Summarized, SameIn, Enabled;
    InvParts(w, g, h);
    var v := Next(w, g, Below(e));
    if h in v.smarks && v.smarks[h].state != 3 && h in v.base.marks && v.base.marks[h] == Mark(2, v.smarks[h].source) {
      SourceKnown(w, h);
      SourceNeverReturns(w.base, e, h, v.smarks[h].source);
      SourceFrozen(w.base, e, h);
    }
    SameIsSame(w.summary, h);
    FrameHour(w, v, g, h);
  }

  lemma SourceKnown(w: Layers, h: int)
    requires SourcesOver(w) && h in w.smarks && w.smarks[h].state != 3
    ensures KnownSource(w.base, h, w.smarks[h].source)
  {
  }

  lemma SameIsSame(t: Cells, h: int)
    ensures SameIn(t, t, h, h + 1)
  {
  }

  lemma BelowKeepsSources(w: Layers, g: nat -> nat, e: Event)
    requires LayersInv(w, g) && Enabled(w.base, e)
    ensures SourcesOver(Next(w, g, Below(e)))
  {
    hide SummaryOk, Step;
    forall t | t in w.sbuilders ensures KnownSource(Step(w.base, e), w.sbuilders[t].hour, w.sbuilders[t].source) {
      SourceNeverReturns(w.base, e, w.sbuilders[t].hour, w.sbuilders[t].source);
    }
    forall h | h in w.smarks && w.smarks[h].state != 3 ensures KnownSource(Step(w.base, e), h, w.smarks[h].source) {
      SourceNeverReturns(w.base, e, h, w.smarks[h].source);
    }
  }

  lemma BelowKeepsInv(w: Layers, g: nat -> nat, e: Event)
    requires LayersInv(w, g) && Enabled(w.base, e)
    ensures LayersInv(Next(w, g, Below(e)), g)
  {
    hide SummaryOk, Inv, SourcesOver;
    Rollups.StepKeepsInv(w.base, e);
    BelowKeepsSources(w, g, e);
    forall h ensures SummaryOk(Next(w, g, Below(e)), g, h) { BelowKeepsHour(w, g, e, h); }
  }

  /** Moves that leave the rollups alone and touch one hour keep every other hour. */
  lemma OneHour(w: Layers, v: Layers, g: nat -> nat, own: int)
    requires LayersInv(w, g) && v.base == w.base && SourcesOver(v) && SummaryOk(v, g, own)
    requires forall t :: t in v.cleaners ==> t < v.snext
    requires forall h :: h != own ==> (h in v.smarks <==> h in w.smarks) && (h in v.smarks ==> v.smarks[h] == w.smarks[h])
    requires forall t :: t in w.sbuilders && w.sbuilders[t].hour != own ==> t in v.sbuilders && v.sbuilders[t] == w.sbuilders[t]
    requires forall c: Cell :: c.window != own ==> (c in v.summary <==> c in w.summary) && (c in v.summary ==> v.summary[c] == w.summary[c])
    ensures LayersInv(v, g)
  {
    forall h ensures SummaryOk(v, g, h) {
      if h != own {
        hide StageOk, Summarized, Inv;
        SameIsSame(w.base.hourly, h);
        FrameHour(w, v, g, h);
      }
    }
  }

  lemma ClaimSummaryKeepsInv(w: Layers, g: nat -> nat, h: int)
    requires LayersInv(w, g) && Ready(w, ClaimSummary(h))
    ensures LayersInv(Next(w, g, ClaimSummary(h)), g)
  {
    hide Summarized, Inv, SummaryOk;
    var v := Next(w, g, ClaimSummary(h));
    InvParts(w, g, h);
    HourOf(w.base, h);
    CompleteIsOver(w.base, h);
    NewSummary(v, g, h, w.snext);
    OneHour(w, v, g, h);
  }

  lemma CompleteIsOver(w: World, h: int)
    requires Inv(w) && h in w.marks && w.marks[h].state == 2
    ensures KnownSource(w, h, w.marks[h].token)
  {
    hide Exact, Progress;
    HourOf(w, h);
  }

  lemma NewSummary(v: Layers, g: nat -> nat, h: int, t: nat)
    requires h in v.smarks && v.smarks[h].state == 1 && v.smarks[h].token == t
    requires t in v.sbuilders && v.sbuilders[t] == SummaryBuilder(h, v.smarks[h].source, Cleaning)
    ensures SummaryOk(v, g, h)
  {
  }

  lemma ClaimCleanupKeepsInv(w: Layers, g: nat -> nat, h: int)
    requires LayersInv(w, g)
    ensures LayersInv(Next(w, g, ClaimCleanup(h)), g)
  {
    hide Summarized, Inv, StageOk;
    OneHour(w, Next(w, g, ClaimCleanup(h)), g, h);
  }

  lemma CleanupKeepsInv(w: Layers, g: nat -> nat, t: nat, gone: set<Cell>)
    requires LayersInv(w, g) && Ready(w, CleanupSlice(t, gone))
    ensures LayersInv(Next(w, g, CleanupSlice(t, gone)), g)
  {
    hide Summarized, Inv, StageOk;
    var v := Swept(w, t, gone);
    if v != w {
      OneHour(w, v, g, w.cleaners[t].hour);
    }
  }

  /** A builder that has lost its marker or its source only ends. */
  lemma EndKeepsInv(w: Layers, g: nat -> nat, t: nat)
    requires LayersInv(w, g) && t in w.sbuilders && !SummaryLive(w, t)
    ensures LayersInv(Onward(w, t, Ended), g)
  {
    hide Summarized, Inv, StageOk;
    var v, own := Onward(w, t, Ended), w.sbuilders[t].hour;
    InvParts(w, g, own);
    if !(own in w.smarks && w.smarks[own].state == 1 && w.smarks[own].token == t) {
      SameIsSame(w.summary, own);
      SameIsSame(w.base.hourly, own);
      FrameHour(w, v, g, own);
    }
    OneHour(w, v, g, own);
  }

  /** The live builder moves to a stage that says what it has done. */
  lemma OnwardKeepsInv(w: Layers, g: nat -> nat, t: nat, summary: Cells, stage: Stage)
    requires LayersInv(w, g) && t in w.sbuilders && SummaryLive(w, t)
    requires forall c: Cell :: c.window != w.sbuilders[t].hour ==> (c in summary <==> c in w.summary) && (c in summary ==> summary[c] == w.summary[c])
    requires StageOk(w.(summary := summary), g, w.sbuilders[t].hour, stage)
    ensures LayersInv(Onward(w.(summary := summary), t, stage), g)
  {
    hide Summarized, Inv, StageOk;
    var v, own := Onward(w.(summary := summary), t, stage), w.sbuilders[t].hour;
    InvParts(w, g, own);
    StageOnly(w.(summary := summary), v, g, own, stage);
    OneHour(w, v, g, own);
  }

  lemma StageOnly(w: Layers, v: Layers, g: nat -> nat, h: int, stage: Stage)
    requires StageOk(w, g, h, stage) && v.summary == w.summary && v.base == w.base
    ensures StageOk(v, g, h, stage)
  {
    SameIsSame(w.summary, h);
    SameIsSame(w.base.hourly, h);
    SameStage(w, v, g, h, stage);
  }

  lemma StageOfLive(w: Layers, g: nat -> nat, t: nat)
    requires LayersInv(w, g) && t in w.sbuilders && SummaryLive(w, t)
    ensures StageOk(w, g, w.sbuilders[t].hour, w.sbuilders[t].stage)
  {
    hide Summarized, Inv, StageOk;
    InvParts(w, g, w.sbuilders[t].hour);
  }

  lemma CleanKeepsInv(w: Layers, g: nat -> nat, t: nat, gone: set<Cell>)
    requires LayersInv(w, g) && Ready(w, CleanSlice(t, gone))
    ensures LayersInv(Next(w, g, CleanSlice(t, gone)), g)
  {
    if SummaryLive(w, t) {
      hide LayersInv;
      var h := w.sbuilders[t].hour;
      if |gone| < BATCH { NothingRead(w.summary - gone, w.base.hourly, h, g); }
      OnwardKeepsInv(w, g, t, w.summary - gone, if |gone| < BATCH then Reading(BEGIN) else Cleaning);
    } else {
      EndKeepsInv(w, g, t);
    }
  }

  lemma NothingRead(cells: Cells, t: Cells, h: int, g: nat -> nat)
    requires forall c :: c in cells ==> c.window != h
    ensures ReadOk(cells, BEGIN, t, h, g, 0)
  {
    forall k: nat {:trigger Cell(h, k)} ensures Cell(h, k) !in cells && !HasPart(t, h, g, k, 0) {
      assert Cell(h, k).window == h;
    }
  }

  /** The rows of a complete hour are all of known series. */
  lemma RowsAreSeries(w: World, h: int)
    requires Inv(w) && h in w.marks && w.marks[h].state == 2
    ensures forall s: nat :: Cell(h, s) in w.hourly ==> s in w.series
  {
    hide Progress, SumRange;
    HourOf(w, h);
    assert Exact(w, h);
    forall s: nat | Cell(h, s) in w.hourly ensures s in w.series {
      assert HasRow(w.buckets, s, h, h + HOUR);
      var c :| c in w.buckets && c.series == s && h <= c.window < h + HOUR;
    }
  }

  lemma {:induction false} PendingInHour(c: Cursor, t: Cells, h: int, g: nat -> nat, series: set<nat>, n: nat)
    requires forall x :: x in c.pending ==> x.window == h
    ensures forall x :: x in ConsumeTo(c, t, h, g, series, n).pending ==> x.window == h
    ensures ConsumeTo(c, t, h, g, series, n).after == c.after || ConsumeTo(c, t, h, g, series, n).after in series
    ensures ConsumeTo(c, t, h, g, series, n).after >= c.after
  {
    if n > 0 && n - 1 > c.after { PendingInHour(c, t, h, g, series, n - 1); }
  }

  lemma ReadKeepsInv(w: Layers, g: nat -> nat, t: nat, upTo: nat)
    requires Contiguous(g) && LayersInv(w, g) && Ready(w, ReadSlice(t, upTo))
    ensures LayersInv(Next(w, g, ReadSlice(t, upTo)), g)
  {
    hide LayersInv, ReadOk, ConsumeTo;
    if SummaryLive(w, t) {
      var b := w.sbuilders[t];
      StageOfLive(w, g, t);
      InvParts(w, g, b.hour);
      RowsAreSeries(w.base, b.hour);
      var c := b.stage.cursor;
      PendingInHour(c, w.base.hourly, b.hour, g, w.base.series, upTo + 1);
      assert w.summary + c.pending == w.summary;
      ConsumeToOk(w.summary, c, w.base.hourly, b.hour, g, w.base.series, upTo + 1);
      ReadsUpTo(c, w.base.hourly, b.hour, g, w.base.series, upTo);
      OnwardKeepsInv(w, g, t, w.summary, Flushing(ConsumeTo(c, w.base.hourly, b.hour, g, w.base.series, upTo + 1), false));
      assert w.(summary := w.summary) == w;
    } else {
      EndKeepsInv(w, g, t);
    }
  }

  lemma ReadsUpTo(c: Cursor, t: Cells, h: int, g: nat -> nat, series: set<nat>, upTo: nat)
    requires upTo in series && upTo > c.after
    ensures ConsumeTo(c, t, h, g, series, upTo + 1).after == upTo
  {
  }

  lemma ReadEndKeepsInv(w: Layers, g: nat -> nat, t: nat)
    requires LayersInv(w, g) && Ready(w, ReadEnd(t))
    ensures LayersInv(Next(w, g, ReadEnd(t)), g)
  {
    hide LayersInv, ReadOk, Grouped;
    if SummaryLive(w, t) {
      var b := w.sbuilders[t];
      StageOfLive(w, g, t);
      InvParts(w, g, b.hour);
      RowsAreSeries(w.base, b.hour);
      var c := b.stage.cursor;
      assert w.summary + c.pending == w.summary;
      FlushOk(w.summary, c, w.base.hourly, b.hour, g, c.after + 1);
      OnwardKeepsInv(w, g, t, w.summary, Flushing(Flush(c, b.hour), true));
      assert w.(summary := w.summary) == w;
    } else {
      EndKeepsInv(w, g, t);
    }
  }

  lemma {:induction false} SumBeyond(t: Cells, h: int, g: nat -> nat, k: nat, n: nat, m: nat)
    requires n <= m && forall s: nat :: Cell(h, s) in t ==> s < n
    ensures PartSum(t, h, g, k, m) == PartSum(t, h, g, k, n) && (HasPart(t, h, g, k, m) <==> HasPart(t, h, g, k, n))
  {
    if n < m {
      SumBeyond(t, h, g, k, n, m - 1);
      SkipStep(t, h, g, k, m - 1);
    }
  }

  lemma SumWhole(t: Cells, h: int, g: nat -> nat, k: nat, n: nat, m: nat)
    requires (forall s: nat :: Cell(h, s) in t ==> s < n) && forall s: nat :: Cell(h, s) in t ==> s < m
    ensures PartSum(t, h, g, k, m) == PartSum(t, h, g, k, n) && (HasPart(t, h, g, k, m) <==> HasPart(t, h, g, k, n))
  {
    if n <= m { SumBeyond(t, h, g, k, n, m); } else { SumBeyond(t, h, g, k, m, n); }
  }

  lemma GroupedIsWhole(v: Layers, g: nat -> nat, h: int, n: nat)
    requires Grouped(v.summary, v.base.hourly, h, g, n) && forall s: nat :: Cell(h, s) in v.base.hourly ==> s < n
    ensures Summarized(v, g, h)
  {
    hide PartSum, HasPart;
    forall m: nat | forall s: nat :: Cell(h, s) in v.base.hourly ==> s < m ensures Grouped(v.summary, v.base.hourly, h, g, m) {
      forall k: nat {:trigger Cell(h, k)}
        ensures Cell(h, k) in v.summary <==> HasPart(v.base.hourly, h, g, k, m)
        ensures Cell(h, k) in v.summary ==> v.summary[Cell(h, k)] == PartSum(v.base.hourly, h, g, k, m)
      {
        SumWhole(v.base.hourly, h, g, k, n, m);
      }
    }
  }

  lemma WriteKeepsInv(w: Layers, g: nat -> nat, t: nat, exact: bool)
    requires LayersInv(w, g) && Ready(w, WriteSlice(t, exact))
    ensures LayersInv(Next(w, g, WriteSlice(t, exact)), g)
  {
    hide LayersInv, Written;
    if !SummaryLive(w, t) {
      EndKeepsInv(w, g, t);
    } else if w.sbuilders[t].stage.last {
      LastWriteKeepsInv(w, g, t, exact);
    } else {
      MoreWriteKeepsInv(w, g, t, exact);
    }
  }

  lemma LastWriteKeepsInv(w: Layers, g: nat -> nat, t: nat, exact: bool)
    requires LayersInv(w, g) && t in w.sbuilders && SummaryLive(w, t) && w.sbuilders[t].stage.Flushing? && w.sbuilders[t].stage.last
    ensures LayersInv(Written(w, t, exact), g)
  {
    hide Grouped, Summarized, Inv;
    var b, v := w.sbuilders[t], Written(w, t, exact);
    StageOfLive(w, g, t);
    GroupedIsWhole(v, g, b.hour, b.stage.cursor.after + 1);
    InvParts(w, g, b.hour);
    OneHour(w, v, g, b.hour);
  }

  lemma MoreWriteKeepsInv(w: Layers, g: nat -> nat, t: nat, exact: bool)
    requires LayersInv(w, g) && t in w.sbuilders && SummaryLive(w, t) && w.sbuilders[t].stage.Flushing? && !w.sbuilders[t].stage.last
    ensures LayersInv(Written(w, t, exact), g)
  {
    hide LayersInv, Grouped, ReadOk;
    var b := w.sbuilders[t];
    var c := b.stage.cursor;
    var d := Cursor(c.after, c.group, c.have, c.acc, map[]);
    StageOfLive(w, g, t);
    PendingIgnored(w.summary + c.pending, c, d, w.base.hourly, b.hour, g, c.after + 1);
    OnwardKeepsInv(w, g, t, w.summary + c.pending, Reading(d));
  }

  lemma PendingIgnored(cells: Cells, c: Cursor, d: Cursor, t: Cells, h: int, g: nat -> nat, n: nat)
    requires ReadOk(cells, c, t, h, g, n) && d == Cursor(c.after, c.group, c.have, c.acc, map[])
    ensures ReadOk(cells, d, t, h, g, n)
  {
  }

  lemma MoveKeepsInv(w: Layers, g: nat -> nat, m: Move)
    requires Contiguous(g) && LayersInv(w, g) && Ready(w, m)
    ensures LayersInv(Next(w, g, m), g)
  {
    hide LayersInv, Next, Ready, Contiguous;
    match m {
      case Below(e) => BelowReady(w, e); BelowKeepsInv(w, g, e);
      case ClaimSummary(h) => ClaimSummaryKeepsInv(w, g, h);
      case CleanSlice(t, gone) => CleanKeepsInv(w, g, t, gone);
      case ReadSlice(t, upTo) => ReadKeepsInv(w, g, t, upTo);
      case ReadEnd(t) => ReadEndKeepsInv(w, g, t);
      case WriteSlice(t, exact) => WriteKeepsInv(w, g, t, exact);
      case ClaimCleanup(h) => ClaimCleanupKeepsInv(w, g, h);
      case CleanupSlice(t, gone) => CleanupKeepsInv(w, g, t, gone);
    }
  }

  lemma BelowReady(w: Layers, e: Event)
    requires Ready(w, Below(e))
    ensures Enabled(w.base, e)
  {
  }

  // ---------------------------------------------------------------------------------------
  // Runs.

  predicate CanGo(w: Layers, g: nat -> nat, moves: seq<Move>)
    decreases moves
  {
    moves == [] || (Ready(w, moves[0]) && CanGo(Next(w, g, moves[0]), g, moves[1..]))
  }

  function Go(w: Layers, g: nat -> nat, moves: seq<Move>): Layers
    requires CanGo(w, g, moves)
    decreases moves
  {
    if moves == [] then w else Go(Next(w, g, moves[0]), g, moves[1..])
  }

  lemma {:induction false} GoKeepsInv(w: Layers, g: nat -> nat, moves: seq<Move>)
    requires Contiguous(g) && LayersInv(w, g) && CanGo(w, g, moves)
    ensures LayersInv(Go(w, g, moves), g)
    decreases moves
  {
    if moves != [] {
      hide LayersInv, Next, Ready, Contiguous;
      MoveKeepsInv(w, g, moves[0]);
      GoKeepsInv(Next(w, g, moves[0]), g, moves[1..]);
    }
  }

  /** Over every interleaving of bucket changes, rollup builders, summary builders and cleaners, a
      summary that is complete under the current source token is exactly the group sums of its
      hour, and the hourly rows it sums are exactly the merge of the hour's buckets. */
  lemma CurrentSummariesAreExact(g: nat -> nat, moves: seq<Move>, h: int)
    requires Contiguous(g) && CanGo(NO_LAYERS, g, moves)
    ensures var w := Go(NO_LAYERS, g, moves); Current(w, h) ==> Summarized(w, g, h) && Exact(w.base, h)
  {
    hide Summarized, Progress, StageOk;
    assert LayersInv(NO_LAYERS, g) by { assert Inv(EMPTY); }
    GoKeepsInv(NO_LAYERS, g, moves);
    hide Exact;
    var w := Go(NO_LAYERS, g, moves);
    InvParts(w, g, h);
    if Current(w, h) { HourOf(w.base, h); }
  }

  // ---------------------------------------------------------------------------------------
  // Reading a summary.

  /** What a scan of a table gives to one group in a range. */
  function GroupScan(t: Cells, lo: int, hi: int, g: nat -> nat, k: nat, n: nat): multiset<nat> {
    if n == 0 then multiset{}
    else GroupScan(t, lo, hi, g, k, n - 1) + if g(n - 1) == k then SumRange(t, n - 1, lo, hi) else multiset{}
  }

  /** The rows of one group in a range of windows. */
  function OfGroup(g: nat -> nat, k: nat, lo: int, hi: int): Cell -> bool {
    (c: Cell) => lo <= c.window < hi && g(c.series) == k
  }

  function OfGroupBelow(g: nat -> nat, k: nat, lo: int, hi: int, n: nat): Cell -> bool {
    (c: Cell) => lo <= c.window < hi && g(c.series) == k && c.series < n
  }

  /** A scan over enough series counts each row of the group in the range once. */
  lemma ScanIsRows(t: Cells, lo: int, hi: int, g: nat -> nat, k: nat, n: nat)
    requires forall c :: c in t && lo <= c.window < hi ==> c.series < n
    ensures GroupScan(t, lo, hi, g, k, n) == Rows(t, OfGroup(g, k, lo, hi))
  {
    hide Rows;
    ScanIsRowsBelow(t, lo, hi, g, k, n);
    RowsAgree(t, t, OfGroupBelow(g, k, lo, hi, n), OfGroup(g, k, lo, hi));
  }

  lemma {:induction false} ScanIsRowsBelow(t: Cells, lo: int, hi: int, g: nat -> nat, k: nat, n: nat)
    ensures GroupScan(t, lo, hi, g, k, n) == Rows(t, OfGroupBelow(g, k, lo, hi, n))
  {
    hide Rows, SumRange;
    var f := OfGroupBelow(g, k, lo, hi, n);
    if n == 0 {
      forall c: Cell ensures !f(c) { assert c.series >= 0; }
      RowsAgree(t, map[], f, f);
      NoRows(f);
    } else {
      ScanIsRowsBelow(t, lo, hi, g, k, n - 1);
      SumIsRows(t, n - 1, lo, hi);
      if g(n - 1) == k {
        var a, b := OfGroupBelow(g, k, lo, hi, n - 1), OfSeries(n - 1, lo, hi);
        forall c: Cell ensures (f(c) <==> a(c) || b(c)) && !(a(c) && b(c)) {
          if c.series == n - 1 { assert g(c.series) == k; }
        }
        RowsSplit(t, f, a, b);
      } else {
        RowsAgree(t, t, f, OfGroupBelow(g, k, lo, hi, n - 1));
        Nothing(Rows(t, f));
      }
    }
  }

  lemma {:induction false} ScanIsPartSum(w: World, h: int, g: nat -> nat, k: nat, n: nat)
    requires Exact(w, h)
    ensures PartSum(w.hourly, h, g, k, n) == GroupScan(w.buckets, h, h + HOUR, g, k, n)
  {
    if n > 0 {
      hide Exact, SumRange;
      ScanIsPartSum(w, h, g, k, n - 1);
      HourlyRow(w, h, n - 1);
    }
  }

  /** Reading a current summary gives each group each of its bucket rows in the hour exactly once, and
      nothing for a group the buckets do not have. */
  lemma SummaryReadIsExact(w: Layers, g: nat -> nat, h: int, k: nat, n: nat)
    requires LayersInv(w, g) && Current(w, h) && forall s: nat :: Cell(h, s) in w.base.hourly ==> s < n
    ensures At(w.summary, Cell(h, k)) == GroupScan(w.base.buckets, h, h + HOUR, g, k, n)
    ensures At(w.summary, Cell(h, k)) == Rows(w.base.buckets, OfGroup(g, k, h, h + HOUR))
  {
    hide Progress, StageOk, Exact, SumRange, PartSum, HasPart, Rows, GroupScan;
    InvParts(w, g, h);
    HourOf(w.base, h);
    ExactWhenComplete(w.base, h);
    assert Grouped(w.summary, w.base.hourly, h, g, n);
    ScanIsPartSum(w.base, h, g, k, n);
    if Cell(h, k) !in w.summary { NoPartNoSum(w.base.hourly, h, g, k, n); }
    BucketsBelow(w.base, h, n);
    ScanIsRows(w.base.buckets, h, h + HOUR, g, k, n);
  }

  lemma BucketsBelow(w: World, h: int, n: nat)
    requires Exact(w, h) && forall s: nat :: Cell(h, s) in w.hourly ==> s < n
    ensures forall c :: c in w.buckets && h <= c.window < h + HOUR ==> c.series < n
  {
    hide SumRange, Rows;
    forall c | c in w.buckets && h <= c.window < h + HOUR ensures c.series < n {
      HourlyRow(w, h, c.series);
      assert HasRow(w.buckets, c.series, h, h + HOUR);
    }
  }

  lemma ExactWhenComplete(w: World, h: int)
    requires Inv(w) && h in w.marks && w.marks[h].state == 2
    ensures Exact(w, h)
  {
    hide Exact, Progress;
    HourOf(w, h);
  }
}
