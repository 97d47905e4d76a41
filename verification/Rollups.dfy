/**
 Hourly rollups built in many small transactions by builders that may compete, stall or die,
 while the buckets they summarize change underneath them.

 A marker row per hour carries a state and the token of the builder that owns it: 0 found,
 1 being built, 2 complete. Any change to a bucket deletes its hour's marker in the same
 transaction, and a builder writes only in a transaction that still finds its own token. Each
 event below is one transaction or one snapshot read. Tokens are never reused.
 */
module Rollups {
  import opened CellTables


  const HOUR: int := 3600
  const BATCH: nat := 128

  datatype Mark = Mark(state: nat, token: nat)

  datatype Phase =
    | Clearing
    | Cleared
    | Copying(snapshot: Cells, ids: set<nat>, after: int, total: nat)
    | Over

  datatype Builder = Builder(hour: int, phase: Phase)

  datatype World = World(
    buckets: Cells, series: set<nat>,
    hourly: Cells, marks: map<int, Mark>,
    builders: map<nat, Builder>, next: nat)

  // ---------------------------------------------------------------------------------------
  // Hours.

  /** The remainder that takes the sign of the dividend. */
  function Rem(t: int, n: int): int
    requires n > 0
  {
    if t >= 0 then t % n else -((-t) % n)
  }

  function HourStart(t: int): int { t - Rem(Rem(t, HOUR) + HOUR, HOUR) }

  /** The hour of a window is the last multiple of 3600 not after it, before the epoch too. */
  lemma HourStartIsFloor(t: int)
    ensures HourStart(t) % HOUR == 0 && HourStart(t) <= t < HourStart(t) + HOUR
    ensures HourStart(t) == t - t % HOUR
  {
    if t >= 0 {
      Remainder(t % HOUR + HOUR, 1, t % HOUR);
    } else {
      var q, r := (-t) / HOUR, (-t) % HOUR;
      assert -t == HOUR * q + r;
      if r == 0 {
        Remainder(t, -q, 0);
      } else {
        Remainder(t, -q - 1, HOUR - r);
      }
    }
    Remainder(t - t % HOUR, t / HOUR, 0);
  }

  lemma Remainder(x: int, q: int, r: int)
    requires x == HOUR * q + r && 0 <= r < HOUR
    ensures x % HOUR == r
  {
  }

  lemma InHour(t: int, h: int)
    requires h % HOUR == 0
    ensures h <= t < h + HOUR <==> HourStart(t) == h
  {
    HourStartIsFloor(t);
  }

  // ---------------------------------------------------------------------------------------
  // What a rollup must equal.

  /** The hourly rows of an hour are exactly the per-series merge of its buckets. */
  ghost predicate Exact(w: World, h: int) {
    forall s: nat {:trigger Cell(h, s)} ::
      && (Cell(h, s) in w.hourly <==> HasRow(w.buckets, s, h, h + HOUR))
      && (Cell(h, s) in w.hourly ==> w.hourly[Cell(h, s)] == SumRange(w.buckets, s, h, h + HOUR))
  }

  // ---------------------------------------------------------------------------------------
  // Events.

  datatype Event =
    | Change(gone: set<Cell>, put: Cells)
    | AddSeries(id: nat)
    | DropSeries(id: nat)
    | Discover(hour: int)
    | Reset
    | Claim(hour: int)
    | Clear(token: nat, gone: set<Cell>)
    | Snapshot(token: nat)
    | Copy(token: nat, to: nat)
    | Publish(token: nat)

  /** The marker still carries the builder's token. */
  predicate Live(w: World, t: nat)
    requires t in w.builders
  {
    w.builders[t].hour in w.marks && w.marks[w.builders[t].hour] == Mark(1, t)
  }

  function HourCells(t: Cells, h: int): set<Cell> { set c | c in t && c.window == h }

  /** The series a copy step visits. */
  function Visited(p: Phase, to: nat): set<nat>
    requires p.Copying?
  {
    set s | s in p.ids && p.after < s <= to
  }

  /** The rows a copy step writes. */
  function Copied(b: Builder, to: nat): Cells
    requires b.phase.Copying?
  {
    map s | s in Visited(b.phase, to) && HasRow(b.phase.snapshot, s, b.hour, b.hour + HOUR)
      :: Cell(b.hour, s) := SumRange(b.phase.snapshot, s, b.hour, b.hour + HOUR)
  }

  predicate Enabled(w: World, e: Event) {
    match e
    case Change(gone, put) => forall c :: c in put ==> c.series in w.series
    case AddSeries(_) => true
    case DropSeries(id) => forall c :: c in w.buckets ==> c.series != id
    case Discover(h) => h % HOUR == 0
    case Reset => true
    case Claim(h) => h % HOUR == 0 && (h in w.marks ==> w.marks[h].state != 2)
    case Clear(t, gone) =>
      && t in w.builders && w.builders[t].phase.Clearing?
      && gone <= HourCells(w.hourly, w.builders[t].hour)
      && (|gone| == BATCH || (|gone| < BATCH && gone == HourCells(w.hourly, w.builders[t].hour)))
    case Snapshot(t) => t in w.builders && w.builders[t].phase.Cleared?
    case Copy(t, to) =>
      && t in w.builders && w.builders[t].phase.Copying?
      && to in Visited(w.builders[t].phase, to) && |Visited(w.builders[t].phase, to)| <= BATCH
    case Publish(t) =>
      && t in w.builders && w.builders[t].phase.Copying?
      && forall s :: s in w.builders[t].phase.ids ==> s <= w.builders[t].phase.after
  }

  function Hours(cells: set<Cell>): set<int> { set c | c in cells :: HourStart(c.window) }

  /** The builder's next phase. */
  function Advance(w: World, t: nat, p: Phase): World
    requires t in w.builders
  {
    w.(builders := w.builders[t := w.builders[t].(phase := p)])
  }

  function Further(p: Phase, to: nat, rows: nat): Phase
    requires p.Copying?
  {
    Copying(p.snapshot, p.ids, to, p.total + rows)
  }

  /** A batch without rows writes nothing, and so does not look at the marker. */
  function CopyNext(w: World, t: nat, to: nat): World
    requires t in w.builders && w.builders[t].phase.Copying?
  {
    var b := w.builders[t];
    var rows := Copied(b, to);
    var p := Further(b.phase, to, |rows|);
    if |rows| == 0 then Advance(w, t, p)
    else if !Live(w, t) then Advance(w, t, Over)
    else Advance(w.(hourly := w.hourly + rows), t, p)
  }

  function Step(w: World, e: Event): World
    requires Enabled(w, e)
  {
    match e
    case Change(gone, put) =>
      w.(buckets := (w.buckets - gone) + put, marks := w.marks - Hours((gone * w.buckets.Keys) + put.Keys))
    case AddSeries(id) => w.(series := w.series + {id})
    case DropSeries(id) => w.(series := w.series - {id})
    case Discover(h) => if h in w.marks then w else w.(marks := w.marks[h := Mark(0, 0)])
    case Reset => w.(marks := map h | h in w.marks :: Mark(0, 0))
    case Claim(h) =>
      w.(marks := w.marks[h := Mark(1, w.next)], builders := w.builders[w.next := Builder(h, Clearing)], next := w.next + 1)
    case Clear(t, gone) =>
      if !Live(w, t) then Advance(w, t, Over)
      else Advance(w.(hourly := w.hourly - gone), t, if |gone| < BATCH then Cleared else Clearing)
    case Snapshot(t) => Advance(w, t, Copying(w.buckets, w.series, -1, 0))
    case Copy(t, to) => CopyNext(w, t, to)
    case Publish(t) =>
      var b := w.builders[t];
      if !Live(w, t) then Advance(w, t, Over)
      else if b.phase.total == 0 then Advance(w.(marks := w.marks - {b.hour}), t, Over)
      else Advance(w.(marks := w.marks[b.hour := Mark(2, t)]), t, Over)
  }

  // ---------------------------------------------------------------------------------------
  // The invariant.

  ghost predicate SameIn(t: Cells, u: Cells, lo: int, hi: int) {
    forall c: Cell :: lo <= c.window < hi ==> (c in t <==> c in u) && (c in t ==> t[c] == u[c])
  }

  /** What the builder that owns an hour has done so far. */
  ghost predicate Progress(w: World, h: int, p: Phase) {
    match p
    case Clearing => true
    case Cleared => forall s: nat {:trigger Cell(h, s)} :: Cell(h, s) !in w.hourly
    case Copying(snapshot, ids, after, total) =>
      && SameIn(snapshot, w.buckets, h, h + HOUR)
      && (forall c :: c in w.buckets && h <= c.window < h + HOUR ==> c.series in ids)
      && CopiedUpTo(w, h, after)
    case Over => false
  }

  /** The hourly rows of the hour are those of the series up to after. */
  ghost predicate CopiedUpTo(w: World, h: int, after: int) {
    forall s: nat {:trigger Cell(h, s)} ::
      && (Cell(h, s) in w.hourly <==> s <= after && HasRow(w.buckets, s, h, h + HOUR))
      && (Cell(h, s) in w.hourly ==> w.hourly[Cell(h, s)] == SumRange(w.buckets, s, h, h + HOUR))
  }

  ghost predicate HourOk(w: World, h: int) {
    h in w.marks ==>
      && (w.marks[h].state == 2 ==>
            && Exact(w, h)
            && w.marks[h].token in w.builders && w.builders[w.marks[h].token] == Builder(h, Over))
      && (w.marks[h].state == 1 ==>
            && w.marks[h].token in w.builders
            && w.builders[w.marks[h].token].hour == h
            && Progress(w, h, w.builders[w.marks[h].token].phase))
  }

  ghost predicate Inv(w: World) {
    && (forall h :: h in w.marks ==> h % HOUR == 0 && HourOk(w, h))
    && (forall t :: t in w.builders ==> t < w.next && w.builders[t].hour % HOUR == 0)
    && (forall c :: c in w.buckets ==> c.series in w.series)
  }

  const EMPTY := World(map[], {}, map[], map[], map[], 1)

  // ---------------------------------------------------------------------------------------
  // Sums and frames.

  lemma {:induction false} SameSum(t: Cells, u: Cells, s: nat, lo: int, hi: int)
    requires SameIn(t, u, lo, hi)
    ensures SumRange(t, s, lo, hi) == SumRange(u, s, lo, hi)
    decreases hi - lo
  {
    if lo < hi {
      assert Cell(lo, s).window == lo;
      SameSum(t, u, s, lo + 1, hi);
    }
  }

  lemma SameRows(t: Cells, u: Cells, s: nat, lo: int, hi: int)
    requires SameIn(t, u, lo, hi)
    ensures HasRow(t, s, lo, hi) <==> HasRow(u, s, lo, hi)
  {
  }

  lemma SameExact(w: World, v: World, h: int)
    requires Exact(w, h) && SameIn(w.buckets, v.buckets, h, h + HOUR) && SameIn(w.hourly, v.hourly, h, h + 1)
    ensures Exact(v, h)
  {
    hide SumRange, HasRow;
    forall s: nat {:trigger Cell(h, s)}
      ensures Cell(h, s) in v.hourly <==> HasRow(v.buckets, s, h, h + HOUR)
      ensures Cell(h, s) in v.hourly ==> v.hourly[Cell(h, s)] == SumRange(v.buckets, s, h, h + HOUR)
    {
      assert Cell(h, s).window == h;
      SameSum(w.buckets, v.buckets, s, h, h + HOUR);
      SameRows(w.buckets, v.buckets, s, h, h + HOUR);
    }
  }

  lemma SameProgress(w: World, v: World, h: int, p: Phase)
    requires Progress(w, h, p) && SameIn(w.buckets, v.buckets, h, h + HOUR) && SameIn(w.hourly, v.hourly, h, h + 1)
    ensures Progress(v, h, p)
  {
    hide SumRange, HasRow;
    forall s: nat {:trigger Cell(h, s)}
      ensures Cell(h, s) in v.hourly <==> Cell(h, s) in w.hourly
      ensures Cell(h, s) in v.hourly ==> v.hourly[Cell(h, s)] == w.hourly[Cell(h, s)]
      ensures HasRow(v.buckets, s, h, h + HOUR) <==> HasRow(w.buckets, s, h, h + HOUR)
      ensures SumRange(v.buckets, s, h, h + HOUR) == SumRange(w.buckets, s, h, h + HOUR)
    {
      assert Cell(h, s).window == h;
      SameSum(w.buckets, v.buckets, s, h, h + HOUR);
      SameRows(w.buckets, v.buckets, s, h, h + HOUR);
    }
  }

  /** An hour whose marker, owner, rows and buckets an event leaves alone stays as it was. */
  lemma UntouchedHour(w: World, v: World, h: int)
    requires HourOk(w, h)
    requires h in v.marks ==> h in w.marks && v.marks[h] == w.marks[h]
    requires h in v.marks && 1 <= v.marks[h].state <= 2 && v.marks[h].token in w.builders ==>
               v.marks[h].token in v.builders && v.builders[v.marks[h].token] == w.builders[v.marks[h].token]
    requires SameIn(w.buckets, v.buckets, h, h + HOUR) && SameIn(w.hourly, v.hourly, h, h + 1)
    ensures HourOk(v, h)
  {
    hide Exact, Progress, SameIn;
    if h in v.marks {
      if w.marks[h].state == 2 { SameExact(w, v, h); }
      if w.marks[h].state == 1 { SameProgress(w, v, h, w.builders[w.marks[h].token].phase); }
    }
  }

  // ---------------------------------------------------------------------------------------
  // Every event keeps the invariant.

  lemma HourOf(w: World, h: int)
    requires Inv(w) && h in w.marks
    ensures HourOk(w, h) && h % HOUR == 0
    ensures 1 <= w.marks[h].state <= 2 ==> w.marks[h].token in w.builders && w.builders[w.marks[h].token].hour == h
    ensures w.marks[h].state == 2 ==> w.builders[w.marks[h].token].phase.Over?
  {
    hide Exact, Progress;
  }

  lemma ChangeKeepsHour(w: World, gone: set<Cell>, put: Cells, h: int)
    requires Inv(w) && Enabled(w, Change(gone, put)) && h in Step(w, Change(gone, put)).marks
    ensures HourOk(Step(w, Change(gone, put)), h)
  {
    hide Exact, Progress, HourStart, HourOk;
    HourOf(w, h);
    ChangeSpares(w, gone, put, h);
    UntouchedHour(w, Step(w, Change(gone, put)), h);
  }

  lemma ChangeKeepsInv(w: World, gone: set<Cell>, put: Cells)
    requires Inv(w) && Enabled(w, Change(gone, put))
    ensures Inv(Step(w, Change(gone, put)))
  {
    hide HourOk, Hours;
    var v := Step(w, Change(gone, put));
    forall h | h in v.marks ensures h % HOUR == 0 && HourOk(v, h) {
      ChangeKeepsHour(w, gone, put, h);
    }
  }

  lemma MarkersKeepInv(w: World, e: Event)
    requires Inv(w) && Enabled(w, e) && (e.AddSeries? || e.DropSeries? || e.Discover? || e.Reset?)
    ensures Inv(Step(w, e))
  {
    hide Exact, Progress;
    var v := Step(w, e);
    forall h | h in v.marks ensures h % HOUR == 0 && HourOk(v, h) {
      if h in w.marks && v.marks[h] == w.marks[h] {
        HourOf(w, h);
        UntouchedHour(w, v, h);
      }
    }
  }

  lemma ClaimKeepsInv(w: World, hour: int)
    requires Inv(w) && Enabled(w, Claim(hour))
    ensures Inv(Step(w, Claim(hour)))
  {
    hide Exact, Progress, HourOk;
    var v := Step(w, Claim(hour));
    forall h | h in v.marks ensures h % HOUR == 0 && HourOk(v, h) {
      if h == hour {
        Claimed(v, h, w.next);
      } else {
        HourOf(w, h);
        UntouchedHour(w, v, h);
      }
    }
  }

  lemma Claimed(v: World, h: int, t: nat)
    requires h in v.marks && v.marks[h] == Mark(1, t) && t in v.builders && v.builders[t] == Builder(h, Clearing)
    ensures HourOk(v, h)
  {
  }

  /** A builder's step leaves every other hour alone, and its own too unless it is live. */
  lemma OtherHour(w: World, v: World, t: nat, p: Phase, h: int)
    requires Inv(w) && t in w.builders && h in v.marks && !w.builders[t].phase.Over?
    requires h != w.builders[t].hour || !Live(w, t)
    requires h in w.marks && v.marks[h] == w.marks[h] && v.buckets == w.buckets
    requires v.builders == w.builders[t := w.builders[t].(phase := p)]
    requires v.hourly == w.hourly || (h != w.builders[t].hour && SameIn(w.hourly, v.hourly, h, h + 1))
    ensures h % HOUR == 0 && HourOk(v, h)
  {
    hide Exact, Progress, HourOk;
    HourOf(w, h);
    UntouchedHour(w, v, h);
  }

  lemma DeadStepKeepsInv(w: World, t: nat, p: Phase)
    requires Inv(w) && t in w.builders && !Live(w, t) && !w.builders[t].phase.Over?
    ensures Inv(Advance(w, t, p))
  {
    hide HourOk, Live;
    var v := Advance(w, t, p);
    forall h | h in v.marks ensures h % HOUR == 0 && HourOk(v, h) {
      OtherHour(w, v, t, p, h);
    }
  }

  /** The builder's own hour, after a step of the live builder. */
  lemma LiveStepKeepsInv(w: World, t: nat, hourly: Cells, p: Phase)
    requires Inv(w) && t in w.builders && Live(w, t) && !w.builders[t].phase.Over?
    requires forall c: Cell :: c.window != w.builders[t].hour ==> (c in hourly <==> c in w.hourly) && (c in hourly ==> hourly[c] == w.hourly[c])
    requires Progress(w.(hourly := hourly), w.builders[t].hour, p)
    ensures Inv(Advance(w.(hourly := hourly), t, p))
  {
    hide HourOk, Progress, Exact;
    var v := Advance(w.(hourly := hourly), t, p);
    var own := w.builders[t].hour;
    HourOf(w, own);
    OwnHour(w, v, t, p);
    forall h | h in v.marks ensures h % HOUR == 0 && HourOk(v, h) {
      if h != own { OtherHour(w, v, t, p, h); }
    }
  }

  lemma OwnHour(w: World, v: World, t: nat, p: Phase)
    requires t in w.builders && Live(w, t) && v == Advance(w.(hourly := v.hourly), t, p)
    requires Progress(w.(hourly := v.hourly), w.builders[t].hour, p)
    ensures HourOk(v, w.builders[t].hour)
  {
    hide SumRange, HasRow;
    var u := w.(hourly := v.hourly);
    SameProgress(u, v, w.builders[t].hour, p);
  }

  lemma ProgressOf(w: World, t: nat)
    requires Inv(w) && t in w.builders && Live(w, t)
    ensures Progress(w, w.builders[t].hour, w.builders[t].phase) && w.builders[t].hour % HOUR == 0
  {
    hide Progress;
    HourOf(w, w.builders[t].hour);
  }

  lemma ClearKeepsInv(w: World, t: nat, gone: set<Cell>)
    requires Inv(w) && Enabled(w, Clear(t, gone))
    ensures Inv(Step(w, Clear(t, gone)))
  {
    hide Inv;
    if Live(w, t) {
      var h := w.builders[t].hour;
      assert Progress(w.(hourly := w.hourly - gone), h, if |gone| < BATCH then Cleared else Clearing);
      LiveStepKeepsInv(w, t, w.hourly - gone, if |gone| < BATCH then Cleared else Clearing);
    } else {
      DeadStepKeepsInv(w, t, Over);
    }
  }

  lemma SnapshotKeepsInv(w: World, t: nat)
    requires Inv(w) && Enabled(w, Snapshot(t))
    ensures Inv(Step(w, Snapshot(t)))
  {
    var p := Copying(w.buckets, w.series, -1, 0);
    if Live(w, t) {
      ProgressOf(w, t);
      BucketSeries(w);
      hide Inv, SumRange, HasRow;
      assert Progress(w, w.builders[t].hour, p);
      assert w.(hourly := w.hourly) == w;
      LiveStepKeepsInv(w, t, w.hourly, p);
    } else {
      DeadStepKeepsInv(w, t, p);
    }
  }

  lemma BucketSeries(w: World)
    requires Inv(w)
    ensures forall c :: c in w.buckets ==> c.series in w.series
  {
  }

  /** A copy step extends the copied prefix of the hour to the series it visits. */
  lemma CopyProgress(w: World, h: int, p: Phase, to: nat)
    requires p.Copying? && Progress(w, h, p) && to in Visited(p, to)
    ensures var rows := Copied(Builder(h, p), to);
            Progress(w.(hourly := w.hourly + rows), h, Further(p, to, |rows|))
  {
    hide SumRange, HasRow, Copied;
    var rows := Copied(Builder(h, p), to);
    MoreCopied(w, h, p, to, rows);
    hide CopiedUpTo;
  }

  lemma MoreCopied(w: World, h: int, p: Phase, to: nat, rows: Cells)
    requires p.Copying? && Progress(w, h, p) && to in Visited(p, to) && rows == Copied(Builder(h, p), to)
    ensures CopiedUpTo(w.(hourly := w.hourly + rows), h, to)
  {
    hide SumRange, HasRow, Copied, SameIn;
    var v := w.(hourly := w.hourly + rows);
    forall s: nat {:trigger Cell(h, s)}
      ensures Cell(h, s) in v.hourly <==> s <= to && HasRow(w.buckets, s, h, h + HOUR)
      ensures Cell(h, s) in v.hourly ==> v.hourly[Cell(h, s)] == SumRange(w.buckets, s, h, h + HOUR)
    {
      CopiedRow(w, h, p, to, s);
      assert Cell(h, s) in w.hourly <==> s <= p.after && HasRow(w.buckets, s, h, h + HOUR);
    }
  }

  lemma CopiedRow(w: World, h: int, p: Phase, to: nat, s: nat)
    requires p.Copying? && Progress(w, h, p)
    ensures var rows := Copied(Builder(h, p), to);
            && (Cell(h, s) in rows <==> p.after < s <= to && HasRow(w.buckets, s, h, h + HOUR))
            && (Cell(h, s) in rows ==> rows[Cell(h, s)] == SumRange(w.buckets, s, h, h + HOUR))
  {
    hide SumRange, Copied;
    SameSum(p.snapshot, w.buckets, s, h, h + HOUR);
    SameRows(p.snapshot, w.buckets, s, h, h + HOUR);
    CopiedIs(h, p, to, s);
  }

  lemma CopiedIs(h: int, p: Phase, to: nat, s: nat)
    requires p.Copying?
    ensures var rows := Copied(Builder(h, p), to);
            && (Cell(h, s) in rows <==> s in p.ids && p.after < s <= to && HasRow(p.snapshot, s, h, h + HOUR))
            && (Cell(h, s) in rows ==> rows[Cell(h, s)] == SumRange(p.snapshot, s, h, h + HOUR))
  {
    hide SumRange, HasRow;
  }

  lemma CopyKeepsInv(w: World, t: nat, to: nat)
    requires Inv(w) && Enabled(w, Copy(t, to))
    ensures Inv(Step(w, Copy(t, to)))
  {
    hide Inv, Copied, Progress, Visited, Live, Advance;
    var b := w.builders[t];
    var rows := Copied(b, to);
    var p := Further(b.phase, to, |rows|);
    if Live(w, t) {
      CopyIsProgress(w, t, to);
      LiveStepKeepsInv(w, t, w.hourly + rows, p);
      NothingAdded(w, rows);
    } else {
      DeadStepKeepsInv(w, t, p);
      DeadStepKeepsInv(w, t, Over);
    }
  }

  lemma CopyIsProgress(w: World, t: nat, to: nat)
    requires Inv(w) && Enabled(w, Copy(t, to)) && Live(w, t)
    ensures var b := w.builders[t];
            var rows := Copied(b, to);
            && Progress(w.(hourly := w.hourly + rows), b.hour, Further(b.phase, to, |rows|))
            && forall c :: c in rows ==> c.window == b.hour
  {
    hide Inv, Copied, Progress, Visited, Live;
    var b := w.builders[t];
    CopiedInHour(b, to);
    ProgressOf(w, t);
    CopyProgress(w, b.hour, b.phase, to);
    assert Builder(b.hour, b.phase) == b;
  }

  lemma NothingAdded(w: World, rows: Cells)
    ensures |rows| == 0 ==> w.(hourly := w.hourly + rows) == w
  {
    if |rows| == 0 { assert rows == map[]; }
  }

  lemma CopiedInHour(b: Builder, to: nat)
    requires b.phase.Copying?
    ensures forall c :: c in Copied(b, to) ==> c.window == b.hour
  {
  }

  /** Once every series has been visited, the hour's rows are exact. */
  lemma CopiedAll(w: World, h: int, p: Phase)
    requires p.Copying? && Progress(w, h, p) && forall s :: s in p.ids ==> s <= p.after
    ensures Exact(w, h)
  {
    hide SumRange;
    forall s: nat {:trigger Cell(h, s)}
      ensures Cell(h, s) in w.hourly <==> HasRow(w.buckets, s, h, h + HOUR)
      ensures Cell(h, s) in w.hourly ==> w.hourly[Cell(h, s)] == SumRange(w.buckets, s, h, h + HOUR)
    {
      if HasRow(w.buckets, s, h, h + HOUR) {
        var c :| c in w.buckets && c.series == s && h <= c.window < h + HOUR;
        assert c.series in p.ids;
      }
    }
  }

  lemma PublishKeepsInv(w: World, t: nat)
    requires Inv(w) && Enabled(w, Publish(t))
    ensures Inv(Step(w, Publish(t)))
  {
    if Live(w, t) {
      hide Exact, Progress, HourOk;
      var v, own := Step(w, Publish(t)), w.builders[t].hour;
      ProgressOf(w, t);
      CopiedAll(w, own, w.builders[t].phase);
      forall h | h in v.marks ensures h % HOUR == 0 && HourOk(v, h) {
        if h == own {
          Published(w, v, own);
        } else {
          OtherHour(w, v, t, Over, h);
        }
      }
    } else {
      DeadStepKeepsInv(w, t, Over);
    }
  }

  lemma Published(w: World, v: World, h: int)
    requires Exact(w, h) && v.buckets == w.buckets && v.hourly == w.hourly && h in v.marks && v.marks[h].state == 2
    requires v.marks[h].token in v.builders && v.builders[v.marks[h].token] == Builder(h, Over)
    ensures HourOk(v, h)
  {
    hide Progress;
    SameExact(w, v, h);
  }

  lemma StepKeepsInv(w: World, e: Event)
    requires Inv(w) && Enabled(w, e)
    ensures Inv(Step(w, e))
  {
    hide Inv, Step, Enabled;
    match e {
      case Change(gone, put) => ChangeKeepsInv(w, gone, put);
      case Claim(h) => ClaimKeepsInv(w, h);
      case Clear(t, gone) => ClearKeepsInv(w, t, gone);
      case Snapshot(t) => SnapshotKeepsInv(w, t);
      case Copy(t, to) => CopyKeepsInv(w, t, to);
      case Publish(t) => PublishKeepsInv(w, t);
      case _ => MarkersKeepInv(w, e);
    }
  }

  // ---------------------------------------------------------------------------------------
  // Runs.

  predicate Possible(w: World, events: seq<Event>)
    decreases events
  {
    events == [] || (Enabled(w, events[0]) && Possible(Step(w, events[0]), events[1..]))
  }

  function Run(w: World, events: seq<Event>): World
    requires Possible(w, events)
    decreases events
  {
    if events == [] then w else Run(Step(w, events[0]), events[1..])
  }

  lemma {:induction false} RunKeepsInv(w: World, events: seq<Event>)
    requires Inv(w) && Possible(w, events)
    ensures Inv(Run(w, events))
    decreases events
  {
    if events != [] {
      hide Step, Inv, Enabled;
      StepKeepsInv(w, events[0]);
      RunKeepsInv(Step(w, events[0]), events[1..]);
    }
  }

  /** Whatever builders do, in whatever order their transactions fall among bucket changes,
      discoveries, resets and each other, an hour marked complete holds exactly the per-series
      merge of its buckets: each bucket row of the hour once, and a row for every series that has
      one there. */
  lemma CompleteHoursAreExact(events: seq<Event>, h: int)
    requires Possible(EMPTY, events)
    ensures var w := Run(EMPTY, events);
            h in w.marks && w.marks[h].state == 2 ==>
              && Exact(w, h)
              && (forall s: nat {:trigger Cell(h, s)} :: Cell(h, s) in w.hourly <==> HasRow(w.buckets, s, h, h + HOUR))
              && forall s: nat {:trigger Cell(h, s)} :: At(w.hourly, Cell(h, s)) == Rows(w.buckets, OfSeries(s, h, h + HOUR))
  {
    hide Exact, Progress;
    assert Inv(EMPTY);
    RunKeepsInv(EMPTY, events);
    var w := Run(EMPTY, events);
    if h in w.marks && w.marks[h].state == 2 {
      HourOf(w, h);
      forall s: nat {:trigger Cell(h, s)}
        ensures Cell(h, s) in w.hourly <==> HasRow(w.buckets, s, h, h + HOUR)
        ensures At(w.hourly, Cell(h, s)) == Rows(w.buckets, OfSeries(s, h, h + HOUR))
      {
        HourlyRow(w, h, s);
      }
    }
  }

  /** What a complete hour has of one series. */
  lemma HourlyRow(w: World, h: int, s: nat)
    requires Exact(w, h)
    ensures Cell(h, s) in w.hourly <==> HasRow(w.buckets, s, h, h + HOUR)
    ensures At(w.hourly, Cell(h, s)) == SumRange(w.buckets, s, h, h + HOUR) == Rows(w.buckets, OfSeries(s, h, h + HOUR))
  {
    hide SumRange, HasRow, Rows;
    SumIsRows(w.buckets, s, h, h + HOUR);
    if Cell(h, s) !in w.hourly { NoRowNoSum(w.buckets, s, h, h + HOUR); }
  }

  /** A builder that has lost its marker never gets it back. */
  lemma StaleStaysStale(w: World, e: Event, t: nat)
    requires Inv(w) && Enabled(w, e) && t in w.builders && !Live(w, t)
    ensures t in Step(w, e).builders && !Live(Step(w, e), t)
  {
    hide Inv, Copied, Visited, Hours, HourCells;
    TokenUsed(w, t);
    if e.Copy? {
      CopyKeepsMarks(w, e.token, e.to);
      hide CopyNext;
    }
  }

  lemma CopyKeepsMarks(w: World, t: nat, to: nat)
    requires t in w.builders && w.builders[t].phase.Copying?
    ensures var v := CopyNext(w, t, to);
            && v.marks == w.marks && v.builders.Keys == w.builders.Keys
            && forall u :: u in w.builders ==> v.builders[u].hour == w.builders[u].hour
  {
    hide Copied, Advance, Live, Further;
    var b := w.builders[t];
    var rows := Copied(b, to);
    var p := Further(b.phase, to, |rows|);
    AdvanceKeepsMarks(w, t, p);
    AdvanceKeepsMarks(w, t, Over);
    AdvanceKeepsMarks(w.(hourly := w.hourly + rows), t, p);
  }

  lemma AdvanceKeepsMarks(w: World, t: nat, p: Phase)
    requires t in w.builders
    ensures var v := Advance(w, t, p);
            && v.marks == w.marks && v.builders.Keys == w.builders.Keys
            && forall u :: u in w.builders ==> v.builders[u].hour == w.builders[u].hour
  {
  }

  lemma TokenUsed(w: World, t: nat)
    requires Inv(w) && t in w.builders
    ensures t < w.next
  {
  }

  /** Whatever a builder without its marker does leaves every row and every marker alone. */
  lemma StaleBuilderIsHarmless(w: World, e: Event, t: nat)
    requires Enabled(w, e) && t in w.builders && !Live(w, t)
    requires (e.Clear? || e.Snapshot? || e.Copy? || e.Publish?) && e.token == t
    ensures var v := Step(w, e); v.hourly == w.hourly && v.marks == w.marks && v.buckets == w.buckets
  {
    hide Copied, Visited;
  }

  // ---------------------------------------------------------------------------------------
  // Reading a range.

  /** One stretch of a read: a complete hour answered from its rollup, or windows answered from
      the buckets. */
  datatype Range = Range(lo: int, hi: int, rolled: bool)

  /** The stretch of [start, end) inside the hour h. */
  function RangeOf(w: World, h: int, start: int, end: int): Range {
    Range(if h < start then start else h, if end < h + HOUR then end else h + HOUR,
          h in w.marks && w.marks[h].state == 2 && h >= start && h + HOUR <= end)
  }

  /** The stretches of [start, end) from the hour h on. */
  function RangesFrom(w: World, h: int, start: int, end: int): seq<Range>
    decreases end - h
  {
    if h >= end then [] else [RangeOf(w, h, start, end)] + RangesFrom(w, h + HOUR, start, end)
  }

  function Ranges(w: World, start: int, end: int): seq<Range> { RangesFrom(w, HourStart(start), start, end) }

  function ReadOne(w: World, s: nat, r: Range): multiset<nat> {
    if r.rolled then At(w.hourly, Cell(r.lo, s)) else SumRange(w.buckets, s, r.lo, r.hi)
  }

  function ReadAll(w: World, s: nat, ranges: seq<Range>): multiset<nat> {
    if ranges == [] then multiset{} else ReadOne(w, s, ranges[0]) + ReadAll(w, s, ranges[1..])
  }

  /** Consecutive stretches, the first starting at lo and the last ending at hi. */
  predicate Tiles(ranges: seq<Range>, lo: int, hi: int) {
    if ranges == [] then lo == hi else ranges[0].lo == lo && lo < ranges[0].hi && Tiles(ranges[1..], ranges[0].hi, hi)
  }

  lemma {:induction false} RangesTile(w: World, h: int, start: int, end: int)
    requires h % HOUR == 0 && start < end && h < end && (h >= start || HourStart(start) == h)
    ensures Tiles(RangesFrom(w, h, start, end), if h < start then start else h, end)
    decreases end - h
  {
    HourStartIsFloor(start);
    NextHour(h);
    var tail := RangesFrom(w, h + HOUR, start, end);
    if h + HOUR < end { RangesTile(w, h + HOUR, start, end); }
    assert ([RangeOf(w, h, start, end)] + tail)[1..] == tail;
  }

  lemma NextHour(h: int)
    requires h % HOUR == 0
    ensures (h + HOUR) % HOUR == 0
  {
  }

  /** The stretches cover the range once: no gap and no overlap. */
  lemma RangesPartition(w: World, start: int, end: int)
    requires start < end
    ensures Tiles(Ranges(w, start, end), start, end)
  {
    HourStartIsFloor(start);
    RangesTile(w, HourStart(start), start, end);
  }

  /** A rolled stretch answers what the buckets under it would. */
  lemma RolledIsExact(w: World, s: nat, h: int, start: int, end: int)
    requires Inv(w)
    ensures var r := RangeOf(w, h, start, end);
            ReadOne(w, s, r) == SumRange(w.buckets, s, r.lo, r.hi) == Rows(w.buckets, OfSeries(s, r.lo, r.hi))
  {
    hide SumRange, HasRow, Progress, Rows;
    var r := RangeOf(w, h, start, end);
    SumIsRows(w.buckets, s, r.lo, r.hi);
    if RangeOf(w, h, start, end).rolled {
      HourOf(w, h);
      assert Exact(w, h);
      if Cell(h, s) !in w.hourly { NoRowNoSum(w.buckets, s, h, h + HOUR); }
    }
  }

  lemma {:induction false} ReadFrom(w: World, s: nat, h: int, start: int, end: int)
    requires Inv(w) && h % HOUR == 0 && start < end && (h >= start || HourStart(start) == h)
    ensures h < end ==>
              ReadAll(w, s, RangesFrom(w, h, start, end)) == SumRange(w.buckets, s, if h < start then start else h, end)
    decreases end - h
  {
    if h < end {
      hide Inv, ReadOne, ReadAll, RangesFrom, HourStart, SumRange;
      HourStartIsFloor(start);
      NextHour(h);
      var r, tail := RangeOf(w, h, start, end), RangesFrom(w, h + HOUR, start, end);
      RolledIsExact(w, s, h, start, end);
      ReadStep(w, s, h, start, end);
      if h + HOUR < end {
        ReadFrom(w, s, h + HOUR, start, end);
        SumSplits(w.buckets, s, r.lo, h + HOUR, end);
      }
    }
  }

  lemma ReadStep(w: World, s: nat, h: int, start: int, end: int)
    requires h < end
    ensures ReadAll(w, s, RangesFrom(w, h, start, end))
         == ReadOne(w, s, RangeOf(w, h, start, end)) + ReadAll(w, s, RangesFrom(w, h + HOUR, start, end))
    ensures h + HOUR >= end ==>
              ReadAll(w, s, RangesFrom(w, h, start, end)) == ReadOne(w, s, RangeOf(w, h, start, end))
  {
    hide ReadOne;
    var r, tail := RangeOf(w, h, start, end), RangesFrom(w, h + HOUR, start, end);
    assert ([r] + tail)[1..] == tail;
    assert ReadOne(w, s, r) + multiset{} == ReadOne(w, s, r);
  }

  /** A read that takes complete hours from their rollups and the rest from the buckets counts for
      every series each of its bucket rows in the range exactly once. */
  lemma ReadIsExact(w: World, s: nat, start: int, end: int)
    requires Inv(w) && start < end
    ensures ReadAll(w, s, Ranges(w, start, end)) == Rows(w.buckets, OfSeries(s, start, end))
  {
    hide Inv, RangesFrom, SumRange, Rows;
    SumIsRows(w.buckets, s, start, end);
    HourStartIsFloor(start);
    ReadFrom(w, s, HourStart(start), start, end);
  }

  /** The rows of a complete hour, and the buckets under them, do not change while its marker
      stays. */
  lemma SourceFrozen(w: World, e: Event, h: int)
    requires Inv(w) && Enabled(w, e) && h in w.marks && w.marks[h].state == 2
    requires h in Step(w, e).marks && Step(w, e).marks[h] == w.marks[h]
    ensures SameIn(w.hourly, Step(w, e).hourly, h, h + 1) && SameIn(w.buckets, Step(w, e).buckets, h, h + HOUR)
  {
    hide Exact, Progress, CopyNext, Visited, HourCells, Hours, HourStart;
    HourOf(w, h);
    match e {
      case Change(gone, put) => ChangeSpares(w, gone, put, h);
      case Clear(t, gone) => ClearSpares(w, t, gone, h);
      case Copy(t, to) => CopySpares(w, t, to, h);
      case _ =>
    }
  }

  lemma ChangeSpares(w: World, gone: set<Cell>, put: Cells, h: int)
    requires Enabled(w, Change(gone, put)) && h % HOUR == 0 && h in Step(w, Change(gone, put)).marks
    ensures SameIn(w.buckets, Step(w, Change(gone, put)).buckets, h, h + HOUR)
  {
    hide HourStart;
    var v := Step(w, Change(gone, put));
    forall c: Cell | h <= c.window < h + HOUR
      ensures (c in w.buckets <==> c in v.buckets) && (c in w.buckets ==> w.buckets[c] == v.buckets[c])
    {
      InHour(c.window, h);
      assert c in (gone * w.buckets.Keys) + put.Keys ==> HourStart(c.window) in Hours((gone * w.buckets.Keys) + put.Keys);
    }
  }

  lemma ClearSpares(w: World, t: nat, gone: set<Cell>, h: int)
    requires Enabled(w, Clear(t, gone)) && h in w.marks && w.marks[h].state == 2
    ensures SameIn(w.hourly, Step(w, Clear(t, gone)).hourly, h, h + 1) && Step(w, Clear(t, gone)).buckets == w.buckets
  {
    hide Visited, CopyNext, Hours, HourStart;
    if Live(w, t) { assert w.builders[t].hour != h; }
  }

  lemma CopySpares(w: World, t: nat, to: nat, h: int)
    requires Enabled(w, Copy(t, to)) && h in w.marks && w.marks[h].state == 2
    ensures SameIn(w.hourly, Step(w, Copy(t, to)).hourly, h, h + 1) && Step(w, Copy(t, to)).buckets == w.buckets
  {
    hide Copied, Visited;
    CopiedInHour(w.builders[t], to);
  }

  /** Once a complete hour's marker is gone it never comes back with the same token. */
  lemma SourceNeverReturns(w: World, e: Event, h: int, source: nat)
    requires Inv(w) && Enabled(w, e) && source in w.builders && w.builders[source] == Builder(h, Over)
    ensures source in Step(w, e).builders && Step(w, e).builders[source] == Builder(h, Over)
    ensures h in Step(w, e).marks && Step(w, e).marks[h] == Mark(2, source) ==> h in w.marks && w.marks[h] == Mark(2, source)
  {
    hide HourOk, Copied, Visited, Hours, HourCells;
    TokenUsed(w, source);
  }
}
