/**
 Reads over the whole store: service summaries, hourly rollups, buckets and the delta log.

 A committed row lies in the delta log until its window is finalized: one transaction merges the
 window's log rows into its buckets and deletes them. Retention deletes a window from both. A
 read of a range takes each complete hour from its summary or else from its rollup, the stretches
 between from the buckets, and from every stretch the log rows beside them.
 */
module Reads {
  import Durability
  import opened CellTables
  import opened Rollups
  import opened Summaries

  datatype Store = Store(layers: Layers, log: Cells)

  /** One transaction: a step of some builder or of the series table, a commit, the finalizing of
      a window or its purge. */
  datatype Act =
    | Lower(m: Move)
    | Append(rows: Cells)
    | Finalize(window: int)
    | Purge(window: int)

  function Merged(t: Cells, u: Cells): Cells { map c | c in t.Keys + u.Keys :: At(t, c) + At(u, c) }

  function Only(t: Cells, x: int): Cells { map c | c in t && c.window == x :: t[c] }

  function Without(t: Cells, x: int): Cells { map c | c in t && c.window != x :: t[c] }

  /** The bucket rows that finalizing a window writes. */
  function Materialized(w: Store, x: int): Cells {
    var rows := Only(w.log, x);
    map c | c in rows :: At(w.layers.base.buckets, c) + rows[c]
  }

  /** The buckets change only by finalizing and purging, and a series in the log is not dropped. */
  predicate Allowed(w: Store, a: Act) {
    match a
    case Lower(m) =>
      && Ready(w.layers, m) && !(m.Below? && m.e.Change?)
      && (m.Below? && m.e.DropSeries? ==> forall c :: c in w.log ==> c.series != m.e.id)
    case Append(rows) => forall c :: c in rows ==> c.series in w.layers.base.series
    case Finalize(x) => Enabled(w.layers.base, Change({}, Materialized(w, x)))
    case Purge(_) => true
  }

  function Do(w: Store, g: nat -> nat, a: Act): Store
    requires Allowed(w, a)
  {
    match a
    case Lower(m) => w.(layers := Next(w.layers, g, m))
    case Append(rows) => w.(log := Merged(w.log, rows))
    case Finalize(x) =>
      if Only(w.log, x) == map[] then w
      else Store(Next(w.layers, g, Below(Change({}, Materialized(w, x)))), Without(w.log, x))
    case Purge(x) =>
      Store(Next(w.layers, g, Below(Change(HourCells(w.layers.base.buckets, x), map[]))), Without(w.log, x))
  }

  ghost predicate StoreInv(w: Store, g: nat -> nat) {
    LayersInv(w.layers, g) && forall c :: c in w.log ==> c.series in w.layers.base.series
  }

  const NO_STORE := Store(NO_LAYERS, map[])

  predicate CanDo(w: Store, g: nat -> nat, acts: seq<Act>)
    decreases acts
  {
    acts == [] || (Allowed(w, acts[0]) && CanDo(Do(w, g, acts[0]), g, acts[1..]))
  }

  function DoAll(w: Store, g: nat -> nat, acts: seq<Act>): Store
    requires CanDo(w, g, acts)
    decreases acts
  {
    if acts == [] then w else DoAll(Do(w, g, acts[0]), g, acts[1..])
  }

  /** What one transaction makes of everything committed and not purged. */
  function Recorded(j: Cells, a: Act): Cells {
    match a
    case Append(rows) => Merged(j, rows)
    case Purge(x) => Without(j, x)
    case _ => j
  }

  function Journal(j: Cells, acts: seq<Act>): Cells
    decreases acts
  {
    if acts == [] then j else Journal(Recorded(j, acts[0]), acts[1..])
  }

  /** Whether a window is purged by one of some transactions. */
  ghost predicate Purged(acts: seq<Act>, x: int) { exists i :: 0 <= i < |acts| && acts[i] == Purge(x) }

  /** The rows of a group in a range whose windows some later transactions do not purge. */
  ghost function Surviving(acts: seq<Act>, g: nat -> nat, k: nat, lo: int, hi: int): Cell -> bool {
    (c: Cell) => lo <= c.window < hi && g(c.series) == k && !Purged(acts, c.window)
  }

  /** What a range must give to a group: every row of every commit once, unless its window was purged
      afterwards. */
  ghost function Counted(acts: seq<Act>, g: nat -> nat, k: nat, lo: int, hi: int): multiset<nat>
    decreases acts
  {
    if acts == [] then multiset{}
    else
      (if acts[0].Append? then Rows(acts[0].rows, Surviving(acts[1..], g, k, lo, hi)) else multiset{})
      + Counted(acts[1..], g, k, lo, hi)
  }

  // ---------------------------------------------------------------------------------------
  // Tables that hold the same between them.

  /** Cell by cell, t and u together hold what j holds. */
  ghost predicate Together(t: Cells, u: Cells, j: Cells) { forall c: Cell :: At(t, c) + At(u, c) == At(j, c) }

  lemma Interchange(a: multiset<nat>, b: multiset<nat>, c: multiset<nat>, d: multiset<nat>)
    ensures (a + b) + (c + d) == (a + c) + (b + d)
  {
  }

  lemma {:induction false} RowsTogether(t: Cells, u: Cells, j: Cells, f: Cell -> bool)
    requires Together(t, u, j)
    ensures Rows(t, f) + Rows(u, f) == Rows(j, f)
    decreases |t| + |u| + |j|
  {
    hide Rows, At;
    if t == map[] && u == map[] && j == map[] {
      NoRows(f);
      Nothing(Rows(t, f));
    } else {
      var c := Member(t, u, j);
      TogetherWithout(t, u, j, c);
      RowsTogether(t - {c}, u - {c}, j - {c}, f);
      OneTogether(t, u, j, c, f);
    }
  }

  lemma TogetherWithout(t: Cells, u: Cells, j: Cells, c: Cell)
    requires Together(t, u, j)
    ensures Together(t - {c}, u - {c}, j - {c})
  {
    forall d: Cell ensures At(t - {c}, d) + At(u - {c}, d) == At(j - {c}, d) {
      assert At(t, d) + At(u, d) == At(j, d);
    }
  }

  lemma OneTogether(t: Cells, u: Cells, j: Cells, c: Cell, f: Cell -> bool)
    requires Together(t, u, j) && Rows(t - {c}, f) + Rows(u - {c}, f) == Rows(j - {c}, f)
    ensures Rows(t, f) + Rows(u, f) == Rows(j, f)
  {
    hide Rows, At;
    RowsWithout(t, c, f);
    RowsWithout(u, c, f);
    RowsWithout(j, c, f);
    assert At(t, c) + At(u, c) == At(j, c);
    if f(c) {
      Interchange(At(t, c), Rows(t - {c}, f), At(u, c), Rows(u - {c}, f));
    } else {
      Nothing(Rows(t - {c}, f));
      Nothing(Rows(u - {c}, f));
      Nothing(Rows(j - {c}, f));
    }
  }

  lemma Member(t: Cells, u: Cells, j: Cells) returns (c: Cell)
    requires t != map[] || u != map[] || j != map[]
    ensures c in t || c in u || c in j
  {
    if t != map[] { c :| c in t; } else if u != map[] { c :| c in u; } else { c :| c in j; }
  }

  /** A merged table holds in each cell what the two held. */
  lemma MergedIs(t: Cells, u: Cells)
    ensures Together(t, u, Merged(t, u))
    ensures Merged(t, u).Keys == t.Keys + u.Keys
  {
  }

  /** The journal of a run gives a group what each commit put in the range, but for what was purged
      afterwards. */
  lemma {:induction false} JournalCounts(j: Cells, acts: seq<Act>, g: nat -> nat, k: nat, lo: int, hi: int)
    ensures Rows(Journal(j, acts), OfGroup(g, k, lo, hi)) == Rows(j, Surviving(acts, g, k, lo, hi)) + Counted(acts, g, k, lo, hi)
    decreases acts
  {
    hide Rows, Merged, Without;
    if acts == [] {
      forall c: Cell ensures Surviving(acts, g, k, lo, hi)(c) <==> OfGroup(g, k, lo, hi)(c) {
        assert !Purged(acts, c.window);
      }
      RowsAgree(j, j, OfGroup(g, k, lo, hi), Surviving(acts, g, k, lo, hi));
      Nothing(Rows(j, OfGroup(g, k, lo, hi)));
    } else {
      JournalCounts(Recorded(j, acts[0]), acts[1..], g, k, lo, hi);
      OneRecorded(j, acts, g, k, lo, hi);
    }
  }

  lemma OneRecorded(j: Cells, acts: seq<Act>, g: nat -> nat, k: nat, lo: int, hi: int)
    requires acts != []
    ensures Rows(Recorded(j, acts[0]), Surviving(acts[1..], g, k, lo, hi))
         == Rows(j, Surviving(acts, g, k, lo, hi))
            + if acts[0].Append? then Rows(acts[0].rows, Surviving(acts[1..], g, k, lo, hi)) else multiset{}
  {
    hide Rows, Merged;
    var f, rest := Surviving(acts, g, k, lo, hi), Surviving(acts[1..], g, k, lo, hi);
    forall c: Cell ensures f(c) <==> rest(c) && acts[0] != Purge(c.window) { PurgedIs(acts, c.window); }
    Nothing(Rows(j, f));
    match acts[0] {
      case Append(rows) =>
        MergedIs(j, rows);
        RowsTogether(j, rows, Merged(j, rows), rest);
        RowsAgree(j, j, f, rest);
      case Purge(x) => RowsAgree(j, Without(j, x), f, rest);
      case _ => RowsAgree(j, j, f, rest);
    }
  }

  lemma PurgedIs(acts: seq<Act>, x: int)
    requires acts != []
    ensures Purged(acts, x) <==> acts[0] == Purge(x) || Purged(acts[1..], x)
  {
    if i :| 0 <= i < |acts| && acts[i] == Purge(x) {
      if i > 0 { assert acts[1..][i - 1] == Purge(x); }
    }
    if i :| 0 <= i < |acts[1..]| && acts[1..][i] == Purge(x) { assert acts[i + 1] == Purge(x); }
  }

  lemma {:induction false} ScanSplits(t: Cells, lo: int, mid: int, hi: int, g: nat -> nat, k: nat, n: nat)
    requires lo <= mid <= hi
    ensures GroupScan(t, lo, hi, g, k, n) == GroupScan(t, lo, mid, g, k, n) + GroupScan(t, mid, hi, g, k, n)
  {
    hide SumRange;
    if n > 0 {
      ScanSplits(t, lo, mid, hi, g, k, n - 1);
      SumSplits(t, n - 1, lo, mid, hi);
      Interchange(GroupScan(t, lo, mid, g, k, n - 1), GroupScan(t, mid, hi, g, k, n - 1),
                  SumRange(t, n - 1, lo, mid), SumRange(t, n - 1, mid, hi));
    }
  }

  lemma FinalizeTogether(w: Store, g: nat -> nat, x: int, j: Cells)
    requires Allowed(w, Finalize(x)) && Together(w.layers.base.buckets, w.log, j)
    ensures var v := Do(w, g, Finalize(x)); Together(v.layers.base.buckets, v.log, j)
  {
    if Only(w.log, x) != map[] {
      var b, put := w.layers.base.buckets, Materialized(w, x);
      forall c: Cell ensures At((b - {}) + put, c) + At(Without(w.log, x), c) == At(j, c) {
        assert At(b, c) + At(w.log, c) == At(j, c);
        Moved(w, x, c);
      }
      FinalizedTables(w, g, x);
    }
  }

  lemma Moved(w: Store, x: int, c: Cell)
    ensures var b, put := w.layers.base.buckets, Materialized(w, x);
            At((b - {}) + put, c) + At(Without(w.log, x), c) == At(b, c) + At(w.log, c)
  {
    if c in w.log && c.window == x { assert c in Only(w.log, x); }
  }

  lemma FinalizedTables(w: Store, g: nat -> nat, x: int)
    requires Allowed(w, Finalize(x)) && Only(w.log, x) != map[]
    ensures var v := Do(w, g, Finalize(x));
            v.layers.base.buckets == (w.layers.base.buckets - {}) + Materialized(w, x) && v.log == Without(w.log, x)
  {
    hide Materialized, Only;
  }

  lemma AppendTogether(w: Store, g: nat -> nat, rows: Cells, j: Cells)
    requires Allowed(w, Append(rows)) && Together(w.layers.base.buckets, w.log, j)
    ensures var v := Do(w, g, Append(rows)); Together(v.layers.base.buckets, v.log, Merged(j, rows))
  {
    hide Merged, At;
    var b, l := w.layers.base.buckets, w.log;
    MergedIs(l, rows);
    MergedIs(j, rows);
    forall c: Cell ensures At(b, c) + At(Merged(l, rows), c) == At(Merged(j, rows), c) {
      assert At(b, c) + At(l, c) == At(j, c);
    }
  }

  lemma PurgeTogether(w: Store, g: nat -> nat, x: int, j: Cells)
    requires Together(w.layers.base.buckets, w.log, j)
    ensures var v := Do(w, g, Purge(x)); Together(v.layers.base.buckets, v.log, Without(j, x))
  {
    var v := Do(w, g, Purge(x));
    var b, l := w.layers.base.buckets, w.log;
    forall c: Cell ensures At(v.layers.base.buckets, c) + At(v.log, c) == At(Without(j, x), c) {
      assert At(b, c) + At(l, c) == At(j, c);
      assert At(v.layers.base.buckets, c) == if c.window == x then multiset{} else At(b, c);
    }
  }

  /** No builder touches a bucket, and only dropping a series loses one. */
  lemma LowerKeepsBuckets(w: Layers, g: nat -> nat, m: Move)
    requires Ready(w, m) && !(m.Below? && m.e.Change?)
    ensures var v := Next(w, g, m);
            && v.base.buckets == w.base.buckets
            && (w.base.series <= v.base.series || (m.Below? && m.e.DropSeries? && v.base.series == w.base.series - {m.e.id}))
  {
    hide Step, Enabled, ConsumeTo, Flush, SummaryLive, HourCells, Batched;
    if m.Below? { StepKeepsBuckets(w.base, m.e); }
  }

  lemma StepKeepsBuckets(w: World, e: Event)
    requires Enabled(w, e) && !e.Change?
    ensures Step(w, e).buckets == w.buckets
    ensures w.series <= Step(w, e).series || (e.DropSeries? && Step(w, e).series == w.series - {e.id})
  {
    hide CopyNext, Visited, HourCells, Live;
    if e.Copy? { CopyKeepsBuckets(w, e.token, e.to); }
  }

  lemma CopyKeepsBuckets(w: World, t: nat, to: nat)
    requires t in w.builders && w.builders[t].phase.Copying?
    ensures CopyNext(w, t, to).buckets == w.buckets && CopyNext(w, t, to).series == w.series
  {
    hide Copied, Live, Further;
  }

  // ---------------------------------------------------------------------------------------
  // Runs.

  lemma DoTogether(w: Store, g: nat -> nat, a: Act, j: Cells)
    requires Allowed(w, a) && Together(w.layers.base.buckets, w.log, j)
    ensures var v := Do(w, g, a); Together(v.layers.base.buckets, v.log, Recorded(j, a))
  {
    match a {
      case Lower(m) =>
        hide Together, Next, Ready;
        LowerKeepsBuckets(w.layers, g, m);
      case Append(rows) => AppendTogether(w, g, rows, j);
      case Finalize(x) => FinalizeTogether(w, g, x, j);
      case Purge(x) => PurgeTogether(w, g, x, j);
    }
  }

  /** The rows a finalize writes are of known series, so its transaction always goes through. */
  lemma FinalizeIsAllowed(w: Store, g: nat -> nat, x: int)
    requires StoreInv(w, g)
    ensures Allowed(w, Finalize(x)) && Allowed(w, Purge(x))
  {
    hide LayersInv;
  }

  lemma DoKeepsInv(w: Store, g: nat -> nat, a: Act)
    requires Contiguous(g) && StoreInv(w, g) && Allowed(w, a)
    ensures StoreInv(Do(w, g, a), g)
  {
    hide LayersInv, Contiguous, Next, Ready, Enabled, HourCells;
    match a {
      case Lower(m) =>
        MoveKeepsInv(w.layers, g, m);
        LowerKeepsBuckets(w.layers, g, m);
      case Append(rows) =>
      case Finalize(x) =>
        var m := Below(Change({}, Materialized(w, x)));
        ChangeReady(w.layers, g, m);
        MoveKeepsInv(w.layers, g, m);
      case Purge(x) =>
        var m := Below(Change(HourCells(w.layers.base.buckets, x), map[]));
        ChangeReady(w.layers, g, m);
        MoveKeepsInv(w.layers, g, m);
    }
  }

  lemma ChangeReady(w: Layers, g: nat -> nat, m: Move)
    requires m.Below? && m.e.Change?
    ensures Ready(w, m) <==> Enabled(w.base, m.e)
    ensures m.e.put == map[] ==> Enabled(w.base, m.e)
    ensures Ready(w, m) ==> Next(w, g, m).base.series == w.base.series
  {
  }

  lemma {:induction false} DoAllKeeps(w: Store, g: nat -> nat, acts: seq<Act>, j: Cells)
    requires Contiguous(g) && StoreInv(w, g) && CanDo(w, g, acts) && Together(w.layers.base.buckets, w.log, j)
    ensures var v := DoAll(w, g, acts);
            StoreInv(v, g) && Together(v.layers.base.buckets, v.log, Journal(j, acts))
    decreases acts
  {
    if acts != [] {
      hide StoreInv, Do, Allowed, Contiguous, Together, Recorded;
      DoKeepsInv(w, g, acts[0]);
      DoTogether(w, g, acts[0], j);
      DoAllKeeps(Do(w, g, acts[0]), g, acts[1..], Recorded(j, acts[0]));
    }
  }

  // ---------------------------------------------------------------------------------------
  // Reading a range.

  /** A rolled stretch is one complete hour. */
  predicate Sound(w: World, r: Range) {
    && r.lo < r.hi
    && (r.rolled ==> r.hi == r.lo + HOUR && r.lo in w.marks && w.marks[r.lo].state == 2)
  }

  /** Stretches that tile [lo, hi), each sound, no two neighbours both read from the buckets. */
  predicate Cover(w: World, ranges: seq<Range>, lo: int, hi: int) {
    && |ranges| > 0 && ranges[0].lo == lo && ranges[|ranges| - 1].hi == hi
    && (forall i :: 0 <= i < |ranges| ==> Sound(w, ranges[i]))
    && (forall i, j :: 0 <= i < |ranges| - 1 && j == i + 1 ==>
          ranges[i].hi == ranges[j].lo && (ranges[i].rolled || ranges[j].rolled))
  }

  /** An hour's summary is read when the query may use it, it is complete for sums, and its source
      is the rollup that is complete now. */
  predicate FromSummary(w: Store, gate: int -> bool, r: Range) {
    r.rolled && gate(r.lo) && Current(w.layers, r.lo) && w.layers.smarks[r.lo].state == 2
  }

  /** What one stretch gives to a group: one of three sources, and the log rows beside it. */
  function ReadStretch(w: Store, gate: int -> bool, g: nat -> nat, k: nat, n: nat, r: Range): multiset<nat> {
    (if FromSummary(w, gate, r) then At(w.layers.summary, Cell(r.lo, k))
     else if r.rolled then PartSum(w.layers.base.hourly, r.lo, g, k, n)
     else GroupScan(w.layers.base.buckets, r.lo, r.hi, g, k, n))
    + GroupScan(w.log, r.lo, r.hi, g, k, n)
  }

  function ReadStretches(w: Store, gate: int -> bool, g: nat -> nat, k: nat, n: nat, ranges: seq<Range>): multiset<nat> {
    if ranges == [] then multiset{}
    else
      ReadStretches(w, gate, g, k, n, ranges[..|ranges| - 1]) + ReadStretch(w, gate, g, k, n, ranges[|ranges| - 1])
  }

  /** What scanning both durable tables gives to a group. */
  function ScanBoth(w: Store, lo: int, hi: int, g: nat -> nat, k: nat, n: nat): multiset<nat> {
    GroupScan(w.layers.base.buckets, lo, hi, g, k, n) + GroupScan(w.log, lo, hi, g, k, n)
  }

  predicate Numbered(w: Store, n: nat) { forall s :: s in w.layers.base.series ==> s < n }

  /** What the rows of both durable tables hold of a group in a range, each once. */
  ghost function RowsOfBoth(w: Store, lo: int, hi: int, g: nat -> nat, k: nat): multiset<nat> {
    Rows(w.layers.base.buckets, OfGroup(g, k, lo, hi)) + Rows(w.log, OfGroup(g, k, lo, hi))
  }

  /** Scanning both tables counts each of their rows once. */
  lemma ScanBothIsRows(w: Store, lo: int, hi: int, g: nat -> nat, k: nat, n: nat)
    requires StoreInv(w, g) && Numbered(w, n)
    ensures ScanBoth(w, lo, hi, g, k, n) == RowsOfBoth(w, lo, hi, g, k)
  {
    hide GroupScan, Rows, SummaryOk, SourcesOver, HourOk;
    ScanIsRows(w.layers.base.buckets, lo, hi, g, k, n);
    ScanIsRows(w.log, lo, hi, g, k, n);
  }

  /** Whichever source answers a stretch, it answers what the two tables would. */
  lemma StretchIsExact(w: Store, gate: int -> bool, g: nat -> nat, k: nat, n: nat, r: Range)
    requires StoreInv(w, g) && Numbered(w, n) && Sound(w.layers.base, r)
    ensures ReadStretch(w, gate, g, k, n, r) == ScanBoth(w, r.lo, r.hi, g, k, n) == RowsOfBoth(w, r.lo, r.hi, g, k)
  {
    hide GroupScan, PartSum, Exact, SummaryOk, SourcesOver, Inv, RowsOfBoth, Rows;
    ScanBothIsRows(w, r.lo, r.hi, g, k, n);
    if r.rolled {
      var base := w.layers.base;
      ExactWhenComplete(base, r.lo);
      ScanIsPartSum(base, r.lo, g, k, n);
      if FromSummary(w, gate, r) {
        RowsAreSeries(base, r.lo);
        SummaryReadIsExact(w.layers, g, r.lo, k, n);
      }
    }
  }

  lemma {:induction false} CoverIsExact(w: Store, gate: int -> bool, g: nat -> nat, k: nat, n: nat, ranges: seq<Range>,
                                        lo: int, hi: int)
    requires StoreInv(w, g) && Numbered(w, n) && Cover(w.layers.base, ranges, lo, hi)
    ensures lo < hi && ReadStretches(w, gate, g, k, n, ranges) == ScanBoth(w, lo, hi, g, k, n)
    decreases |ranges|
  {
    hide StoreInv, ReadStretch, GroupScan, Numbered;
    var m := |ranges| - 1;
    var r, before := ranges[m], ranges[..m];
    StretchIsExact(w, gate, g, k, n, r);
    if m == 0 {
      assert before == [];
      assert multiset{} + ReadStretch(w, gate, g, k, n, r) == ReadStretch(w, gate, g, k, n, r);
    } else {
      assert before[m - 1] == ranges[m - 1];
      CoverIsExact(w, gate, g, k, n, before, lo, r.lo);
      ScanBothSplits(w, lo, r.lo, hi, g, k, n);
    }
  }

  lemma ScanBothSplits(w: Store, lo: int, mid: int, hi: int, g: nat -> nat, k: nat, n: nat)
    requires lo <= mid <= hi
    ensures ScanBoth(w, lo, hi, g, k, n) == ScanBoth(w, lo, mid, g, k, n) + ScanBoth(w, mid, hi, g, k, n)
  {
    hide GroupScan;
    var b, l := w.layers.base.buckets, w.log;
    ScanSplits(b, lo, mid, hi, g, k, n);
    ScanSplits(l, lo, mid, hi, g, k, n);
    Interchange(GroupScan(b, lo, mid, g, k, n), GroupScan(b, mid, hi, g, k, n),
                GroupScan(l, lo, mid, g, k, n), GroupScan(l, mid, hi, g, k, n));
  }

  /** Over every interleaving of commits, finalizing, retention, rollup builders, summary builders
      and cleaners: however a read takes its hours from summaries, rollups and buckets, with the
      log beside them, it gives each group every row that a commit put in the range exactly once,
      unless its window was purged afterwards. */
  lemma MixedReadIsExact(g: nat -> nat, acts: seq<Act>, gate: int -> bool, k: nat, n: nat, ranges: seq<Range>,
                         start: int, end: int)
    requires Contiguous(g) && CanDo(NO_STORE, g, acts)
    requires Numbered(DoAll(NO_STORE, g, acts), n) && Cover(DoAll(NO_STORE, g, acts).layers.base, ranges, start, end)
    ensures ReadStretches(DoAll(NO_STORE, g, acts), gate, g, k, n, ranges)
         == Counted(acts, g, k, start, end)
  {
    var w := DoAll(NO_STORE, g, acts);
    NothingYet(g);
    hide *;
    DoAllKeeps(NO_STORE, g, acts, map[]);
    CoverIsExact(w, gate, g, k, n, ranges, start, end);
    ScanBothIsRows(w, start, end, g, k, n);
    RowsOfJournal(w, Journal(map[], acts), start, end, g, k);
    JournalCounts(map[], acts, g, k, start, end);
    NoRows(Surviving(acts, g, k, start, end));
    Nothing(Counted(acts, g, k, start, end));
  }

  lemma RowsOfJournal(w: Store, j: Cells, lo: int, hi: int, g: nat -> nat, k: nat)
    requires Together(w.layers.base.buckets, w.log, j)
    ensures RowsOfBoth(w, lo, hi, g, k) == Rows(j, OfGroup(g, k, lo, hi))
  {
    hide Rows;
    RowsTogether(w.layers.base.buckets, w.log, j, OfGroup(g, k, lo, hi));
  }

  lemma NothingYet(g: nat -> nat)
    ensures StoreInv(NO_STORE, g) && Together(NO_STORE.layers.base.buckets, NO_STORE.log, map[])
  {
    hide StageOk, Summarized, Exact, Progress;
    assert Inv(EMPTY);
  }

  // ---------------------------------------------------------------------------------------
  // The read itself.

  /** One more stretch: joined to the last when both are read from the buckets. */
  function Join(ranges: seq<Range>, r: Range): seq<Range> {
    var last := |ranges| - 1;
    if last >= 0 && !r.rolled && !ranges[last].rolled then ranges[last := Range(ranges[last].lo, r.hi, false)]
    else ranges + [r]
  }

  lemma JoinCovers(w: World, ranges: seq<Range>, r: Range, lo: int)
    requires Sound(w, r) && if ranges == [] then r.lo == lo else Cover(w, ranges, lo, r.lo)
    ensures Cover(w, Join(ranges, r), lo, r.hi) && Join(ranges, r) != []
    ensures forall q :: (q in ranges || q == r) && q.rolled ==> q in Join(ranges, r)
  {
    hide Sound;
    var joined, last := Join(ranges, r), |ranges| - 1;
    if last >= 0 && !r.rolled && !ranges[last].rolled {
      JoinedSound(w, ranges[last], r);
      forall q | q in ranges && q.rolled ensures q in joined {
        var i :| 0 <= i <= last && ranges[i] == q;
        assert joined[i] == q;
      }
    } else {
      assert joined[last + 1] == r;
      forall i | 0 <= i <= last ensures joined[i] == ranges[i] {}
    }
  }

  lemma JoinedSound(w: World, q: Range, r: Range)
    requires Sound(w, q) && Sound(w, r) && q.hi == r.lo
    ensures Sound(w, Range(q.lo, r.hi, false))
  {
  }

  lemma StretchIsSound(w: World, h: int, start: int, end: int)
    requires h % HOUR == 0 && h < end && start < end && h + HOUR > start
    ensures var r := RangeOf(w, h, start, end);
            Sound(w, r) && r.lo == (if h < start then start else h) && r.hi == if end < h + HOUR then end else h + HOUR
  {
  }

  /** The hour is complete and lies in the range. */
  predicate Rolled(w: World, h: int, start: int, end: int) {
    h in w.marks && h % HOUR == 0 && w.marks[h].state == 2 && start <= h && h + HOUR <= end
  }

  /** Lists the stretches of a range: every complete hour is one, and neighbours that are both read
      from the buckets are joined. */
  method Intervals(w: World, start: int, end: int) returns (ranges: seq<Range>)
    requires start < end
    ensures Cover(w, ranges, start, end)
    ensures forall h :: Rolled(w, h, start, end) ==> Range(h, h + HOUR, true) in ranges
  {
    hide Cover, Join, RangeOf, Sound, HourStart;
    HourStartIsFloor(start);
    var h := HourStart(start);
    ranges := [];
    while h < end
      invariant h % HOUR == 0 && h + HOUR > start && (ranges == [] ==> h <= start)
      invariant ranges != [] ==> h > start && Cover(w, ranges, start, if h < end then h else end)
      invariant forall x :: x < h && Rolled(w, x, start, end) ==> Range(x, x + HOUR, true) in ranges
      invariant h >= end ==> ranges != []
      decreases end - h
    {
      var r := RangeOf(w, h, start, end);
      StretchIsSound(w, h, start, end);
      JoinCovers(w, ranges, r, start);
      RolledStretch(w, h, start, end);
      forall x | h <= x < h + HOUR && Rolled(w, x, start, end) ensures x == h { SameHour(x, h); }
      ranges := Join(ranges, r);
      NextHour(h);
      h := h + HOUR;
    }
  }

  lemma RolledStretch(w: World, h: int, start: int, end: int)
    ensures Rolled(w, h, start, end) ==> RangeOf(w, h, start, end) == Range(h, h + HOUR, true)
  {
  }

  lemma SameHour(x: int, h: int)
    requires x % HOUR == 0 && h % HOUR == 0 && h <= x < h + HOUR
    ensures x == h
  {
  }

  /** The total of one group over a range, stretch by stretch. */
  method SumSnapshot(w: Store, gate: int -> bool, g: nat -> nat, k: nat, n: nat, start: int, end: int)
    returns (total: multiset<nat>)
    requires StoreInv(w, g) && Numbered(w, n) && start < end
    ensures total == RowsOfBoth(w, start, end, g, k)
  {
    ScanBothIsRows(w, start, end, g, k, n);
    hide StoreInv, ReadStretch, GroupScan, Numbered, Cover;
    var ranges := Intervals(w.layers.base, start, end);
    total := multiset{};
    for i := 0 to |ranges|
      invariant total == ReadStretches(w, gate, g, k, n, ranges[..i])
    {
      total := total + ReadStretch(w, gate, g, k, n, ranges[i]);
      assert ranges[..i + 1][..i] == ranges[..i];
    }
    assert ranges[..|ranges|] == ranges;
    CoverIsExact(w, gate, g, k, n, ranges, start, end);
  }

  // ---------------------------------------------------------------------------------------
  // Splitting a range among connections.

  const FANOUT: nat := 4
  const MIN_WINDOWS: nat := 6

  /** Consecutive chunks of [lo, hi), cut on window boundaries counted from lo. */
  predicate Chunks(chunks: seq<(int, int)>, lo: int, hi: int) {
    && |chunks| > 0 && chunks[0].0 == lo && chunks[|chunks| - 1].1 == hi
    && (forall i :: 0 <= i < |chunks| ==> chunks[i].0 < chunks[i].1 && (chunks[i].0 - lo) % Durability.WINDOW_SIZE == 0)
    && (forall i, j :: 0 <= i < |chunks| - 1 && j == i + 1 ==> chunks[i].1 == chunks[j].0)
  }

  /** Cuts a range that is wide enough into a few chunks, at most four when it is whole windows. */
  method SplitSelector(start: int, end: int) returns (chunks: seq<(int, int)>)
    requires start < end
    ensures Chunks(chunks, start, end)
    ensures (end - start) % Durability.WINDOW_SIZE == 0 ==> |chunks| <= FANOUT
    ensures (end - start) / Durability.WINDOW_SIZE < 2 * MIN_WINDOWS ==> chunks == [(start, end)]
  {
    var windows := (end - start) / Durability.WINDOW_SIZE;
    var parts := windows / MIN_WINDOWS;
    if parts > FANOUT { parts := FANOUT; }
    if parts <= 1 { return [(start, end)]; }
    var step := (windows + parts - 1) / parts * Durability.WINDOW_SIZE;
    Enough(end - start, parts, step);
    chunks := [];
    var at := start;
    while at < end
      invariant at == start + |chunks| * step
      invariant chunks == [] || Chunks(chunks, start, if at < end then at else end)
      invariant chunks != [] ==> (|chunks| - 1) * step < end - start
      decreases end - at
    {
      Cuts(|chunks|, step);
      chunks := chunks + [(at, if at + step < end then at + step else end)];
      at := at + step;
    }
    if (end - start) % Durability.WINDOW_SIZE == 0 { AtMost(|chunks|, parts, step, end - start); }
  }

  /** The chunks are whole windows, and as many as planned are enough for all the whole windows. */
  lemma Enough(width: int, parts: int, step: int)
    requires width > 0 && 1 < parts <= width / Durability.WINDOW_SIZE
    requires step == (width / Durability.WINDOW_SIZE + parts - 1) / parts * Durability.WINDOW_SIZE
    ensures step > 0 && step % Durability.WINDOW_SIZE == 0
    ensures width % Durability.WINDOW_SIZE == 0 ==> width <= parts * step
  {
    var windows := width / Durability.WINDOW_SIZE;
    var q, r := (windows + parts - 1) / parts, (windows + parts - 1) % parts;
    assert windows + parts - 1 == parts * q + r;
    AtLeastOne(windows + parts - 1, parts);
    assert parts * step == parts * q * Durability.WINDOW_SIZE;
  }

  lemma AtLeastOne(x: int, d: int)
    requires x >= d > 0
    ensures x / d >= 1
  {
  }

  lemma Cuts(n: nat, step: int)
    requires step > 0 && step % Durability.WINDOW_SIZE == 0
    ensures (n * step) % Durability.WINDOW_SIZE == 0 && n * step + step == (n + 1) * step
  {
    var m := step / Durability.WINDOW_SIZE;
    assert n * step == Durability.WINDOW_SIZE * (n * m);
  }

  lemma AtMost(n: int, parts: int, step: int, width: int)
    requires step > 0 && (n - 1) * step < width <= parts * step
    ensures n <= parts
  {
    InOrder(parts, n - 1, step);
  }

  lemma InOrder(x: int, y: int, step: int)
    requires step > 0
    ensures x <= y ==> x * step <= y * step
  {
  }

  function ScanChunks(w: Store, chunks: seq<(int, int)>, g: nat -> nat, k: nat, n: nat): multiset<nat> {
    if chunks == [] then multiset{}
    else
      var most, last := chunks[..|chunks| - 1], chunks[|chunks| - 1];
      ScanChunks(w, most, g, k, n) + ScanBoth(w, last.0, last.1, g, k, n)
  }

  /** Chunks read apart add up to the range read at once. */
  lemma {:induction false} ChunksAddUp(w: Store, chunks: seq<(int, int)>, lo: int, hi: int, g: nat -> nat, k: nat, n: nat)
    requires Chunks(chunks, lo, hi)
    ensures lo < hi && ScanChunks(w, chunks, g, k, n) == ScanBoth(w, lo, hi, g, k, n)
    decreases |chunks|
  {
    hide ScanBoth;
    var m := |chunks| - 1;
    var last, most := chunks[m], chunks[..m];
    if m == 0 {
      assert most == [];
      assert multiset{} + ScanBoth(w, lo, hi, g, k, n) == ScanBoth(w, lo, hi, g, k, n);
    } else {
      assert most[m - 1] == chunks[m - 1];
      ChunksAddUp(w, most, lo, last.0, g, k, n);
      ScanBothSplits(w, lo, last.0, hi, g, k, n);
    }
  }
}
