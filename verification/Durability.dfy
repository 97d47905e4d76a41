/**
 The durable pipeline as a state machine: batches are planned, written and applied; windows
 close, are materialized into buckets and leave memory; the process crashes and recovers; and
 queries read memory first and the store later.

 Recovery admits the replayed rows anew, against an empty census and in any order, so a row may
 come back under its reserve key or a reserve row be charged as a series of its own. What memory
 mirrors is therefore stated by group: per tenant, service, signal, status and window.

 The clock never goes back. A window leaves memory oldest first, and only below every window a
 batch between plan and apply still holds; the program relies on both without enforcing them,
 and the last lemmas say what a query loses when either fails.
 */
module Durability {
  import opened Groups
  import opened Sets
  import opened Tables

  const WINDOW_SIZE: int := 300
  const LATENESS: int := 600

  // ---------------------------------------------------------------------------------------
  // Windows and cutoffs.

  /** The start of the aligned window that holds a Unix second. */
  function WindowStart(sec: int): int { sec - sec % WINDOW_SIZE }

  /** The newest window whose lateness has expired. */
  function FinalizeCutoff(now: int): int { now - WINDOW_SIZE - LATENESS }

  /** The oldest window that is still mutable. */
  function MutableSince(now: int): int { WindowStart(now) - LATENESS }

  /** Whether a point of the window arriving now is refused as late. */
  predicate Late(now: int, window: int) { now >= window + WINDOW_SIZE + LATENESS }

  /** For an aligned window the finalizer, the replay and the intake draw the same line. */
  lemma CutoffsAgree(now: int, window: int)
    requires window % WINDOW_SIZE == 0
    ensures window <= FinalizeCutoff(now) <==> Late(now, window)
    ensures window < MutableSince(now) <==> Late(now, window)
  {
    var q, p := window / WINDOW_SIZE, now / WINDOW_SIZE;
    assert window == WINDOW_SIZE * q && now == WINDOW_SIZE * p + now % WINDOW_SIZE;
  }

  /** The three lines of a window at one moment. */
  predicate Coincide(now: int, window: int) {
    (window <= FinalizeCutoff(now) <==> Late(now, window)) && (window < MutableSince(now) <==> Late(now, window))
  }

  /** The lines coincide at every moment for exactly the aligned windows. */
  lemma CutoffsAgreeExactly(window: int)
    ensures (forall now :: Coincide(now, window)) <==> window % WINDOW_SIZE == 0
  {
    if window % WINDOW_SIZE == 0 {
      forall now ensures Coincide(now, window) { CutoffsAgree(now, window); }
    } else {
      JustTooSoon(window);
    }
  }

  /** One second before a window that is not aligned expires it is below the replay line already. */
  lemma JustTooSoon(window: int)
    requires window % WINDOW_SIZE != 0
    ensures !Coincide(window + WINDOW_SIZE + LATENESS - 1, window)
  {
    var rem, now := window % WINDOW_SIZE, window + WINDOW_SIZE + LATENESS - 1;
    assert now == WINDOW_SIZE * (window / WINDOW_SIZE + 3) + (rem - 1);
    assert now % WINDOW_SIZE == rem - 1;
  }

  /** Alignment is needed: a window that is not aligned can be neither expired nor replayed. */
  lemma UnalignedWindowIsClaimedByNeither()
    ensures !(200 <= FinalizeCutoff(1000)) && 200 < MutableSince(1000)
  {
  }

  // ---------------------------------------------------------------------------------------
  // States and events.

  /** The batch between its plan and its apply. */
  datatype Phase = Idle | Planned(batch: Table) | Landed(batch: Table)

  datatype World = World(
    log: Table, buckets: Table,              // durable
    shards: Table, mutable: set<int>, closed: set<int>, watermark: int,
    phase: Phase, now: int, up: bool,
    committed: Table,                        // every batch whose transaction landed
    applied: Table)                          // every batch whose waiters were answered

  datatype Event =
    | Tick(to: int)
    | Plan(batch: Table, later: int)
    | Reject
    | Land
    | Apply
    | Materialize(window: int)
    | Mark(window: int)
    | Crash
    | Recover(at: int, later: int, resolved: Table)

  function InFlight(p: Phase): Table { if p.Idle? then map[] else p.batch }

  function NotApplied(p: Phase): Table { if p.Landed? then p.batch else map[] }

  ghost predicate IsMin(m: int, s: set<int>) { m in s && forall x :: x in s ==> m <= x }

  lemma {:induction false} MinExists(s: set<int>)
    requires s != {}
    ensures exists m :: IsMin(m, s)
  {
    var x := Pick(s);
    var rest := s - {x};
    assert s == rest + {x};
    if rest == {} {
      assert IsMin(x, s);
    } else {
      MinExists(rest);
      var m :| IsMin(m, rest);
      assert IsMin(if x < m then x else m, s);
    }
  }

  ghost function Oldest(s: set<int>): (m: int)
    requires s != {}
    ensures IsMin(m, s)
  {
    MinExists(s);
    var m :| IsMin(m, s);
    m
  }

  /** The oldest windows beyond a cap; a negative cap is none. */
  ghost function OverCap(closed: set<int>, cap: int): (over: set<int>)
    ensures over <= closed
    ensures forall a, b :: a in over && b in closed - over ==> a < b
    decreases |closed|
  {
    if cap < 0 || |closed| <= cap then {}
    else
      var m := Oldest(closed);
      var rest := OverCap(closed - {m}, cap);
      assert closed - ({m} + rest) == closed - {m} - rest;
      {m} + rest
  }

  /** What is left is as many as the cap allows, and no cap forces nothing out. */
  lemma {:induction false} OverCapSize(closed: set<int>, cap: int)
    ensures cap < 0 || |closed| <= cap ==> OverCap(closed, cap) == {}
    ensures 0 <= cap < |closed| ==> |closed - OverCap(closed, cap)| == cap
    decreases |closed|
  {
    if 0 <= cap < |closed| {
      var m := Oldest(closed);
      OverCapSize(closed - {m}, cap);
      assert closed - ({m} + OverCap(closed - {m}, cap)) == closed - {m} - OverCap(closed - {m}, cap);
    }
  }

  /** The mutable windows whose lateness has expired. */
  function Expired(mutable: set<int>, cutoff: int): set<int> { set w | w in mutable && w <= cutoff }

  ghost predicate IsMax(m: int, s: set<int>) { m in s && forall x :: x in s ==> x <= m }

  lemma {:induction false} MaxExists(s: set<int>)
    requires s != {}
    ensures exists m :: IsMax(m, s)
  {
    var x := Pick(s);
    var rest := s - {x};
    assert s == rest + {x};
    if rest == {} {
      assert IsMax(x, s);
    } else {
      MaxExists(rest);
      var m :| IsMax(m, rest);
      assert IsMax(if m < x then x else m, s);
    }
  }

  /** The watermark once the windows ws have been handed over. */
  ghost function Raised(watermark: int, ws: set<int>): (m: int)
    ensures IsMax(m, ws + {watermark})
  {
    MaxExists(ws + {watermark});
    var m :| IsMax(m, ws + {watermark});
    m
  }

  /** The log rows a recovery replays: those that had not expired when it finalized the log nor when
      it applies them. */
  function Replayed(w: World, at: int, later: int): Table { Above(Above(w.log, FinalizeCutoff(at)), FinalizeCutoff(later)) }

  ghost predicate Enabled(w: World, e: Event) {
    match e
    case Tick(to) => w.now <= to
    case Plan(_, later) => w.up && w.phase.Idle? && w.now <= later
    case Reject => w.up && w.phase.Planned?
    case Land => w.up && w.phase.Planned?
    case Apply => w.up && w.phase.Landed?
    case Materialize(v) => w.up && v <= FinalizeCutoff(w.now)
    case Mark(v) => w.up && v <= FinalizeCutoff(w.now)
    case Crash => true
    case Recover(at, later, resolved) => !w.up && w.now <= at <= later && Readmits(resolved, Replayed(w, at, later))
  }

  /** Closes the expired windows and forces the oldest out of memory past the cap. */
  ghost function Rollover(w: World, cap: int): World {
    var closed := w.closed + Expired(w.mutable, FinalizeCutoff(w.now));
    var over := OverCap(closed, cap);
    w.(shards := Except(w.shards, over), mutable := w.mutable - over, closed := closed - over,
       watermark := Raised(w.watermark, over))
  }

  /** Planning rolls the windows over, unless there is nothing to plan. */
  ghost function Started(w: World, batch: Table, cap: int): World { if |batch| == 0 then w else Rollover(w, cap) }

  /** One window's log rows merged into the buckets. */
  function Materialized(w: World, v: int): World {
    w.(buckets := Plus(w.buckets, Only(w.log, {v})), log := Except(w.log, {v}))
  }

  ghost function Step(w: World, e: Event, cap: int): World
    requires Enabled(w, e)
  {
    match e
    case Tick(to) => w.(now := to)
    case Plan(batch, later) => Started(w, batch, cap).(phase := Planned(Above(batch, FinalizeCutoff(later))), now := later)
    case Reject => w.(phase := Idle)
    case Land => w.(log := Plus(w.log, w.phase.batch), committed := Plus(w.committed, w.phase.batch), phase := Landed(w.phase.batch))
    case Apply =>
      w.(shards := Plus(w.shards, w.phase.batch), mutable := w.mutable + WindowsOf(w.phase.batch),
         applied := Plus(w.applied, w.phase.batch), phase := Idle)
    case Materialize(v) => Materialized(w, v)
    case Mark(v) =>
      w.(shards := Except(w.shards, {v}), mutable := w.mutable - {v}, closed := w.closed - {v},
         watermark := Raised(w.watermark, {v}))
    case Crash => w.(shards := map[], mutable := {}, closed := {}, watermark := 0, phase := Idle, up := false, applied := w.committed)
    case Recover(at, later, resolved) =>
      var expired := UpToCutoff(w.log, FinalizeCutoff(at));
      w.(buckets := Plus(w.buckets, expired), log := Above(w.log, FinalizeCutoff(at)), shards := resolved,
         mutable := WindowsOf(resolved), now := later, up := true)
  }

  /** The assumption on handing a window over: it is older than every other window in memory and
      every window of the batch in flight. */
  predicate Orderly(w: World, e: Event) {
    e.Mark? ==>
      && (forall v :: v in w.mutable && v != e.window ==> e.window < v)
      && (forall v :: v in WindowsOf(InFlight(w.phase)) ==> e.window < v)
  }

  // ---------------------------------------------------------------------------------------
  // Invariants.

  ghost predicate Summed(w: World) {
    && (forall r :: At(w.log, r) + At(w.buckets, r) == At(w.committed, r))
    && (forall r :: At(w.committed, r) == At(w.applied, r) + At(NotApplied(w.phase), r))
  }

  /** Memory holds for each group exactly what was applied to it in the windows memory owns. */
  ghost predicate Mirrored(w: World) {
    forall g :: GroupTotal(w.shards, g) == if g.window in w.mutable then GroupTotal(w.applied, g) else multiset{}
  }

  /** What was applied to a window that left memory is expired, and lies below everything memory
      still holds or is about to. */
  ghost predicate HandedBelow(w: World) {
    forall r {:trigger At(w.applied, r)} :: At(w.applied, r) != multiset{} && r.window !in w.mutable ==>
      && r.window <= FinalizeCutoff(w.now)
      && (forall v :: v in w.mutable ==> r.window < v)
      && (forall v :: v in WindowsOf(InFlight(w.phase)) ==> r.window < v)
  }

  ghost predicate BucketsExpired(w: World) {
    forall r {:trigger At(w.buckets, r)} :: At(w.buckets, r) != multiset{} ==> r.window <= FinalizeCutoff(w.now)
  }

  ghost predicate Memory(w: World) {
    && Mirrored(w) && HandedBelow(w)
    && w.closed <= w.mutable && forall v :: v in w.closed ==> v <= FinalizeCutoff(w.now)
  }

  ghost predicate Inv(w: World) {
    && Summed(w) && BucketsExpired(w)
    && (if w.up then Memory(w) else w.phase.Idle? && w.mutable == {} && w.closed == {} && w.shards == map[])
  }

  const EMPTY_WORLD := World(map[], map[], map[], {}, {}, 0, Idle, 0, true, map[], map[])

  // ---------------------------------------------------------------------------------------
  // Every event keeps the invariant.

  lemma ExceptAt(t: Table, ws: set<int>)
    ensures forall r :: At(Except(t, ws), r) == if r.window in ws then multiset{} else At(t, r)
    ensures forall r :: At(Only(t, ws), r) == if r.window in ws then At(t, r) else multiset{}
  {
  }

  /** Windows that leave memory oldest first, all expired and below the batch in flight. */
  lemma HandOverKeepsMemory(w: World, over: set<int>, v: World)
    requires Memory(w)
    requires v == w.(shards := Except(w.shards, over), mutable := w.mutable - over, closed := v.closed,
                     watermark := v.watermark)
    requires v.closed <= v.mutable && forall c :: c in v.closed ==> c <= FinalizeCutoff(w.now)
    requires forall a, b :: a in over && b in w.mutable - over ==> a < b
    requires forall a :: a in over ==> a <= FinalizeCutoff(w.now)
    requires forall a, b :: a in over && b in WindowsOf(InFlight(w.phase)) ==> a < b
    ensures Memory(v)
  {
    hide GroupTotal;
    forall g ensures GroupTotal(v.shards, g) == if g.window in v.mutable then GroupTotal(v.applied, g) else multiset{} {
      FilteredTotals(w.shards, over, 0, g);
    }
    assert forall r :: At(v.applied, r) == At(w.applied, r);
  }

  lemma RolloverKeepsMemory(w: World, cap: int)
    requires Memory(w) && w.phase.Idle?
    ensures Memory(Rollover(w, cap))
  {
    hide Memory;
    var closed := w.closed + Expired(w.mutable, FinalizeCutoff(w.now));
    var over := OverCap(closed, cap);
    ClosedIsMutable(w);
    forall a, b | a in over && b in w.mutable - over ensures a < b {
      assert a in closed && (b in closed - over || b > FinalizeCutoff(w.now));
    }
    HandOverKeepsMemory(w, over, Rollover(w, cap));
  }

  lemma ClosedIsMutable(w: World)
    requires Memory(w)
    ensures w.closed <= w.mutable && forall v :: v in w.closed ==> v <= FinalizeCutoff(w.now)
  {
  }

  lemma PlanKeepsMemory(w: World, batch: Table, later: int, cap: int)
    requires w.up && Memory(w) && w.phase.Idle? && w.now <= later
    ensures Memory(Step(w, Plan(batch, later), cap))
  {
    hide Rollover, Above, WindowsOf, At, Memory, GroupTotal;
    RolloverKeepsMemory(w, cap);
    RolloverKeepsRest(w, cap);
    AboveWindows(batch, FinalizeCutoff(later));
    var u := Started(w, batch, cap);
    SameMemory(u, u.(now := later));
    PlannedMemory(u.(now := later), Above(batch, FinalizeCutoff(later)));
    assert Step(w, Plan(batch, later), cap) == u.(now := later).(phase := Planned(Above(batch, FinalizeCutoff(later))));
  }

  lemma PlannedMemory(u: World, b: Table)
    requires Memory(u) && forall x :: x in WindowsOf(b) ==> x > FinalizeCutoff(u.now)
    ensures Memory(u.(phase := Planned(b)))
  {
    hide At, WindowsOf, GroupTotal;
    var v := u.(phase := Planned(b));
    assert forall g :: GroupTotal(v.shards, g) == GroupTotal(u.shards, g);
    assert forall r :: At(v.applied, r) == At(u.applied, r);
  }

  lemma RolloverKeepsRest(w: World, cap: int)
    ensures var v := Rollover(w, cap);
            && v.now == w.now && v.phase == w.phase && v.up == w.up
            && v.log == w.log && v.buckets == w.buckets && v.committed == w.committed && v.applied == w.applied
  {
  }

  /** Memory does not depend on the tables, and only on the clock and the batch in flight. */
  lemma SameMemory(w: World, v: World)
    requires Memory(w) && v.shards == w.shards && v.applied == w.applied && v.mutable == w.mutable && v.closed == w.closed
    requires v.now >= w.now && (InFlight(v.phase) == InFlight(w.phase) || v.phase.Idle?)
    ensures Memory(v)
  {
    hide At, GroupTotal;
    NoWindows();
    assert forall r :: At(v.applied, r) == At(w.applied, r);
    assert forall g :: GroupTotal(v.shards, g) == GroupTotal(w.shards, g);
  }

  lemma RejectKeepsMemory(w: World, cap: int)
    requires Memory(w) && Enabled(w, Reject)
    ensures Memory(Step(w, Reject, cap))
  {
    SameMemory(w, Step(w, Reject, cap));
  }

  lemma LandKeepsMemory(w: World, cap: int)
    requires Memory(w) && Enabled(w, Land)
    ensures Memory(Step(w, Land, cap))
  {
    hide Plus, WindowsOf, At;
    SameMemory(w, Step(w, Land, cap));
  }

  lemma ApplyMirrors(w: World, b: Table, g: Group)
    requires Mirrored(w)
    requires forall x, r: Row :: x in WindowsOf(b) && x !in w.mutable && r.window == x ==> At(w.applied, r) == multiset{}
    ensures GroupTotal(Plus(w.shards, b), g)
         == if g.window in w.mutable + WindowsOf(b) then GroupTotal(Plus(w.applied, b), g) else multiset{}
  {
    hide Plus, WindowsOf, GroupTotal, At;
    PlusTotal(w.shards, b, g);
    PlusTotal(w.applied, b, g);
    TotalHasRow(b, g);
    TotalHasRow(w.applied, g);
    assert GroupTotal(w.shards, g) == if g.window in w.mutable then GroupTotal(w.applied, g) else multiset{};
  }

  lemma ApplyHands(w: World, b: Table, r: Row)
    requires Memory(w) && InFlight(w.phase) == b
    ensures At(Plus(w.applied, b), r) != multiset{} && r.window !in w.mutable + WindowsOf(b) ==>
              && r.window <= FinalizeCutoff(w.now)
              && forall x :: x in w.mutable + WindowsOf(b) ==> r.window < x
  {
    hide Plus, WindowsOf, GroupTotal;
    PlusAt(w.applied, b, r);
    WindowOf(b, r);
  }

  /** Nothing was applied to a window of the batch in flight that has left memory. */
  lemma NothingHanded(w: World, r: Row)
    requires HandedBelow(w) && r.window in WindowsOf(InFlight(w.phase)) && r.window !in w.mutable
    ensures At(w.applied, r) == multiset{}
  {
    hide At, WindowsOf;
  }

  lemma ApplyKeepsMemory(w: World, cap: int)
    requires Memory(w) && Enabled(w, Apply)
    ensures Memory(Step(w, Apply, cap))
  {
    hide Plus, WindowsOf, GroupTotal, At;
    var v, b := Step(w, Apply, cap), w.phase.batch;
    NoWindows();
    ClosedIsMutable(w);
    forall x, r: Row | x in WindowsOf(b) && x !in w.mutable && r.window == x ensures At(w.applied, r) == multiset{} {
      NothingHanded(w, r);
    }
    forall g ensures GroupTotal(v.shards, g) == if g.window in v.mutable then GroupTotal(v.applied, g) else multiset{} {
      ApplyMirrors(w, b, g);
    }
    forall r {:trigger At(v.applied, r)}
      ensures At(v.applied, r) != multiset{} && r.window !in v.mutable ==>
                r.window <= FinalizeCutoff(v.now) && forall x :: x in v.mutable ==> r.window < x
    {
      ApplyHands(w, b, r);
    }
  }

  lemma NoWindows()
    ensures WindowsOf(map[]) == {}
  {
  }

  lemma MarkKeepsMemory(w: World, x: int, cap: int)
    requires Memory(w) && Enabled(w, Mark(x)) && Orderly(w, Mark(x))
    ensures Memory(Step(w, Mark(x), cap))
  {
    HandOverKeepsMemory(w, {x}, Step(w, Mark(x), cap));
  }

  lemma StepKeepsMemory(w: World, e: Event, cap: int)
    requires w.up && Memory(w) && Enabled(w, e) && Orderly(w, e) && !e.Crash?
    ensures Memory(Step(w, e, cap)) && Step(w, e, cap).up
  {
    hide Memory, WindowsOf, Plus, OverCap;
    match e {
      case Tick(to) => SameMemory(w, Step(w, e, cap));
      case Plan(batch, later) => PlanKeepsMemory(w, batch, later, cap);
      case Reject => RejectKeepsMemory(w, cap);
      case Land => LandKeepsMemory(w, cap);
      case Apply => ApplyKeepsMemory(w, cap);
      case Materialize(x) => SameMemory(w, Step(w, e, cap));
      case Mark(x) => MarkKeepsMemory(w, x, cap);
    }
  }

  /** The balance of one row. */
  ghost predicate RowSummed(w: World, r: Row) {
    && At(w.log, r) + At(w.buckets, r) == At(w.committed, r)
    && At(w.committed, r) == At(w.applied, r) + At(NotApplied(w.phase), r)
    && (At(w.buckets, r) != multiset{} ==> r.window <= FinalizeCutoff(w.now))
  }

  lemma LandKeepsRow(w: World, cap: int, r: Row)
    requires RowSummed(w, r) && Enabled(w, Land)
    ensures RowSummed(Step(w, Land, cap), r)
  {
    hide Plus, FinalizeCutoff;
    PlusAt(w.log, w.phase.batch, r);
    PlusAt(w.committed, w.phase.batch, r);
  }

  lemma ApplyKeepsRow(w: World, cap: int, r: Row)
    requires RowSummed(w, r) && Enabled(w, Apply)
    ensures RowSummed(Step(w, Apply, cap), r)
  {
    hide Plus;
    PlusAt(w.applied, w.phase.batch, r);
  }

  lemma MaterializeKeepsRow(w: World, x: int, cap: int, r: Row)
    requires RowSummed(w, r) && Enabled(w, Materialize(x))
    ensures RowSummed(Step(w, Materialize(x), cap), r)
  {
    hide Plus, Only, Except, At, InFlight, NotApplied;
    ExceptAt(w.log, {x});
    PlusAt(w.buckets, Only(w.log, {x}), r);
    MultisetShuffle(At(w.log, r), At(w.buckets, r));
  }

  lemma MultisetShuffle(a: multiset<nat>, b: multiset<nat>)
    ensures multiset{} + (b + a) == a + b && a + multiset{} == a == multiset{} + a
  {
  }

  lemma RecoverKeepsRow(w: World, at: int, later: int, resolved: Table, cap: int, r: Row)
    requires RowSummed(w, r) && Enabled(w, Recover(at, later, resolved)) && w.phase.Idle?
    ensures RowSummed(Step(w, Recover(at, later, resolved), cap), r)
  {
    hide Plus, WindowsOf;
    PlusAt(w.buckets, UpToCutoff(w.log, FinalizeCutoff(at)), r);
  }

  lemma RowStaysSummed(w: World, e: Event, cap: int, r: Row)
    requires RowSummed(w, r) && Enabled(w, e)
    requires !w.up ==> w.phase.Idle?
    ensures RowSummed(Step(w, e, cap), r)
  {
    match e {
      case Land => LandKeepsRow(w, cap, r);
      case Apply => ApplyKeepsRow(w, cap, r);
      case Materialize(x) => MaterializeKeepsRow(w, x, cap, r);
      case Recover(at, later, resolved) => RecoverKeepsRow(w, at, later, resolved, cap, r);
      case Plan(_, _) => RolloverKeepsRest(w, cap);
      case _ =>
    }
  }

  lemma StepKeepsSums(w: World, e: Event, cap: int)
    requires Summed(w) && BucketsExpired(w) && Enabled(w, e)
    requires !w.up ==> w.phase.Idle?
    ensures Summed(Step(w, e, cap)) && BucketsExpired(Step(w, e, cap))
  {
    hide Step, RowSummed;
    forall r ensures RowSummed(Step(w, e, cap), r) {
      RowOf(w, r);
      RowStaysSummed(w, e, cap, r);
    }
    RowsOf(Step(w, e, cap));
  }

  lemma RowOf(w: World, r: Row)
    requires Summed(w) && BucketsExpired(w)
    ensures RowSummed(w, r)
  {
  }

  lemma RowsOf(w: World)
    requires forall r :: RowSummed(w, r)
    ensures Summed(w) && BucketsExpired(w)
  {
    forall r
      ensures At(w.log, r) + At(w.buckets, r) == At(w.committed, r)
      ensures At(w.committed, r) == At(w.applied, r) + At(NotApplied(w.phase), r)
      ensures At(w.buckets, r) != multiset{} ==> r.window <= FinalizeCutoff(w.now)
    {
      assert RowSummed(w, r);
    }
  }

  /** What a recovery replays is what was applied and has not expired. */
  lemma ReplayedIsApplied(w: World, at: int, later: int, r: Row)
    requires Inv(w) && !w.up && w.now <= at <= later
    ensures At(Replayed(w, at, later), r) == if r.window > FinalizeCutoff(later) then At(w.applied, r) else multiset{}
  {
    hide Above, WindowsOf, Summed, BucketsExpired;
    var kept := Above(w.log, FinalizeCutoff(at));
    RowOf(w, r);
    AboveAt(w.log, FinalizeCutoff(at), r);
    AboveAt(kept, FinalizeCutoff(later), r);
    assert At(w.applied, r) + multiset{} == At(w.applied, r);
    assert At(w.log, r) + multiset{} == At(w.log, r) && multiset{} + At(w.buckets, r) == At(w.buckets, r);
  }

  lemma ReplayedWindows(w: World, at: int, later: int)
    ensures forall x :: x in WindowsOf(Replayed(w, at, later)) ==> FinalizeCutoff(later) < x
  {
    hide Above;
    AboveWindows(Above(w.log, FinalizeCutoff(at)), FinalizeCutoff(later));
  }

  lemma RecoverMirrors(w: World, at: int, later: int, resolved: Table, g: Group)
    requires Inv(w) && Enabled(w, Recover(at, later, resolved))
    ensures GroupTotal(resolved, g) == if g.window in WindowsOf(resolved) then GroupTotal(w.applied, g) else multiset{}
  {
    hide Replayed, WindowsOf, Inv, GroupTotal, At;
    var replayed := Replayed(w, at, later);
    TotalHasRow(replayed, g);
    ReplayedWindows(w, at, later);
    if g.window in WindowsOf(replayed) {
      forall r | GroupOf(r) == g ensures At(replayed, r) == At(w.applied, r) { ReplayedIsApplied(w, at, later, r); }
      AtDecides(replayed, w.applied, g);
    }
  }

  lemma RecoverGivesMemory(w: World, at: int, later: int, resolved: Table, cap: int)
    requires Inv(w) && Enabled(w, Recover(at, later, resolved))
    ensures Memory(Step(w, Recover(at, later, resolved), cap)) && Step(w, Recover(at, later, resolved), cap).up
  {
    hide Above, WindowsOf, Plus, UpToCutoff, GroupTotal, Replayed, Summed, BucketsExpired;
    var v := Step(w, Recover(at, later, resolved), cap);
    NoWindows();
    ReplayedWindows(w, at, later);
    forall g ensures GroupTotal(v.shards, g) == if g.window in v.mutable then GroupTotal(v.applied, g) else multiset{} {
      RecoverMirrors(w, at, later, resolved, g);
    }
    forall r {:trigger At(v.applied, r)}
      ensures At(v.applied, r) != multiset{} && r.window !in v.mutable ==>
                r.window <= FinalizeCutoff(v.now) && forall x :: x in v.mutable ==> r.window < x
    {
      ReplayedIsApplied(w, at, later, r);
      WindowOf(Replayed(w, at, later), r);
    }
  }

  /** Whatever happens next, in order, keeps the invariant. */
  lemma StepKeepsInv(w: World, e: Event, cap: int)
    requires Inv(w) && Enabled(w, e) && Orderly(w, e)
    ensures Inv(Step(w, e, cap))
  {
    hide Memory, Summed, BucketsExpired, OverCap, Rollover;
    StepKeepsSums(w, e, cap);
    if e.Recover? {
      RecoverGivesMemory(w, e.at, e.later, e.resolved, cap);
    } else if w.up && !e.Crash? {
      StepKeepsMemory(w, e, cap);
      if e.Plan? { RolloverKeepsRest(w, cap); }
    }
  }

  // ---------------------------------------------------------------------------------------
  // Runs.

  ghost predicate Possible(w: World, events: seq<Event>, cap: int)
    decreases events
  {
    events == [] || (Enabled(w, events[0]) && Possible(Step(w, events[0], cap), events[1..], cap))
  }

  ghost function Run(w: World, events: seq<Event>, cap: int): World
    requires Possible(w, events, cap)
    decreases events
  {
    if events == [] then w else Run(Step(w, events[0], cap), events[1..], cap)
  }

  ghost predicate InOrder(w: World, events: seq<Event>, cap: int)
    requires Possible(w, events, cap)
    decreases events
  {
    events == [] || (Orderly(w, events[0]) && InOrder(Step(w, events[0], cap), events[1..], cap))
  }

  lemma {:induction false} RunKeepsInv(w: World, events: seq<Event>, cap: int)
    requires Inv(w) && Possible(w, events, cap) && InOrder(w, events, cap)
    ensures Inv(Run(w, events, cap))
    decreases events
  {
    if events != [] {
      hide Step, Inv;
      StepKeepsInv(w, events[0], cap);
      RunKeepsInv(Step(w, events[0], cap), events[1..], cap);
    }
  }

  lemma StartsInOrder()
    ensures Inv(EMPTY_WORLD)
  {
  }

  /** Nothing committed is ever taken back. */
  lemma {:induction false} CommittedGrows(w: World, events: seq<Event>, cap: int, r: Row)
    requires Possible(w, events, cap) && Summed(w) && BucketsExpired(w) && (!w.up ==> w.phase.Idle?)
    ensures At(w.committed, r) <= At(Run(w, events, cap).committed, r)
    ensures Summed(Run(w, events, cap))
    decreases events
  {
    if events != [] {
      hide Summed, BucketsExpired;
      StepGrows(w, events[0], cap, r);
      StepKeepsSums(w, events[0], cap);
      CommittedGrows(Step(w, events[0], cap), events[1..], cap, r);
    }
  }

  lemma StepGrows(w: World, e: Event, cap: int, r: Row)
    requires Enabled(w, e) && (!w.up ==> w.phase.Idle?)
    ensures At(w.committed, r) <= At(Step(w, e, cap).committed, r)
    ensures !Step(w, e, cap).up ==> Step(w, e, cap).phase.Idle?
  {
    hide OverCap, Raised, WindowsOf;
  }

  // ---------------------------------------------------------------------------------------
  // Queries.

  /** The end of the range the store answers: the oldest window memory owns in the range. */
  ghost function StoreEnd(mutable: set<int>, start: int, end: int): int {
    var inside := set m | m in mutable && start <= m < end;
    if inside == {} then end else Oldest(inside)
  }

  /** What a query over [start, end) counts for a group: memory as it was at the first read for the
      windows memory owned then, and the log and buckets at the second read below them. */
  ghost function Answer(first: World, second: World, start: int, end: int, g: Group): multiset<nat> {
    if !(start <= g.window < end) then multiset{}
    else if g.window in first.mutable then GroupTotal(first.shards, g)
    else if g.window < StoreEnd(first.mutable, start, end) then GroupTotal(second.log, g) + GroupTotal(second.buckets, g)
    else multiset{}
  }

  lemma NothingPastStoreEnd(w: World, start: int, end: int, g: Group)
    requires Memory(w) && start <= g.window < end && g.window !in w.mutable && GroupTotal(w.applied, g) != multiset{}
    ensures g.window < StoreEnd(w.mutable, start, end)
  {
    hide GroupTotal, At;
    TotalHasRow(w.applied, g);
  }

  /** The durable totals of a group. */
  lemma GroupsSummed(w: World, g: Group)
    requires Summed(w)
    ensures GroupTotal(w.log, g) + GroupTotal(w.buckets, g) == GroupTotal(w.committed, g)
    ensures GroupTotal(w.committed, g) == GroupTotal(w.applied, g) + GroupTotal(NotApplied(w.phase), g)
  {
    hide GroupTotal, At;
    TotalsAdd(w.log, w.buckets, w.committed, g);
    TotalsAdd(w.applied, NotApplied(w.phase), w.committed, g);
  }

  lemma {:induction false} GroupsGrow(w: World, events: seq<Event>, cap: int, g: Group)
    requires Possible(w, events, cap) && Summed(w) && BucketsExpired(w) && (!w.up ==> w.phase.Idle?)
    ensures GroupTotal(w.committed, g) <= GroupTotal(Run(w, events, cap).committed, g)
    decreases events
  {
    hide GroupTotal, Summed, BucketsExpired;
    if events != [] {
      StepGroups(w, events[0], cap, g);
      StepKeepsSums(w, events[0], cap);
      GroupsGrow(Step(w, events[0], cap), events[1..], cap, g);
    }
  }

  lemma StepGroups(w: World, e: Event, cap: int, g: Group)
    requires Enabled(w, e) && (!w.up ==> w.phase.Idle?)
    ensures GroupTotal(w.committed, g) <= GroupTotal(Step(w, e, cap).committed, g)
    ensures !Step(w, e, cap).up ==> Step(w, e, cap).phase.Idle?
  {
    hide OverCap, Raised, WindowsOf, GroupTotal, Plus, Replayed;
    if e.Land? { PlusTotal(w.committed, w.phase.batch, g); }
  }

  /** A query sees each contribution of its range once: everything acknowledged before its first
      read, and nothing that is not committed by its second, even when windows are handed over,
      batches land and the process crashes between the two. Outside its range it sees nothing. */
  lemma QueryCountsOnce(w: World, events: seq<Event>, cap: int, start: int, end: int, g: Group)
    requires Inv(w) && w.up && Possible(w, events, cap)
    ensures var v := Run(w, events, cap);
            && (start <= g.window < end ==>
                  GroupTotal(w.applied, g) <= Answer(w, v, start, end, g) <= GroupTotal(v.committed, g))
            && (!(start <= g.window < end) ==> Answer(w, v, start, end, g) == multiset{})
  {
    if start <= g.window < end { InRangeCountsOnce(w, events, cap, start, end, g); }
  }

  lemma InRangeCountsOnce(w: World, events: seq<Event>, cap: int, start: int, end: int, g: Group)
    requires Inv(w) && w.up && Possible(w, events, cap) && start <= g.window < end
    ensures var v := Run(w, events, cap);
            GroupTotal(w.applied, g) <= Answer(w, v, start, end, g) <= GroupTotal(v.committed, g)
  {
    hide Run, Possible, StoreEnd, GroupTotal, HandedBelow, At;
    GroupsGrow(w, events, cap, g);
    EndsSummed(w, events, cap);
    GroupsSummed(w, g);
    GroupsSummed(Run(w, events, cap), g);
    if g.window !in w.mutable && GroupTotal(w.applied, g) != multiset{} {
      NothingPastStoreEnd(w, start, end, g);
    }
  }

  lemma {:induction false} EndsSummed(w: World, events: seq<Event>, cap: int)
    requires Possible(w, events, cap) && Summed(w) && BucketsExpired(w) && (!w.up ==> w.phase.Idle?)
    ensures Summed(Run(w, events, cap))
    decreases events
  {
    if events != [] {
      hide Summed, BucketsExpired;
      StepStaysIdle(w, events[0], cap);
      StepKeepsSums(w, events[0], cap);
      EndsSummed(Step(w, events[0], cap), events[1..], cap);
    }
  }

  lemma StepStaysIdle(w: World, e: Event, cap: int)
    requires Enabled(w, e) && (!w.up ==> w.phase.Idle?)
    ensures !Step(w, e, cap).up ==> Step(w, e, cap).phase.Idle?
  {
    hide OverCap, Raised, WindowsOf, Plus, Readmits;
  }

  /** What a table holds in all of some groups together. */
  ghost function TotalOf(t: Table, gs: set<Group>): multiset<nat>
    decreases gs
  {
    if gs == {} then multiset{}
    else
      var g := Any(gs);
      GroupTotal(t, g) + TotalOf(t, gs - {g})
  }

  /** What a query answers for all of them together. */
  ghost function AnswerOf(first: World, second: World, start: int, end: int, gs: set<Group>): multiset<nat>
    decreases gs
  {
    if gs == {} then multiset{}
    else
      var g := Any(gs);
      Answer(first, second, start, end, g) + AnswerOf(first, second, start, end, gs - {g})
  }

  ghost function Any(gs: set<Group>): (g: Group)
    requires gs != {}
    ensures g in gs
  {
    var g :| g in gs;
    g
  }

  /** The groups among them whose window a query covers. */
  function Covered(gs: set<Group>, start: int, end: int): set<Group> { set g | g in gs && start <= g.window < end }

  lemma {:induction false} TotalWithout(t: Table, gs: set<Group>, g: Group)
    requires g in gs
    ensures TotalOf(t, gs) == GroupTotal(t, g) + TotalOf(t, gs - {g})
    decreases gs
  {
    hide GroupTotal, Any;
    var a := Any(gs);
    AnyIn(gs);
    if a != g {
      TotalWithout(t, gs - {a}, g);
      TotalWithout(t, gs - {g}, a);
      assert gs - {a} - {g} == gs - {g} - {a};
      Swap(GroupTotal(t, a), GroupTotal(t, g), TotalOf(t, gs - {g} - {a}));
    }
  }

  lemma AnyIn(gs: set<Group>)
    requires gs != {}
    ensures Any(gs) in gs
  {
  }

  /** Whatever groups a caller adds up, a query counts of them exactly what lies in its range: at least
      what was acknowledged there before its first read and at most what is committed there by its
      second. */
  lemma {:induction false} QueryTotalsCountOnce(w: World, events: seq<Event>, cap: int, start: int, end: int, gs: set<Group>)
    requires Inv(w) && w.up && Possible(w, events, cap)
    ensures var v, inside := Run(w, events, cap), Covered(gs, start, end);
            TotalOf(w.applied, inside) <= AnswerOf(w, v, start, end, gs) <= TotalOf(v.committed, inside)
    decreases gs
  {
    hide Inv, Run, Possible, Answer, GroupTotal, Any;
    if gs == {} {
      assert Covered(gs, start, end) == {};
    } else {
      var g, inside := Any(gs), Covered(gs, start, end);
      AnyIn(gs);
      QueryCountsOnce(w, events, cap, start, end, g);
      QueryTotalsCountOnce(w, events, cap, start, end, gs - {g});
      if g in inside {
        assert Covered(gs - {g}, start, end) == inside - {g};
        TotalWithout(w.applied, inside, g);
        TotalWithout(Run(w, events, cap).committed, inside, g);
      } else {
        assert Covered(gs - {g}, start, end) == inside;
      }
    }
  }

  /** Memory owns a window of the first range, and the second range alone would still find the group's
      rows in the store. */
  ghost predicate Cut(first: World, second: World, start: int, mid: int, end: int, g: Group) {
    && mid <= g.window < end && g.window !in first.mutable
    && (exists m :: m in first.mutable && start <= m < mid)
    && (forall m :: m in first.mutable && mid <= m ==> g.window < m)
    && GroupTotal(second.log, g) + GroupTotal(second.buckets, g) != multiset{}
  }

  /** For the same two reads two adjacent ranges add up to the whole exactly, except for rows in the
      store past a window that memory owns in the first range. */
  lemma AdjacentRangesAddUpExactly(first: World, second: World, start: int, mid: int, end: int, g: Group)
    requires start <= mid <= end
    ensures Answer(first, second, start, mid, g) + Answer(first, second, mid, end, g) == Answer(first, second, start, end, g)
       <==> !Cut(first, second, start, mid, end, g)
  {
    hide GroupTotal, StoreEnd;
    StoreEndIs(first.mutable, start, mid, g.window);
    StoreEndIs(first.mutable, mid, end, g.window);
    StoreEndIs(first.mutable, start, end, g.window);
    var x := GroupTotal(second.log, g) + GroupTotal(second.buckets, g);
    assert multiset{} + x == x && x + multiset{} == x;
  }

  /** A window of the range lies before what memory owns of it. */
  lemma StoreEndIs(mutable: set<int>, start: int, end: int, x: int)
    requires start <= end
    ensures start <= x < end ==> (x < StoreEnd(mutable, start, end) <==> !exists m :: m in mutable && start <= m <= x)
  {
    hide Oldest;
    var inside := set m | m in mutable && start <= m < end;
    if start <= x < end {
      if m :| m in mutable && start <= m <= x { assert m in inside; }
      if inside != {} {
        OldestIs(inside);
        var o := Oldest(inside);
        if o <= x { assert o in mutable && start <= o <= x; }
      }
    }
  }

  lemma OldestIs(s: set<int>)
    requires s != {}
    ensures IsMin(Oldest(s), s)
  {
  }

  /** From an empty start, over every orderly run of commits, failures, evictions, handovers,
      crashes and recoveries, each committed contribution is in the log or the buckets and in
      memory never before it is durable, and queries by group count it once. */
  lemma ExactlyOnce(before: seq<Event>, during: seq<Event>, cap: int, start: int, end: int, r: Row, g: Group)
    requires Possible(EMPTY_WORLD, before, cap) && InOrder(EMPTY_WORLD, before, cap)
    requires Possible(Run(EMPTY_WORLD, before, cap), during, cap)
    ensures var w := Run(EMPTY_WORLD, before, cap);
            && At(w.log, r) + At(w.buckets, r) == At(w.committed, r)
            && GroupTotal(w.shards, g) <= GroupTotal(w.applied, g) <= GroupTotal(w.committed, g)
            && (w.up ==>
                  var v := Run(w, during, cap);
                  && (start <= g.window < end ==>
                        GroupTotal(w.applied, g) <= Answer(w, v, start, end, g) <= GroupTotal(v.committed, g))
                  && (!(start <= g.window < end) ==> Answer(w, v, start, end, g) == multiset{}))
  {
    StartsInOrder();
    RunKeepsInv(EMPTY_WORLD, before, cap);
    var w := Run(EMPTY_WORLD, before, cap);
    hide Run, Possible, InOrder, Answer, GroupTotal, HandedBelow;
    GroupsSummed(w, g);
    NoTotal(g);
    if w.up { QueryCountsOnce(w, during, cap, start, end, g); }
  }

  /** What the store-owned range relies on: over memory that mirrors what was applied, a query
      misses acknowledged rows exactly when one lies outside memory at or past the oldest window
      memory owns. */
  lemma QueryMissesExactly(w: World, start: int, end: int)
    requires Summed(w) && Mirrored(w)
    ensures (forall g: Group :: start <= g.window < end ==> GroupTotal(w.applied, g) <= Answer(w, w, start, end, g))
        <==> !exists r: Row :: start <= r.window < end && r.window !in w.mutable
                          && StoreEnd(w.mutable, start, end) <= r.window && At(w.applied, r) != multiset{}
  {
    hide StoreEnd, GroupTotal, At;
    if r: Row :| (start <= r.window < end && r.window !in w.mutable
                  && StoreEnd(w.mutable, start, end) <= r.window && At(w.applied, r) != multiset{}) {
      RowInTotal(w.applied, r);
      assert Answer(w, w, start, end, GroupOf(r)) == multiset{};
      assert !(GroupTotal(w.applied, GroupOf(r)) <= Answer(w, w, start, end, GroupOf(r))) by {
        NotBelowNothing(At(w.applied, r), GroupTotal(w.applied, GroupOf(r)));
      }
    } else {
      forall g: Group | start <= g.window < end ensures GroupTotal(w.applied, g) <= Answer(w, w, start, end, g) {
        GroupsSummed(w, g);
        TotalHasRow(w.applied, g);
      }
    }
  }

  lemma NotBelowNothing(a: multiset<nat>, b: multiset<nat>)
    requires a != multiset{} && a <= b
    ensures !(b <= multiset{}) && b != multiset{}
  {
    var x: nat :| x in a;
    assert b[x] > 0;
  }

  // ---------------------------------------------------------------------------------------
  // What the two assumptions are worth.

  /** The finalizer skips a window that fails and goes on. Once a newer window is handed over while
      an older one is still in memory, every query that covers both misses the newer one. */
  lemma OutOfOrderHidesWindow(w: World, older: int, newer: int, r: Row, cap: int, start: int, end: int)
    requires Inv(w) && w.up && older in w.mutable && newer in w.mutable && start <= older < newer < end
    requires newer <= FinalizeCutoff(w.now) && r.window == newer && At(w.applied, r) != multiset{}
    ensures var v := Step(w, Mark(newer), cap);
            GroupTotal(v.applied, GroupOf(r)) != multiset{} && Answer(v, v, start, end, GroupOf(r)) == multiset{}
  {
    hide GroupTotal, Inv, Except, At;
    var v := Step(w, Mark(newer), cap);
    RowInTotal(w.applied, r);
    NotBelowNothing(At(w.applied, r), GroupTotal(w.applied, GroupOf(r)));
    assert older in v.mutable && newer !in v.mutable;
    var inside := set m | m in v.mutable && start <= m < end;
    assert older in inside;
    assert IsMin(Oldest(inside), inside);
  }

  /** A window handed over while a batch for it is between plan and apply comes back with that
      batch alone: what was applied to it before is no longer counted. */
  lemma RaceUndercounts(w: World, b: Table, r: Row, cap: int, start: int, end: int)
    requires Inv(w) && w.up && w.phase == Landed(b) && r in b && start <= r.window < end
    requires r.window in w.mutable && r.window <= FinalizeCutoff(w.now) && At(w.applied, r) != multiset{}
    ensures var v, g := Step(Step(w, Mark(r.window), cap), Apply, cap), GroupOf(r);
            && GroupTotal(v.applied, g) == GroupTotal(w.applied, g) + GroupTotal(b, g)
            && Answer(v, v, start, end, g) == GroupTotal(b, g)
            && !(GroupTotal(v.applied, g) <= Answer(v, v, start, end, g))
  {
    hide Plus, Raised, Inv, StoreEnd, WindowsOf, Except, GroupTotal, At;
    var u, g := Step(w, Mark(r.window), cap), GroupOf(r);
    FilteredTotals(w.shards, {r.window}, 0, g);
    PlusTotal(u.shards, b, g);
    PlusTotal(u.applied, b, g);
    WindowOf(b, r);
    RowInTotal(w.applied, r);
    NotBelowNothing(At(w.applied, r), GroupTotal(w.applied, g));
    assert multiset{} + GroupTotal(b, g) == GroupTotal(b, g);
    TooMuch(GroupTotal(w.applied, g), GroupTotal(b, g));
  }

  lemma TooMuch(a: multiset<nat>, b: multiset<nat>)
    requires a != multiset{}
    ensures !(a + b <= b)
  {
    var x: nat :| x in a;
    assert (a + b)[x] > b[x];
  }

  /** The assumption on handing over is no stronger than need be: a window in memory that something
      was applied to may be handed over exactly when it is in order. */
  lemma HandoverIsSafeExactly(w: World, x: int, r: Row, cap: int)
    requires w.up && Memory(w) && Enabled(w, Mark(x)) && x in w.mutable
    requires r.window == x && At(w.applied, r) != multiset{}
    ensures Memory(Step(w, Mark(x), cap)) <==> Orderly(w, Mark(x))
  {
    hide GroupTotal, Except, At, WindowsOf, Mirrored;
    var v := Step(w, Mark(x), cap);
    if Orderly(w, Mark(x)) { MarkKeepsMemory(w, x, cap); }
    if Memory(v) {
      assert At(v.applied, r) != multiset{} && r.window !in v.mutable;
      forall y | y in w.mutable && y != x ensures x < y { assert y in v.mutable; }
      assert Orderly(w, Mark(x));
    }
  }
}
