/**
 The cumulative baseline ledger: what one point does to one baseline record, and what any
 interleaving of points, drains, successful commits and failed commits keeps.

 A cumulative counter is turned into increases. An increase travels: it is pending on its
 record until a drain takes it into a batch, and the batch either becomes durable or fails and
 hands the amount back as owed. Accounts follows every amount, and Balanced says that none is
 lost or counted twice. Values are reals and times are integers.
 */
module Ledger {
  import opened Sets

  datatype Producer = Degraded | Producer(id: nat)

  /** One baseline record's identity: the metric series and who reports it. */
  datatype Ref = Ref(key: nat, producer: Producer)

  datatype Rec = Rec(start: int, last: int, value: real, pending: real, owed: real)

  datatype Point = Point(start: int, ts: int, value: real)

  datatype Config = Config(maxProducers: nat, maxBaselines: nat, gap: int)

  datatype Reason = NoReset | StartTimeChange | ValueRegression

  /** What a point turned into. */
  datatype Outcome = Outcome(delta: real, seeded: bool, ignored: bool, gap: bool, reason: Reason,
                             degraded: bool, recovered: bool)

  const NOTHING := Outcome(0.0, false, false, false, NoReset, false, false)

  /** The tracker: its records, those awaiting a durable upsert, the number of records and the
      number of records that carry an owed amount. */
  datatype Tracker = Tracker(records: map<Ref, Rec>, dirty: set<Ref>, entries: nat, owed: int)

  // ---------------------------------------------------------------------------------------
  // One point on one record.

  predicate Stale(b: Rec, p: Point) { p.ts <= b.last }

  predicate Gapped(c: Config, b: Rec, p: Point) { p.ts - b.last > c.gap }

  function ResetReason(b: Rec, p: Point): Reason {
    if p.start != b.start then StartTimeChange
    else if p.value < b.value then ValueRegression
    else NoReset
  }

  /** The increase a point reports by itself, whatever the ledger owes. */
  function Increase(c: Config, b: Rec, p: Point): real {
    if Stale(b, p) || Gapped(c, b, p) then 0.0
    else if ResetReason(b, p) != NoReset then p.value
    else p.value - b.value
  }

  /** What a point settles of an earlier failed commit. */
  function Settled(c: Config, b: Rec, p: Point): real {
    if b.owed > 0.0 && (Stale(b, p) || !Gapped(c, b, p)) then b.owed else 0.0
  }

  /** What a point drops of an earlier failed commit, because its window is gone. */
  function Dropped(c: Config, b: Rec, p: Point): real {
    if b.owed > 0.0 && !Stale(b, p) && Gapped(c, b, p) then b.owed else 0.0
  }

  function Emitted(c: Config, b: Rec, p: Point): real { Increase(c, b, p) + Settled(c, b, p) }

  function After(c: Config, b: Rec, p: Point): Rec {
    var owed := b.owed - Settled(c, b, p) - Dropped(c, b, p);
    var pending := b.pending + Emitted(c, b, p);
    if Stale(b, p) then Rec(b.start, b.last, b.value, pending, owed)
    else Rec(p.start, p.ts, p.value, pending, owed)
  }

  function OutcomeOf(c: Config, b: Rec, p: Point): Outcome {
    var settles := Settled(c, b, p) > 0.0;
    if Stale(b, p) then NOTHING.(delta := Emitted(c, b, p), recovered := settles, ignored := !settles)
    else if Gapped(c, b, p) then NOTHING.(gap := true)
    else NOTHING.(delta := Emitted(c, b, p), reason := ResetReason(b, p), recovered := settles)
  }

  // ---------------------------------------------------------------------------------------
  // The tracker's operations.

  /** The records of one series. */
  function Holders(refs: set<Ref>, key: nat): set<Ref> { set r | r in refs && r.key == key }

  /** The record a producer's points go to: its own when it has one or may still take one,
      otherwise the slot its series reserves. */
  function Slot(c: Config, t: Tracker, r: Ref): Ref {
    if r in t.records || r.producer == Degraded then r
    else if |Holders(t.records.Keys, r.key)| >= c.maxProducers || t.entries >= c.maxBaselines then
      Ref(r.key, Degraded)
    else r
  }

  function OwedChange(before: real, after: real): int {
    (if after > 0.0 then 1 else 0) - if before > 0.0 then 1 else 0
  }

  function Observe(c: Config, t: Tracker, r: Ref, p: Point): Tracker {
    var s := Slot(c, t, r);
    if s !in t.records then
      t.(records := t.records[s := Rec(p.start, p.ts, p.value, 0.0, 0.0)], dirty := t.dirty + {s},
         entries := t.entries + 1)
    else
      var b := t.records[s];
      t.(records := t.records[s := After(c, b, p)],
         dirty := if OutcomeOf(c, b, p).ignored then t.dirty else t.dirty + {s},
         owed := t.owed + OwedChange(b.owed, After(c, b, p).owed))
  }

  /** What a drain takes: the dirty records with what each has pending. */
  function Drained(t: Tracker): map<Ref, Rec> {
    map r | r in t.dirty && r in t.records :: t.records[r]
  }

  function Drain(t: Tracker): Tracker {
    t.(records := map r | r in t.records :: if r in t.dirty then t.records[r].(pending := 0.0) else t.records[r],
       dirty := {})
  }

  /** What a failed commit puts back. */
  function Rollback(t: Tracker, batch: map<Ref, Rec>): Tracker {
    t.(records := map r | r in t.records :: if r in batch then Owing(t.records[r], batch[r].pending) else t.records[r],
       dirty := t.dirty + batch.Keys,
       owed := t.owed + |set r | r in batch && r in t.records && batch[r].pending != 0.0 && t.records[r].owed == 0.0|)
  }

  function Owing(b: Rec, amount: real): Rec { b.(owed := b.owed + amount) }

  // ---------------------------------------------------------------------------------------
  // Runs.

  datatype Event =
    | Arrive(r: Ref, p: Point)
    | Take
    | Commit(i: nat)
    | Fail(i: nat)

  function At(m: map<Ref, real>, r: Ref): real { if r in m then m[r] else 0.0 }

  function Add(m: map<Ref, real>, r: Ref, x: real): map<Ref, real> { m[r := At(m, r) + x] }

  /** Totals per record since the start of the run. */
  datatype Accounts = Accounts(
    genuine: map<Ref, real>,    // what the points themselves increased by
    emitted: map<Ref, real>,    // what was handed out as deltas
    settled: map<Ref, real>,    // the part of it that re-attributes a failed commit
    stranded: map<Ref, real>,   // what was dropped with its window
    durable: map<Ref, real>,    // what committed batches carried
    failed: map<Ref, real>)     // what failed batches carried

  /** The tracker, the drained batches whose commit has not ended, and the accounts. */
  datatype World = World(tracker: Tracker, batches: seq<map<Ref, Rec>>, accounts: Accounts)

  const NO_ACCOUNTS := Accounts(map[], map[], map[], map[], map[], map[])
  const START := World(Tracker(map[], {}, 0, 0), [], NO_ACCOUNTS)

  function Amount(batch: map<Ref, Rec>, r: Ref): real { if r in batch then batch[r].pending else 0.0 }

  function Credit(m: map<Ref, real>, batch: map<Ref, Rec>): map<Ref, real> {
    map r | r in m.Keys + batch.Keys :: At(m, r) + Amount(batch, r)
  }

  function Book(c: Config, a: Accounts, b: Rec, s: Ref, p: Point): Accounts {
    a.(genuine := Add(a.genuine, s, Increase(c, b, p)),
       emitted := Add(a.emitted, s, OutcomeOf(c, b, p).delta),
       settled := Add(a.settled, s, Settled(c, b, p)),
       stranded := Add(a.stranded, s, Dropped(c, b, p)))
  }

  predicate Enabled(w: World, e: Event) {
    match e
    case Commit(i) => i < |w.batches|
    case Fail(i) => i < |w.batches|
    case _ => true
  }

  function Step(c: Config, w: World, e: Event): World
    requires Enabled(w, e)
  {
    match e
    case Arrive(r, p) =>
      var s := Slot(c, w.tracker, r);
      World(Observe(c, w.tracker, r, p), w.batches,
            if s in w.tracker.records then Book(c, w.accounts, w.tracker.records[s], s, p) else w.accounts)
    case Take => World(Drain(w.tracker), w.batches + [Drained(w.tracker)], w.accounts)
    case Commit(i) =>
      World(w.tracker, Without(w.batches, i),
            w.accounts.(durable := Credit(w.accounts.durable, w.batches[i])))
    case Fail(i) =>
      World(Rollback(w.tracker, w.batches[i]), Without(w.batches, i),
            w.accounts.(failed := Credit(w.accounts.failed, w.batches[i])))
  }

  function Without<T>(s: seq<T>, i: nat): seq<T>
    requires i < |s|
  {
    s[..i] + s[i + 1..]
  }

  /** Whether a sequence of events can happen from w, and where it leads. */
  predicate Possible(c: Config, w: World, events: seq<Event>)
    decreases events
  {
    events == [] || (Enabled(w, events[0]) && Possible(c, Step(c, w, events[0]), events[1..]))
  }

  function Run(c: Config, w: World, events: seq<Event>): World
    requires Possible(c, w, events)
    decreases events
  {
    if events == [] then w else Run(c, Step(c, w, events[0]), events[1..])
  }

  // ---------------------------------------------------------------------------------------
  // Conservation.

  function InFlight(batches: seq<map<Ref, Rec>>, r: Ref): real {
    if batches == [] then 0.0 else Amount(batches[0], r) + InFlight(batches[1..], r)
  }

  function Pending(t: Tracker, r: Ref): real { if r in t.records then t.records[r].pending else 0.0 }

  function Owed(t: Tracker, r: Ref): real { if r in t.records then t.records[r].owed else 0.0 }

  /** Every emitted amount is pending, in flight, durable or failed; every failed amount is owed,
      settled or stranded, each once; what is emitted beyond the genuine increases is what
      settles a failure. */
  predicate Balanced(w: World, r: Ref) {
    var a := w.accounts;
    && At(a.emitted, r) == At(a.genuine, r) + At(a.settled, r)
    && At(a.emitted, r) == At(a.durable, r) + At(a.failed, r) + InFlight(w.batches, r) + Pending(w.tracker, r)
    && At(a.failed, r) == At(a.settled, r) + Owed(w.tracker, r) + At(a.stranded, r)
  }

  /** What holds between any two operations, apart from the balances. */
  ghost predicate Tracked(t: Tracker, batches: seq<map<Ref, Rec>>) {
    && (forall m :: m in batches ==> m.Keys <= t.records.Keys)
    && t.dirty <= t.records.Keys
    && (forall r :: r in t.records && t.records[r].pending != 0.0 ==> r in t.dirty)
    && t.entries == |t.records|
  }

  ghost predicate Inv(w: World) {
    && (forall r :: Balanced(w, r))
    && Tracked(w.tracker, w.batches)
  }

  lemma {:induction false} InFlightAppend(batches: seq<map<Ref, Rec>>, batch: map<Ref, Rec>, r: Ref)
    ensures InFlight(batches + [batch], r) == InFlight(batches, r) + Amount(batch, r)
  {
    if batches != [] {
      assert (batches + [batch])[1..] == batches[1..] + [batch];
      InFlightAppend(batches[1..], batch, r);
    }
  }

  lemma {:induction false} InFlightWithout(batches: seq<map<Ref, Rec>>, i: nat, r: Ref)
    requires i < |batches|
    ensures InFlight(Without(batches, i), r) == InFlight(batches, r) - Amount(batches[i], r)
  {
    if i == 0 {
      assert Without(batches, 0) == batches[1..];
    } else {
      InFlightWithout(batches[1..], i - 1, r);
      assert Without(batches, i) == [batches[0]] + Without(batches[1..], i - 1);
    }
  }

  lemma ArriveBalances(c: Config, w: World, r: Ref, p: Point, q: Ref)
    requires Balanced(w, q)
    ensures Balanced(Step(c, w, Arrive(r, p)), q)
  {
    hide InFlight, Slot, Increase, Settled, Dropped, ResetReason;
    SettledOrDropped(c, w.tracker, r, p);
  }

  lemma SettledOrDropped(c: Config, t: Tracker, r: Ref, p: Point)
    ensures var s := Slot(c, t, r);
            s in t.records ==>
              var b := t.records[s];
              && OutcomeOf(c, b, p).delta == Emitted(c, b, p)
              && After(c, b, p).owed == b.owed - Settled(c, b, p) - Dropped(c, b, p)
  {
  }

  lemma TakeBalances(c: Config, w: World, q: Ref)
    requires Balanced(w, q) && Tracked(w.tracker, w.batches)
    ensures Balanced(Step(c, w, Take), q)
  {
    hide InFlight;
    InFlightAppend(w.batches, Drained(w.tracker), q);
  }

  lemma CommitBalances(c: Config, w: World, i: nat, q: Ref)
    requires i < |w.batches| && Balanced(w, q)
    ensures Balanced(Step(c, w, Commit(i)), q)
  {
    hide InFlight, Without;
    InFlightWithout(w.batches, i, q);
  }

  lemma FailBalances(c: Config, w: World, i: nat, q: Ref)
    requires i < |w.batches| && Balanced(w, q) && (q in w.batches[i] ==> q in w.tracker.records)
    ensures Balanced(Step(c, w, Fail(i)), q)
  {
    hide InFlight, Without;
    InFlightWithout(w.batches, i, q);
  }

  lemma StepTracked(c: Config, w: World, e: Event)
    requires Enabled(w, e) && Tracked(w.tracker, w.batches)
    ensures Tracked(Step(c, w, e).tracker, Step(c, w, e).batches)
  {
    hide Slot, OutcomeOf, OwedChange, Book, Credit;
    var v := Step(c, w, e);
    match e {
      case Arrive(r, p) =>
        ArriveTracked(c, w.tracker, w.batches, r, p);
      case Take =>
        assert v.tracker.records.Keys == w.tracker.records.Keys;
      case Commit(i) =>
        WithoutIsPart(w.batches, i);
      case Fail(i) =>
        WithoutIsPart(w.batches, i);
        assert v.tracker.records.Keys == w.tracker.records.Keys;
        assert w.batches[i] in w.batches;
    }
  }

  lemma ArriveTracked(c: Config, t: Tracker, batches: seq<map<Ref, Rec>>, r: Ref, p: Point)
    requires Tracked(t, batches)
    ensures Tracked(Observe(c, t, r, p), batches)
  {
    hide Observe, Slot;
    var s, u := Slot(c, t, r), Observe(c, t, r, p);
    ArriveKeys(c, t, r, p);
    ArriveDirties(c, t, r, p);
    forall m | m in batches ensures m.Keys <= u.records.Keys { assert m.Keys <= t.records.Keys; }
    assert |u.records| == |u.records.Keys| && |t.records| == |t.records.Keys|;
  }

  lemma ArriveKeys(c: Config, t: Tracker, r: Ref, p: Point)
    ensures var s, u := Slot(c, t, r), Observe(c, t, r, p);
            && u.records.Keys == t.records.Keys + {s} && u.entries == t.entries + (if s in t.records then 0 else 1)
            && t.dirty <= u.dirty <= t.dirty + {s}
            && (s in t.records ==> u.records.Keys == t.records.Keys)
            && forall q :: q in t.records && q != s ==> u.records[q] == t.records[q]
  {
    hide Slot, After, OutcomeOf, OwedChange;
  }

  lemma ArriveDirties(c: Config, t: Tracker, r: Ref, p: Point)
    requires var s := Slot(c, t, r); s in t.records && t.records[s].pending != 0.0 ==> s in t.dirty
    ensures var s, u := Slot(c, t, r), Observe(c, t, r, p);
            s in u.records && (u.records[s].pending != 0.0 ==> s in u.dirty)
  {
    hide Slot, After, OutcomeOf, OwedChange;
    var s := Slot(c, t, r);
    if s in t.records { IgnoredEmitsNothing(c, t.records[s], p); }
  }

  lemma IgnoredEmitsNothing(c: Config, b: Rec, p: Point)
    ensures OutcomeOf(c, b, p).ignored ==> After(c, b, p) == b
  {
  }

  lemma WithoutIsPart<T>(s: seq<T>, i: nat)
    requires i < |s|
    ensures forall x :: x in Without(s, i) ==> x in s
  {
  }

  lemma StepKeepsInv(c: Config, w: World, e: Event)
    requires Inv(w) && Enabled(w, e)
    ensures Inv(Step(c, w, e))
  {
    hide Balanced, Step;
    StepTracked(c, w, e);
    forall q ensures Balanced(Step(c, w, e), q) {
      match e {
        case Arrive(r, p) => ArriveBalances(c, w, r, p, q);
        case Take => TakeBalances(c, w, q);
        case Commit(i) => CommitBalances(c, w, i, q);
        case Fail(i) =>
          assert w.batches[i] in w.batches;
          FailBalances(c, w, i, q);
      }
    }
  }

  lemma {:induction false} RunKeepsInv(c: Config, w: World, events: seq<Event>)
    requires Inv(w) && Possible(c, w, events)
    ensures Inv(Run(c, w, events))
    decreases events
  {
    if events != [] {
      StepKeepsInv(c, w, events[0]);
      RunKeepsInv(c, Step(c, w, events[0]), events[1..]);
    }
  }

  /** A tracker as it starts: it holds what the durable store gave it back, and nothing else. */
  ghost predicate Started(w: World) {
    && w.batches == [] && w.accounts == NO_ACCOUNTS
    && w.tracker.dirty == {} && w.tracker.entries == |w.tracker.records| && w.tracker.owed == 0
    && forall r :: r in w.tracker.records ==> w.tracker.records[r].pending == 0.0 == w.tracker.records[r].owed
  }

  /** Installing a baseline read back at startup. */
  function Seeded(t: Tracker, r: Ref, b: Rec): Tracker {
    t.(records := t.records[r := b.(pending := 0.0, owed := 0.0)],
       entries := if r in t.records then t.entries else t.entries + 1)
  }

  lemma SeededIsStarted(w: World, r: Ref, b: Rec)
    requires Started(w)
    ensures Started(START) && Started(w.(tracker := Seeded(w.tracker, r, b)))
  {
    var u := Seeded(w.tracker, r, b);
    assert u.records.Keys == w.tracker.records.Keys + {r};
    if r in w.tracker.records { assert u.records.Keys == w.tracker.records.Keys; }
    assert |u.records| == |u.records.Keys| && |w.tracker.records| == |w.tracker.records.Keys|;
  }

  /** Whatever points arrive, in whatever order batches are drained, committed and failed, the
      genuine increases of every record are durable, in flight, pending, owed or stranded, and
      no failed amount is settled twice. */
  lemma Conservation(c: Config, start: World, events: seq<Event>, r: Ref)
    requires Started(start) && Possible(c, start, events)
    ensures var w := Run(c, start, events);
            && At(w.accounts.genuine, r)
               == At(w.accounts.durable, r) + InFlight(w.batches, r) + Pending(w.tracker, r)
                  + Owed(w.tracker, r) + At(w.accounts.stranded, r)
            && At(w.accounts.settled, r) + Owed(w.tracker, r) + At(w.accounts.stranded, r)
               == At(w.accounts.failed, r)
  {
    RunKeepsInv(c, start, events);
    assert Balanced(Run(c, start, events), r);
  }

  /** Everything emitted since the last drain is in the next one. */
  lemma DrainTakesEverything(c: Config, w: World, r: Ref)
    requires Inv(w)
    ensures Pending(Drain(w.tracker), r) == 0.0
    ensures Amount(Drained(w.tracker), r) == Pending(w.tracker, r)
  {
  }

  // ---------------------------------------------------------------------------------------
  // Counters that only grow.

  predicate NonNegative(events: seq<Event>) {
    forall i :: 0 <= i < |events| && events[i].Arrive? ==> events[i].p.value >= 0.0
  }

  function OwedSet(t: Tracker): set<Ref> {
    set r | r in t.records && t.records[r].owed > 0.0
  }

  ghost predicate NonNegativeBatch(m: map<Ref, Rec>) { forall r :: r in m ==> m[r].pending >= 0.0 }

  ghost predicate NonNegativeTracker(t: Tracker) {
    forall r :: r in t.records ==> t.records[r].pending >= 0.0 && t.records[r].owed >= 0.0
  }

  /** No amount is negative, and the owed counter counts the records that owe. */
  ghost predicate Positive(w: World) {
    && NonNegativeTracker(w.tracker)
    && (forall m :: m in w.batches ==> NonNegativeBatch(m))
    && (forall r :: At(w.accounts.stranded, r) >= 0.0)
    && w.tracker.owed == |OwedSet(w.tracker)|
  }

  lemma ArriveStaysPositive(c: Config, w: World, r: Ref, p: Point)
    requires Positive(w) && p.value >= 0.0
    ensures Positive(Step(c, w, Arrive(r, p)))
  {
    var s := Slot(c, w.tracker, r);
    var t, u := w.tracker, Observe(c, w.tracker, r, p);
    forall q ensures At(Step(c, w, Arrive(r, p)).accounts.stranded, q) >= 0.0 {
      assert At(w.accounts.stranded, q) >= 0.0;
    }
    if s !in t.records {
      assert OwedSet(u) == OwedSet(t);
    } else if t.records[s].owed > 0.0 {
      assert u.records[s].owed == 0.0;
      assert OwedSet(u) == OwedSet(t) - {s};
    } else {
      assert u.records[s].owed == 0.0;
      assert OwedSet(u) == OwedSet(t);
    }
  }

  lemma TakeStaysPositive(c: Config, w: World)
    requires Positive(w)
    ensures Positive(Step(c, w, Take))
  {
    assert OwedSet(Step(c, w, Take).tracker) == OwedSet(w.tracker);
  }

  lemma CommitStaysPositive(c: Config, w: World, i: nat)
    requires Positive(w) && i < |w.batches|
    ensures Positive(Step(c, w, Commit(i)))
  {
    WithoutIsPart(w.batches, i);
  }

  lemma FailStaysPositive(c: Config, w: World, i: nat)
    requires Positive(w) && i < |w.batches|
    ensures Positive(Step(c, w, Fail(i)))
  {
    WithoutIsPart(w.batches, i);
    var v, t, batch := Step(c, w, Fail(i)), w.tracker, w.batches[i];
    assert batch in w.batches;
    var newly := set r | r in batch && r in t.records && batch[r].pending != 0.0 && t.records[r].owed == 0.0;
    assert OwedSet(v.tracker) == OwedSet(t) + newly;
    assert OwedSet(t) !! newly;
  }

  lemma {:induction false} RunStaysPositive(c: Config, w: World, events: seq<Event>)
    requires Positive(w) && Possible(c, w, events) && NonNegative(events)
    ensures Positive(Run(c, w, events))
    decreases events
  {
    if events != [] {
      match events[0] {
        case Arrive(r, p) => ArriveStaysPositive(c, w, r, p);
        case Take => TakeStaysPositive(c, w);
        case Commit(i) => CommitStaysPositive(c, w, i);
        case Fail(i) => FailStaysPositive(c, w, i);
      }
      RunStaysPositive(c, Step(c, w, events[0]), events[1..]);
    }
  }

  lemma {:induction false} InFlightPositive(batches: seq<map<Ref, Rec>>, r: Ref)
    requires forall m :: m in batches ==> NonNegativeBatch(m)
    ensures InFlight(batches, r) >= 0.0
  {
    if batches != [] {
      assert batches[0] in batches;
      InFlightPositive(batches[1..], r);
    }
  }

  /** For points that are not negative, what is durable never exceeds what was genuinely counted,
      and the owed counter is exact. */
  lemma NeverOverCounts(c: Config, start: World, events: seq<Event>, r: Ref)
    requires Started(start) && Possible(c, start, events) && NonNegative(events)
    ensures var w := Run(c, start, events);
            && At(w.accounts.durable, r) <= At(w.accounts.genuine, r)
            && w.tracker.owed == |OwedSet(w.tracker)|
  {
    Conservation(c, start, events, r);
    assert OwedSet(start.tracker) == {};
    RunStaysPositive(c, start, events);
    InFlightPositive(Run(c, start, events).batches, r);
  }

  // ---------------------------------------------------------------------------------------
  // When a failed amount is settled.

  /** An increase is negative exactly when a point restarts its counter below zero. */
  lemma NegativeIncreaseExactly(c: Config, b: Rec, p: Point)
    ensures Increase(c, b, p) < 0.0 <==> !Stale(b, p) && !Gapped(c, b, p) && ResetReason(b, p) != NoReset && p.value < 0.0
  {
  }

  /** A point that reaches an owing record leaves it owing nothing, whether it settles the amount or
      drops it, exactly when the amount is not negative. */
  lemma ArrivalSettlesExactly(c: Config, w: World, r: Ref, p: Point)
    requires Slot(c, w.tracker, r) in w.tracker.records
    ensures var s := Slot(c, w.tracker, r);
            var v := Step(c, w, Arrive(r, p));
            && (Owed(v.tracker, s) == 0.0 <==> Owed(w.tracker, s) >= 0.0)
            && (Owed(w.tracker, s) <= 0.0 ==> Owed(v.tracker, s) == Owed(w.tracker, s))
  {
    hide Slot;
  }

  predicate NoFailure(events: seq<Event>) { forall e :: e in events ==> !e.Fail? }

  /** What becomes of what a record owes: it waits, or the first point to reach the record settles
      it, or that point comes after a gap and it is dropped. */
  datatype Fate = Waits | Recovered | Lost

  predicate Reaches(c: Config, w: World, e: Event, r: Ref) { e.Arrive? && Slot(c, w.tracker, e.r) == r }

  function FateOf(c: Config, w: World, events: seq<Event>, r: Ref): Fate
    requires Possible(c, w, events)
    decreases events
  {
    if events == [] || r !in w.tracker.records then Waits
    else if Reaches(c, w, events[0], r) then
      var b, p := w.tracker.records[r], events[0].p;
      if Stale(b, p) || !Gapped(c, b, p) then Recovered else Lost
    else FateOf(c, Step(c, w, events[0]), events[1..], r)
  }

  /** Between two worlds a record's owed amount, or none, moved to what was settled and what was
      dropped. */
  predicate Moves(w: World, v: World, r: Ref, settled: real, dropped: real) {
    && r in w.tracker.records && r in v.tracker.records
    && Owed(v.tracker, r) == Owed(w.tracker, r) - settled - dropped
    && At(v.accounts.settled, r) == At(w.accounts.settled, r) + settled
    && At(v.accounts.stranded, r) == At(w.accounts.stranded, r) + dropped
  }

  lemma OwesOn(c: Config, w: World, e: Event, r: Ref)
    requires Enabled(w, e) && !e.Fail? && r in w.tracker.records
    ensures var v := Step(c, w, e);
            if Reaches(c, w, e, r) && Owed(w.tracker, r) > 0.0 then
              var b := w.tracker.records[r];
              if Stale(b, e.p) || !Gapped(c, b, e.p) then Moves(w, v, r, Owed(w.tracker, r), 0.0)
              else Moves(w, v, r, 0.0, Owed(w.tracker, r))
            else Moves(w, v, r, 0.0, 0.0)
  {
    hide Slot, ResetReason, Credit;
  }

  /** A record that owes nothing, or a negative amount, goes on so: whatever points arrive and
      whatever is drained and committed, nothing is settled and nothing dropped. */
  lemma {:induction false} NegativeStays(c: Config, w: World, events: seq<Event>, r: Ref)
    requires Possible(c, w, events) && NoFailure(events) && r in w.tracker.records && Owed(w.tracker, r) <= 0.0
    ensures Moves(w, Run(c, w, events), r, 0.0, 0.0)
    decreases events
  {
    if events != [] {
      hide Step, Owed, At, Reaches;
      OwesOn(c, w, events[0], r);
      NegativeStays(c, Step(c, w, events[0]), events[1..], r);
    }
  }

  /** What a record owes is settled whole, once, or dropped whole, once, by the first point to reach
      it, whatever else happens before and after. */
  lemma {:induction false} FateIsExact(c: Config, w: World, events: seq<Event>, r: Ref)
    requires Possible(c, w, events) && NoFailure(events) && r in w.tracker.records && Owed(w.tracker, r) > 0.0
    ensures match FateOf(c, w, events, r)
            case Waits => Moves(w, Run(c, w, events), r, 0.0, 0.0)
            case Recovered => Moves(w, Run(c, w, events), r, Owed(w.tracker, r), 0.0)
            case Lost => Moves(w, Run(c, w, events), r, 0.0, Owed(w.tracker, r))
    decreases events
  {
    if events != [] {
      hide Step, Owed, At, Reaches, Stale, Gapped;
      OwesOn(c, w, events[0], r);
      if Reaches(c, w, events[0], r) {
        NegativeStays(c, Step(c, w, events[0]), events[1..], r);
      } else {
        FateIsExact(c, Step(c, w, events[0]), events[1..], r);
      }
    }
  }

  lemma FailingOwes(c: Config, w: World, i: nat, r: Ref)
    requires Enabled(w, Fail(i)) && r in w.tracker.records
    ensures var v := Step(c, w, Fail(i));
            && r in v.tracker.records && Owed(v.tracker, r) == Owed(w.tracker, r) + Amount(w.batches[i], r)
            && At(v.accounts.settled, r) == At(w.accounts.settled, r)
            && At(v.accounts.stranded, r) == At(w.accounts.stranded, r)
            && v.tracker.records[r].(owed := 0.0) == w.tracker.records[r].(owed := 0.0)
  {
    hide Credit;
  }

  /** When a commit fails, whatever points its batch carried and whatever its record owed already,
      the whole amount is recovered in the run that follows exactly when it is not negative and, if
      there is any, the first point to reach the record is a repeated one or within the gap. */
  lemma FailureIsRecoveredExactly(c: Config, w: World, i: nat, r: Ref, later: seq<Event>)
    requires Enabled(w, Fail(i)) && r in w.tracker.records
    requires Possible(c, Step(c, w, Fail(i)), later) && NoFailure(later)
    ensures var v := Step(c, w, Fail(i));
            var amount, u := Owed(w.tracker, r) + Amount(w.batches[i], r), Run(c, v, later);
            && (At(u.accounts.settled, r) == At(w.accounts.settled, r) + amount
                <==> amount == 0.0 || (amount > 0.0 && FateOf(c, v, later, r) == Recovered))
            && (At(u.accounts.stranded, r) == At(w.accounts.stranded, r) + amount
                <==> amount == 0.0 || (amount > 0.0 && FateOf(c, v, later, r) == Lost))
            && (Owed(u.tracker, r) == amount
                <==> amount <= 0.0 || FateOf(c, v, later, r) == Waits)
  {
    hide Step, Run, Possible, FateOf, Amount, At, Owed;
    var v := Step(c, w, Fail(i));
    FailingOwes(c, w, i, r);
    if Owed(v.tracker, r) > 0.0 { FateIsExact(c, v, later, r); } else { NegativeStays(c, v, later, r); }
  }

  /** A point arrives, its increase is drained and the commit that carries it fails. */
  function Failing(c: Config, w: World, r: Ref, p: Point): World {
    var drained := Step(c, Step(c, w, Arrive(r, p)), Take);
    Step(c, drained, Fail(|drained.batches| - 1))
  }

  lemma DrainedAmount(c: Config, w: World, r: Ref)
    requires r in w.tracker.records && (w.tracker.records[r].pending != 0.0 ==> r in w.tracker.dirty)
    ensures var u := Step(c, w, Take);
            && r in u.tracker.records && Owed(u.tracker, r) == Owed(w.tracker, r)
            && Amount(u.batches[|u.batches| - 1], r) == Pending(w.tracker, r)
            && u.accounts == w.accounts
  {
  }

  lemma ArrivedAmount(c: Config, w: World, r: Ref, p: Point)
    requires r in w.tracker.records && Pending(w.tracker, r) == 0.0 == Owed(w.tracker, r)
    ensures var v, b := Step(c, w, Arrive(r, p)), w.tracker.records[r];
            && r in v.tracker.records && Owed(v.tracker, r) == 0.0 && Pending(v.tracker, r) == Increase(c, b, p)
            && (Pending(v.tracker, r) != 0.0 ==> r in v.tracker.dirty)
            && At(v.accounts.settled, r) == At(w.accounts.settled, r)
            && At(v.accounts.stranded, r) == At(w.accounts.stranded, r)
  {
    hide ResetReason;
    if Increase(c, w.tracker.records[r], p) != 0.0 { assert r in Step(c, w, Arrive(r, p)).tracker.dirty; }
  }

  /** For a batch of one point that is a condition on two points: the failed one does not restart its
      counter below zero, and the next one, if the failed one counted anything, is a repeated one or
      within the gap of it. */
  lemma FailedPointIsRecoveredExactly(c: Config, w: World, r: Ref, p: Point, q: Point)
    requires r in w.tracker.records && Pending(w.tracker, r) == 0.0 == Owed(w.tracker, r)
    ensures var b, v := w.tracker.records[r], Failing(c, w, r, p);
            var z := Step(c, v, Arrive(r, q));
            && r in v.tracker.records
            && var n := v.tracker.records[r];
               At(z.accounts.settled, r) == At(w.accounts.settled, r) + Increase(c, b, p)
               <==> (|| Increase(c, b, p) == 0.0
                     || (!(ResetReason(b, p) != NoReset && p.value < 0.0) && (Stale(n, q) || !Gapped(c, n, q))))
  {
    hide Step, Increase, Stale, Gapped, ResetReason, Amount, Slot;
    var b := w.tracker.records[r];
    var w1 := Step(c, w, Arrive(r, p));
    var w2 := Step(c, w1, Take);
    ArrivedAmount(c, w, r, p);
    DrainedAmount(c, w1, r);
    TakeAdds(c, w1);
    var i := |w2.batches| - 1;
    FailingOwes(c, w2, i, r);
    var v := Step(c, w2, Fail(i));
    ReachesOwn(c, v, r, q);
    OwesOn(c, v, Arrive(r, q), r);
    NegativeIncreaseExactly(c, b, p);
    NoIncrease(c, b, p);
  }

  lemma TakeAdds(c: Config, w: World)
    ensures |Step(c, w, Take).batches| == |w.batches| + 1
  {
  }

  lemma ReachesOwn(c: Config, w: World, r: Ref, q: Point)
    requires r in w.tracker.records
    ensures Reaches(c, w, Arrive(r, q), r)
  {
  }

  lemma NoIncrease(c: Config, b: Rec, p: Point)
    ensures Stale(b, p) || Gapped(c, b, p) ==> Increase(c, b, p) == 0.0
  {
  }

  /** A concrete run: the commit of an increase of five fails, and the next point comes after a gap. */
  lemma GapLosesFailure(c: Config, r: Ref)
    requires c.maxProducers > 0 && c.maxBaselines > 0 && c.gap > 0
    ensures var v := Failing(c, Step(c, START, Arrive(r, Point(0, 0, 0.0))), r, Point(0, 1, 5.0));
            var z := Step(c, v, Arrive(r, Point(0, c.gap + 2, 7.0)));
            && Owed(v.tracker, r) == 5.0 && Owed(z.tracker, r) == 0.0
            && At(z.accounts.settled, r) == 0.0 && At(z.accounts.stranded, r) == 5.0
  {
    hide Failing, Step, At;
    var w := Step(c, START, Arrive(r, Point(0, 0, 0.0)));
    FirstPoint(c, r);
    assert Increase(c, w.tracker.records[r], Point(0, 1, 5.0)) == 5.0;
    FailingOne(c, w, r, Point(0, 1, 5.0));
    var v := Failing(c, w, r, Point(0, 1, 5.0));
    ReachesOwn(c, v, r, Point(0, c.gap + 2, 7.0));
    OwesOn(c, v, Arrive(r, Point(0, c.gap + 2, 7.0)), r);
  }

  lemma FirstPoint(c: Config, r: Ref)
    requires c.maxProducers > 0 && c.maxBaselines > 0
    ensures var w := Step(c, START, Arrive(r, Point(0, 0, 0.0)));
            && r in w.tracker.records && w.tracker.records[r] == Rec(0, 0, 0.0, 0.0, 0.0)
            && At(w.accounts.settled, r) == 0.0 == At(w.accounts.stranded, r)
  {
    assert Holders(START.tracker.records.Keys, r.key) == {};
  }

  lemma FailingOne(c: Config, w: World, r: Ref, p: Point)
    requires r in w.tracker.records && Pending(w.tracker, r) == 0.0 == Owed(w.tracker, r)
    ensures var v, b := Failing(c, w, r, p), w.tracker.records[r];
            && r in v.tracker.records && Owed(v.tracker, r) == Increase(c, b, p)
            && v.tracker.records[r].last == (if Stale(b, p) then b.last else p.ts)
            && At(v.accounts.settled, r) == At(w.accounts.settled, r)
            && At(v.accounts.stranded, r) == At(w.accounts.stranded, r)
  {
    hide Increase, Amount, ResetReason;
    var w1 := Step(c, w, Arrive(r, p));
    ArrivedAmount(c, w, r, p);
    DrainedAmount(c, w1, r);
    var w2 := Step(c, w1, Take);
    FailingOwes(c, w2, |w2.batches| - 1, r);
  }

  /** When no point is negative, every arrival at a record that owes leaves it owing nothing. */
  lemma ArrivalsSettle(c: Config, start: World, events: seq<Event>, r: Ref, p: Point)
    requires Started(start) && Possible(c, start, events) && NonNegative(events)
    requires Slot(c, Run(c, start, events).tracker, r) in Run(c, start, events).tracker.records
    ensures var w := Run(c, start, events);
            Owed(Step(c, w, Arrive(r, p)).tracker, Slot(c, w.tracker, r)) == 0.0
  {
    hide Step, Run, Possible, Slot;
    assert OwedSet(start.tracker) == {};
    RunStaysPositive(c, start, events);
    ArrivalSettlesExactly(c, Run(c, start, events), r, p);
  }

  /** A concrete run: a counter falls below zero, the commit fails, and sending the point again
      and a later one settles nothing. */
  lemma NegativeIsNeverSettled(c: Config, r: Ref)
    requires c.maxProducers > 0 && c.maxBaselines > 0 && c.gap > 0
    ensures var points := [Arrive(r, Point(0, 1, 5.0)), Arrive(r, Point(0, 2, -1.0)), Take, Fail(0),
                           Arrive(r, Point(0, 2, -1.0)), Arrive(r, Point(0, 3, 0.0))];
            && Possible(c, START, points)
            && Owed(Run(c, START, points).tracker, r) == -1.0
            && At(Run(c, START, points).accounts.settled, r) == 0.0
  {
    hide Run, Possible, Step;
    var e0, e1, e2 := Arrive(r, Point(0, 1, 5.0)), Arrive(r, Point(0, 2, -1.0)), Arrive(r, Point(0, 3, 0.0));
    var w1 := Step(c, START, e0);
    var w2 := Step(c, w1, e1);
    var w3 := Step(c, w2, Take);
    FallsBelowZero(c, r);
    LosesNegative(c, w2, r);
    var w4 := Step(c, w3, Fail(0));
    var w5 := Step(c, w4, e1);
    var w6 := Step(c, w5, e2);
    SettlesNothing(c, w4, r, e1.p);
    SettlesNothing(c, w5, r, e2.p);
    RunNone(c, w6);
    RunCons(c, w5, e2, [], w6);
    RunCons(c, w4, e1, [e2] + [], w6);
    RunCons(c, w3, Fail(0), [e1] + ([e2] + []), w6);
    RunCons(c, w2, Take, [Fail(0)] + ([e1] + ([e2] + [])), w6);
    RunCons(c, w1, e1, [Take] + ([Fail(0)] + ([e1] + ([e2] + []))), w6);
    RunCons(c, START, e0, [e1] + ([Take] + ([Fail(0)] + ([e1] + ([e2] + [])))), w6);
    assert [e0, e1, Take, Fail(0), e1, e2] == [e0] + ([e1] + ([Take] + ([Fail(0)] + ([e1] + ([e2] + [])))));
  }

  lemma FallsBelowZero(c: Config, r: Ref)
    requires c.maxProducers > 0 && c.maxBaselines > 0 && c.gap > 0
    ensures var w := Step(c, Step(c, START, Arrive(r, Point(0, 1, 5.0))), Arrive(r, Point(0, 2, -1.0)));
            && r in w.tracker.records && w.tracker.records[r] == Rec(0, 2, -1.0, -1.0, 0.0)
            && r in w.tracker.dirty && w.batches == [] && At(w.accounts.settled, r) == 0.0
  {
    assert Holders(START.tracker.records.Keys, r.key) == {};
    var w := Step(c, START, Arrive(r, Point(0, 1, 5.0)));
    assert w.tracker.records == map[r := Rec(0, 1, 5.0, 0.0, 0.0)];
  }

  lemma LosesNegative(c: Config, w: World, r: Ref)
    requires r in w.tracker.records && w.tracker.records[r].pending < 0.0 && w.tracker.records[r].owed == 0.0
    requires r in w.tracker.dirty && w.batches == []
    ensures Enabled(w, Take) && Enabled(Step(c, w, Take), Fail(0))
    ensures var v := Step(c, Step(c, w, Take), Fail(0));
            && r in v.tracker.records && At(v.accounts.settled, r) == At(w.accounts.settled, r)
            && v.tracker.records[r] == w.tracker.records[r].(pending := 0.0, owed := w.tracker.records[r].pending)
  {
  }

  lemma SettlesNothing(c: Config, w: World, r: Ref, p: Point)
    requires r in w.tracker.records && w.tracker.records[r].owed < 0.0
    ensures var v := Step(c, w, Arrive(r, p));
            && r in v.tracker.records && v.tracker.records[r].owed == w.tracker.records[r].owed
            && At(v.accounts.settled, r) == At(w.accounts.settled, r)
  {
  }

  lemma RunCons(c: Config, w: World, e: Event, rest: seq<Event>, end: World)
    requires Enabled(w, e)
    requires Possible(c, Step(c, w, e), rest) && Run(c, Step(c, w, e), rest) == end
    ensures Possible(c, w, [e] + rest) && Run(c, w, [e] + rest) == end
  {
    hide Step;
    assert ([e] + rest)[1..] == rest;
  }

  lemma RunNone(c: Config, w: World)
    ensures Possible(c, w, []) && Run(c, w, []) == w
  {
  }

  // ---------------------------------------------------------------------------------------
  // A steady counter.

  /** A point that does not restart, fall or leave a gap. */
  predicate SteadyPoint(c: Config, b: Rec, p: Point) {
    Stale(b, p) || (!Gapped(c, b, p) && ResetReason(b, p) == NoReset)
  }

  predicate Steady(c: Config, w: World, events: seq<Event>, r: Ref)
    requires Possible(c, w, events)
    decreases events
  {
    events == []
    || (&& (events[0].Arrive? && Slot(c, w.tracker, events[0].r) == r ==>
              r in w.tracker.records && SteadyPoint(c, w.tracker.records[r], events[0].p))
        && Steady(c, Step(c, w, events[0]), events[1..], r))
  }

  lemma SteadyStep(c: Config, w: World, e: Event, r: Ref)
    requires Enabled(w, e) && r in w.tracker.records
    requires e.Arrive? && Slot(c, w.tracker, e.r) == r ==> SteadyPoint(c, w.tracker.records[r], e.p)
    ensures var v := Step(c, w, e);
            && r in v.tracker.records
            && At(v.accounts.genuine, r) - At(w.accounts.genuine, r)
               == v.tracker.records[r].value - w.tracker.records[r].value
            && At(v.accounts.stranded, r) == At(w.accounts.stranded, r)
  {
  }

  /** Over a run in which a record's counter neither restarts, falls nor leaves a gap, the
      genuine total is the last value less the first, whatever commits fail and whatever points
      are repeated, and nothing is stranded. */
  lemma {:induction false} SteadyCounter(c: Config, w: World, events: seq<Event>, r: Ref)
    requires Possible(c, w, events) && Steady(c, w, events, r) && r in w.tracker.records
    ensures var v := Run(c, w, events);
            && r in v.tracker.records
            && At(v.accounts.genuine, r) - At(w.accounts.genuine, r)
               == v.tracker.records[r].value - w.tracker.records[r].value
            && At(v.accounts.stranded, r) == At(w.accounts.stranded, r)
    decreases events
  {
    if events != [] {
      hide Step;
      SteadyStep(c, w, events[0], r);
      SteadyCounter(c, Step(c, w, events[0]), events[1..], r);
    }
  }

  /** Once everything emitted has been drained and committed and nothing is owed, the durable
      increase of a steady counter is exactly what its values increased by. */
  lemma SteadyCounterIsExact(c: Config, w: World, events: seq<Event>, r: Ref)
    requires Inv(w) && Possible(c, w, events) && Steady(c, w, events, r) && r in w.tracker.records
    requires InFlight(w.batches, r) == 0.0 && Pending(w.tracker, r) == 0.0 && Owed(w.tracker, r) == 0.0
    ensures var v := Run(c, w, events);
            && r in v.tracker.records
            && (InFlight(v.batches, r) == 0.0 && Pending(v.tracker, r) == 0.0 && Owed(v.tracker, r) == 0.0 ==>
                  At(v.accounts.durable, r) - At(w.accounts.durable, r)
                  == v.tracker.records[r].value - w.tracker.records[r].value)
  {
    hide Run, Steady;
    SteadyCounter(c, w, events, r);
    RunKeepsInv(c, w, events);
    assert Balanced(w, r) && Balanced(Run(c, w, events), r);
  }

  /** After a failed commit, sending the same point again recovers the whole owed amount and
      moves nothing else; sending it once more recovers nothing. */
  lemma RetryRecovers(c: Config, t: Tracker, r: Ref, p: Point)
    requires Slot(c, t, r) in t.records
    requires var b := t.records[Slot(c, t, r)]; p == Point(b.start, b.last, b.value) && b.owed > 0.0
    ensures var s := Slot(c, t, r);
            var once, b := Observe(c, t, r, p), t.records[s];
            && OutcomeOf(c, b, p) == NOTHING.(delta := b.owed, recovered := true)
            && s in once.records && once.records[s] == b.(pending := b.pending + b.owed, owed := 0.0)
            && Slot(c, once, r) == s && OutcomeOf(c, once.records[s], p) == NOTHING.(ignored := true)
            && Observe(c, once, r, p) == once
  {
    var s := Slot(c, t, r);
    var once := Observe(c, t, r, p);
    assert once.records.Keys == t.records.Keys;
    assert Observe(c, once, r, p).records == once.records;
  }

  /** A point that is not newer than the last one never moves the baseline, and the baseline's
      time never goes back. */
  lemma BaselineMovesForward(c: Config, t: Tracker, r: Ref, p: Point, q: Ref)
    requires q in t.records
    ensures var u := Observe(c, t, r, p);
            && q in u.records && u.records[q].last >= t.records[q].last
            && (Stale(t.records[q], p) || Slot(c, t, r) != q ==>
                  u.records[q].(pending := 0.0, owed := 0.0) == t.records[q].(pending := 0.0, owed := 0.0))
            && (Slot(c, t, r) == q && !Stale(t.records[q], p) ==>
                  u.records[q].last == p.ts && u.records[q].value == p.value && u.records[q].start == p.start)
  {
  }

  // ---------------------------------------------------------------------------------------
  // Bounds.

  /** The records that are not a series' reserved slot. */
  function Dedicated(refs: set<Ref>): set<Ref> { set r | r in refs && r.producer != Degraded }

  /** Both bounds hold, apart from the slot each series keeps in reserve. */
  ghost predicate Bounded(c: Config, refs: set<Ref>) {
    && |Dedicated(refs)| <= c.maxBaselines
    && forall key :: |Holders(Dedicated(refs), key)| <= c.maxProducers
  }

  lemma ObserveStaysBounded(c: Config, t: Tracker, r: Ref, p: Point)
    requires Bounded(c, t.records.Keys) && t.entries == |t.records|
    ensures Bounded(c, Observe(c, t, r, p).records.Keys)
    ensures t.records.Keys <= Observe(c, t, r, p).records.Keys
  {
    hide After, OutcomeOf, OwedChange, Slot, Bounded;
    var s := Slot(c, t, r);
    assert Observe(c, t, r, p).records.Keys == t.records.Keys + {s};
    if s in t.records {
      assert t.records.Keys + {s} == t.records.Keys;
    } else {
      DedicatedRoom(c, t, r);
      OneMoreStaysBounded(c, t.records.Keys, s);
    }
  }

  lemma OneMoreStaysBounded(c: Config, refs: set<Ref>, s: Ref)
    requires Bounded(c, refs)
    requires s.producer != Degraded ==>
               |Dedicated(refs)| < c.maxBaselines && |Holders(Dedicated(refs), s.key)| < c.maxProducers
    ensures Bounded(c, refs + {s})
  {
    var d := Dedicated(refs);
    if s.producer == Degraded {
      assert Dedicated(refs + {s}) == d;
    } else {
      assert Dedicated(refs + {s}) == d + {s};
      forall key ensures |Holders(d + {s}, key)| <= c.maxProducers {
        if key == s.key {
          assert Holders(d + {s}, key) == Holders(d, key) + {s};
        } else {
          assert Holders(d + {s}, key) == Holders(d, key);
        }
      }
    }
  }

  /** A new dedicated baseline is taken only below both bounds. */
  lemma DedicatedRoom(c: Config, t: Tracker, r: Ref)
    requires t.entries == |t.records|
    ensures var s, refs := Slot(c, t, r), t.records.Keys;
            s !in t.records && s.producer != Degraded ==>
              |Dedicated(refs)| < c.maxBaselines && |Holders(Dedicated(refs), s.key)| < c.maxProducers
  {
    SubsetSize(Dedicated(t.records.Keys), t.records.Keys);
    SubsetSize(Holders(Dedicated(t.records.Keys), r.key), Holders(t.records.Keys, r.key));
  }

  lemma {:induction false} RunStaysBounded(c: Config, w: World, events: seq<Event>)
    requires Bounded(c, w.tracker.records.Keys) && Tracked(w.tracker, w.batches) && Possible(c, w, events)
    ensures Bounded(c, Run(c, w, events).tracker.records.Keys)
    ensures w.tracker.records.Keys <= Run(c, w, events).tracker.records.Keys
    decreases events
  {
    if events != [] {
      hide Bounded, Observe, Tracked;
      var e := events[0];
      var v := Step(c, w, e);
      StepTracked(c, w, e);
      EntriesCount(w);
      if e.Arrive? {
        ObserveStaysBounded(c, w.tracker, e.r, e.p);
      } else {
        assert v.tracker.records.Keys == w.tracker.records.Keys;
      }
      RunStaysBounded(c, v, events[1..]);
    }
  }

  lemma EntriesCount(w: World)
    requires Tracked(w.tracker, w.batches)
    ensures w.tracker.entries == |w.tracker.records|
  {
  }

  /** From an empty tracker, no series ever holds more than its bound of dedicated baselines, no
      run takes more dedicated baselines than the global budget, and no baseline is evicted. */
  lemma BaselinesStayBounded(c: Config, first: seq<Event>, later: seq<Event>)
    requires Possible(c, START, first) && Possible(c, Run(c, START, first), later)
    ensures var w := Run(c, START, first);
            && Bounded(c, w.tracker.records.Keys)
            && w.tracker.records.Keys <= Run(c, w, later).tracker.records.Keys
  {
    hide Run, Possible, Step;
    assert Dedicated(START.tracker.records.Keys) == {};
    forall key ensures Holders({}, key) == {} {}
    assert Inv(START);
    RunStaysBounded(c, START, first);
    RunKeepsInv(c, START, first);
    RunStaysBounded(c, Run(c, START, first), later);
  }

  lemma StartedIsSound(start: World)
    requires Started(start)
    ensures Inv(start)
  {
  }

  /** At any time in any run a producer's points go to a record of its own exactly when it has one
      or both its series and the tracker have room for one more; otherwise they go to the record
      its series shares. */
  lemma SlotExactly(c: Config, start: World, events: seq<Event>, r: Ref)
    requires Started(start) && Possible(c, start, events)
    ensures var t := Run(c, start, events).tracker;
            && (Slot(c, t, r) == r
                <==> r in t.records || r.producer == Degraded
                     || (|set q | q in t.records && q.key == r.key| < c.maxProducers && |t.records| < c.maxBaselines))
            && (Slot(c, t, r) != r ==> Slot(c, t, r) == Ref(r.key, Degraded))
  {
    hide Run, Balanced;
    StartedIsSound(start);
    RunKeepsInv(c, start, events);
    var t := Run(c, start, events).tracker;
    EntriesCount(Run(c, start, events));
    assert Holders(t.records.Keys, r.key) == set q | q in t.records && q.key == r.key;
  }
}
