/**
 A cumulative counter end to end: from the points that arrive to what the store holds.

 A point's delta is emitted at once and written later: it waits until a group commit takes it. The
 group also drains the ledger, so the amounts its rows can hand back on failure are those emitted
 since the last drain, whichever group their deltas go to. When every group takes all that waits,
 the two are the same and the store counts exactly; otherwise a failed group hands back what it did
 not carry.
 */
module Counters {
  import opened Ledger

  /** The ledger's world, and beside it per record: the deltas no group has taken, those of each
      group under way, and the totals that landed and that failed. */
  datatype Pipeline = Pipeline(
    ledger: World, waiting: map<Ref, real>, carried: seq<map<Ref, real>>,
    stored: map<Ref, real>, dropped: map<Ref, real>)

  datatype Act =
    | Reduce(r: Ref, p: Point)
    | Group(part: map<Ref, real>)
    | Land(i: nat)
    | Drop(i: nat)

  function Plus(m: map<Ref, real>, n: map<Ref, real>): map<Ref, real> {
    map r | r in m.Keys + n.Keys :: At(m, r) + At(n, r)
  }

  function Minus(m: map<Ref, real>, n: map<Ref, real>): map<Ref, real> {
    map r | r in m.Keys + n.Keys :: At(m, r) - At(n, r)
  }

  predicate Ready(w: Pipeline, a: Act) {
    match a
    case Land(i) => i < |w.carried| && i < |w.ledger.batches|
    case Drop(i) => i < |w.carried| && i < |w.ledger.batches|
    case _ => true
  }

  /** What a point's delta adds to what waits. */
  function Reduced(c: Config, w: Pipeline, r: Ref, p: Point): map<Ref, real> {
    var s := Slot(c, w.ledger.tracker, r);
    if s in w.ledger.tracker.records then Add(w.waiting, s, OutcomeOf(c, w.ledger.tracker.records[s], p).delta)
    else w.waiting
  }

  function Next(c: Config, w: Pipeline, a: Act): Pipeline
    requires Ready(w, a)
  {
    match a
    case Reduce(r, p) => w.(ledger := Step(c, w.ledger, Arrive(r, p)), waiting := Reduced(c, w, r, p))
    case Group(part) =>
      w.(ledger := Step(c, w.ledger, Take), waiting := Minus(w.waiting, part), carried := w.carried + [part])
    case Land(i) =>
      w.(ledger := Step(c, w.ledger, Commit(i)), carried := Ledger.Without(w.carried, i),
         stored := Plus(w.stored, w.carried[i]))
    case Drop(i) =>
      w.(ledger := Step(c, w.ledger, Fail(i)), carried := Ledger.Without(w.carried, i),
         dropped := Plus(w.dropped, w.carried[i]))
  }

  predicate CanDo(c: Config, w: Pipeline, acts: seq<Act>)
    decreases acts
  {
    acts == [] || (Ready(w, acts[0]) && CanDo(c, Next(c, w, acts[0]), acts[1..]))
  }

  function DoAll(c: Config, w: Pipeline, acts: seq<Act>): Pipeline
    requires CanDo(c, w, acts)
    decreases acts
  {
    if acts == [] then w else DoAll(c, Next(c, w, acts[0]), acts[1..])
  }

  ghost predicate Begun(w: Pipeline) {
    Started(w.ledger) && w.waiting == map[] && w.carried == [] && w.stored == map[] && w.dropped == map[]
  }

  // ---------------------------------------------------------------------------------------
  // Every delta is in one place.

  function Transit(carried: seq<map<Ref, real>>, r: Ref): real {
    if carried == [] then 0.0 else At(carried[0], r) + Transit(carried[1..], r)
  }

  predicate Accounted(w: Pipeline, r: Ref) {
    At(w.ledger.accounts.emitted, r) == At(w.waiting, r) + Transit(w.carried, r) + At(w.stored, r) + At(w.dropped, r)
  }

  ghost predicate Sound(w: Pipeline) {
    Inv(w.ledger) && |w.carried| == |w.ledger.batches| && forall r :: Accounted(w, r)
  }

  lemma {:induction false} TransitAppend(carried: seq<map<Ref, real>>, part: map<Ref, real>, r: Ref)
    ensures Transit(carried + [part], r) == Transit(carried, r) + At(part, r)
  {
    if carried != [] {
      assert (carried + [part])[1..] == carried[1..] + [part];
      TransitAppend(carried[1..], part, r);
    }
  }

  lemma {:induction false} TransitWithout(carried: seq<map<Ref, real>>, i: nat, r: Ref)
    requires i < |carried|
    ensures Transit(Ledger.Without(carried, i), r) == Transit(carried, r) - At(carried[i], r)
  {
    if i == 0 {
      assert Ledger.Without(carried, 0) == carried[1..];
    } else {
      TransitWithout(carried[1..], i - 1, r);
      assert Ledger.Without(carried, i) == [carried[0]] + Ledger.Without(carried[1..], i - 1);
    }
  }

  lemma ReduceAccounted(c: Config, w: Pipeline, q: Ref, p: Point, r: Ref)
    requires Accounted(w, r)
    ensures Accounted(Next(c, w, Reduce(q, p)), r)
  {
    hide Transit, Slot, OutcomeOf, Observe, Increase, Settled, Dropped;
  }

  lemma GroupAccounted(c: Config, w: Pipeline, part: map<Ref, real>, r: Ref)
    requires Accounted(w, r)
    ensures Accounted(Next(c, w, Group(part)), r)
  {
    hide Transit, Drain, Drained;
    TransitAppend(w.carried, part, r);
  }

  lemma EndAccounted(c: Config, w: Pipeline, a: Act, i: nat, r: Ref)
    requires Ready(w, a) && Accounted(w, r) && (a == Land(i) || a == Drop(i))
    ensures Accounted(Next(c, w, a), r)
  {
    hide Transit, Ledger.Without, Rollback, Credit;
    TransitWithout(w.carried, i, r);
  }

  lemma NextAccounted(c: Config, w: Pipeline, a: Act, r: Ref)
    requires Ready(w, a) && Accounted(w, r)
    ensures Accounted(Next(c, w, a), r)
  {
    hide Next, Accounted;
    match a {
      case Reduce(q, p) => ReduceAccounted(c, w, q, p, r);
      case Group(part) => GroupAccounted(c, w, part, r);
      case Land(i) => EndAccounted(c, w, a, i, r);
      case Drop(i) => EndAccounted(c, w, a, i, r);
    }
  }

  lemma NextSound(c: Config, w: Pipeline, a: Act)
    requires Sound(w) && Ready(w, a)
    ensures Sound(Next(c, w, a))
  {
    hide Inv, Step, Accounted;
    forall r ensures Accounted(Next(c, w, a), r) { NextAccounted(c, w, a, r); }
    match a {
      case Reduce(r, p) => StepKeepsInv(c, w.ledger, Arrive(r, p)); BatchCount(c, w.ledger, Arrive(r, p));
      case Group(_) => StepKeepsInv(c, w.ledger, Take); BatchCount(c, w.ledger, Take);
      case Land(i) => StepKeepsInv(c, w.ledger, Commit(i)); BatchCount(c, w.ledger, Commit(i));
      case Drop(i) => StepKeepsInv(c, w.ledger, Fail(i)); BatchCount(c, w.ledger, Fail(i));
    }
  }

  lemma BatchCount(c: Config, w: World, e: Event)
    requires Enabled(w, e)
    ensures |Step(c, w, e).batches| == |w.batches| + (if e.Take? then 1 else if e.Arrive? then 0 else -1)
  {
  }

  lemma {:induction false} AllSound(c: Config, w: Pipeline, acts: seq<Act>)
    requires Sound(w) && CanDo(c, w, acts)
    ensures Sound(DoAll(c, w, acts))
    decreases acts
  {
    if acts != [] {
      hide Sound, Next, Ready;
      NextSound(c, w, acts[0]);
      AllSound(c, Next(c, w, acts[0]), acts[1..]);
    }
  }

  lemma BegunIsSound(w: Pipeline)
    requires Begun(w)
    ensures Sound(w)
  {
  }

  /** Whatever arrives and however deltas are grouped, landed and lost: what the store counts, with
      what is waiting, under way, owed and dropped with its window, is what the points genuinely
      counted and the difference between what failed groups handed back and what they carried. */
  lemma StoredConservation(c: Config, start: Pipeline, acts: seq<Act>, r: Ref)
    requires Begun(start) && CanDo(c, start, acts)
    ensures var w := DoAll(c, start, acts);
            var a := w.ledger.accounts;
            At(w.stored, r) + At(w.waiting, r) + Transit(w.carried, r) + Owed(w.ledger.tracker, r) + At(a.stranded, r)
            == At(a.genuine, r) + (At(a.failed, r) - At(w.dropped, r))
  {
    hide DoAll, CanDo, Transit, InFlight, Tracked;
    BegunIsSound(start);
    AllSound(c, start, acts);
    var w := DoAll(c, start, acts);
    assert Accounted(w, r) && Balanced(w.ledger, r);
  }

  /** Once nothing waits, is under way, owed or dropped, the store has counted exactly what the points
      did if and only if failed groups handed back what they carried. */
  lemma StoredExactly(c: Config, start: Pipeline, acts: seq<Act>, r: Ref)
    requires Begun(start) && CanDo(c, start, acts)
    ensures var w := DoAll(c, start, acts);
            var a := w.ledger.accounts;
            At(w.waiting, r) == 0.0 == Transit(w.carried, r) && Owed(w.ledger.tracker, r) == 0.0 == At(a.stranded, r)
            ==> (At(w.stored, r) == At(a.genuine, r) <==> At(a.failed, r) == At(w.dropped, r))
  {
    hide DoAll, CanDo, Transit, Owed, At;
    StoredConservation(c, start, acts, r);
  }

  // ---------------------------------------------------------------------------------------
  // Groups that take all that waits.

  /** Every group takes all the deltas that wait. */
  predicate Whole(c: Config, w: Pipeline, acts: seq<Act>)
    requires CanDo(c, w, acts)
    decreases acts
  {
    || acts == []
    || (&& (acts[0].Group? ==> acts[0].part == w.waiting)
        && Whole(c, Next(c, w, acts[0]), acts[1..]))
  }

  /** What waits is what is pending, each group carries what it drained, and so what failed and landed
      is the same on both sides. */
  predicate Matched(w: Pipeline, r: Ref) {
    && At(w.waiting, r) == Pending(w.ledger.tracker, r)
    && |w.carried| == |w.ledger.batches|
    && (forall i :: 0 <= i < |w.carried| ==> At(w.carried[i], r) == Amount(w.ledger.batches[i], r))
    && At(w.dropped, r) == At(w.ledger.accounts.failed, r)
    && At(w.stored, r) == At(w.ledger.accounts.durable, r)
  }

  lemma NextMatched(c: Config, w: Pipeline, a: Act, r: Ref)
    requires Ready(w, a) && Inv(w.ledger) && Matched(w, r) && (a.Group? ==> a.part == w.waiting)
    ensures Matched(Next(c, w, a), r)
  {
    hide Next, Inv, Matched;
    match a {
      case Reduce(q, p) => ReduceMatched(c, w, q, p, r);
      case Group(part) => GroupMatched(c, w, r);
      case Land(i) => EndMatched(c, w, a, i, r);
      case Drop(i) => EndMatched(c, w, a, i, r);
    }
  }

  lemma ReduceMatched(c: Config, w: Pipeline, q: Ref, p: Point, r: Ref)
    requires Matched(w, r)
    ensures Matched(Next(c, w, Reduce(q, p)), r)
  {
    hide Increase, Settled, Dropped, Slot, OwedChange, Amount;
    SettledOrDropped(c, w.ledger.tracker, q, p);
  }

  lemma GroupMatched(c: Config, w: Pipeline, r: Ref)
    requires Inv(w.ledger) && Matched(w, r)
    ensures Matched(Next(c, w, Group(w.waiting)), r)
  {
    hide Balanced, Drain, Drained, Amount;
    DrainTakesEverything(c, w.ledger, r);
  }

  lemma EndMatched(c: Config, w: Pipeline, a: Act, i: nat, r: Ref)
    requires Ready(w, a) && Matched(w, r) && (a == Land(i) || a == Drop(i))
    ensures Matched(Next(c, w, a), r)
  {
    hide Ledger.Without;
    RemovedMatched(w, i, r);
    assert At(w.carried[i], r) == Amount(w.ledger.batches[i], r);
    assert Pending(Next(c, w, a).ledger.tracker, r) == Pending(w.ledger.tracker, r);
  }

  lemma RemovedMatched(w: Pipeline, i: nat, r: Ref)
    requires Matched(w, r) && i < |w.carried|
    ensures var p, q := Ledger.Without(w.carried, i), Ledger.Without(w.ledger.batches, i);
            |p| == |q| && forall j :: 0 <= j < |p| ==> At(p[j], r) == Amount(q[j], r)
  {
  }

  lemma {:induction false} AllMatched(c: Config, w: Pipeline, acts: seq<Act>, r: Ref)
    requires Sound(w) && Matched(w, r) && CanDo(c, w, acts) && Whole(c, w, acts)
    ensures Matched(DoAll(c, w, acts), r)
    decreases acts
  {
    if acts != [] {
      hide Next, Ready, Matched, Accounted, Inv;
      NextMatched(c, w, acts[0], r);
      NextSound(c, w, acts[0]);
      AllMatched(c, Next(c, w, acts[0]), acts[1..], r);
    }
  }

  /** When every group takes all that waits, the store counts exactly what the points did, but for
      what is pending, under way, owed or dropped with its window, whatever groups fail. */
  lemma WholeGroupsCountExactly(c: Config, start: Pipeline, acts: seq<Act>, r: Ref)
    requires Begun(start) && CanDo(c, start, acts) && Whole(c, start, acts)
    ensures var w := DoAll(c, start, acts);
            var a := w.ledger.accounts;
            && At(w.stored, r) == At(a.durable, r)
            && At(w.stored, r) + Pending(w.ledger.tracker, r) + Transit(w.carried, r) + Owed(w.ledger.tracker, r)
               + At(a.stranded, r) == At(a.genuine, r)
  {
    hide DoAll, CanDo, Transit, Whole;
    BegunIsSound(start);
    AllMatched(c, start, acts, r);
    StoredConservation(c, start, acts, r);
  }

  lemma Reducing(c: Config, w: Pipeline, r: Ref, p: Point)
    requires r in w.ledger.tracker.records
    ensures var v, b := Next(c, w, Reduce(r, p)), w.ledger.tracker.records[r];
            && r in v.ledger.tracker.records && v.ledger.tracker.records[r] == After(c, b, p)
            && (OutcomeOf(c, b, p).delta != 0.0 ==> r in v.ledger.tracker.dirty)
            && At(v.waiting, r) == At(w.waiting, r) + OutcomeOf(c, b, p).delta
            && At(v.ledger.accounts.genuine, r) == At(w.ledger.accounts.genuine, r) + Increase(c, b, p)
            && v.carried == w.carried && v.ledger.batches == w.ledger.batches && At(v.stored, r) == At(w.stored, r)
  {
    hide OwedChange, ResetReason;
  }

  lemma Grouping(c: Config, w: Pipeline, r: Ref, part: map<Ref, real>)
    requires r in w.ledger.tracker.records && r in w.ledger.tracker.dirty && w.carried == [] && w.ledger.batches == []
    ensures var v, b := Next(c, w, Group(part)), w.ledger.tracker.records[r];
            && r in v.ledger.tracker.records && v.ledger.tracker.records[r] == b.(pending := 0.0)
            && v.carried == [part] && |v.ledger.batches| == 1 && Amount(v.ledger.batches[0], r) == b.pending
            && At(v.waiting, r) == At(w.waiting, r) - At(part, r) && At(v.stored, r) == At(w.stored, r)
            && v.ledger.accounts == w.ledger.accounts
  {
  }

  lemma Ending(c: Config, w: Pipeline, r: Ref, a: Act)
    requires a == Land(0) || a == Drop(0)
    requires r in w.ledger.tracker.records && |w.carried| == 1 == |w.ledger.batches|
    ensures var v, b := Next(c, w, a), w.ledger.tracker.records[r];
            && r in v.ledger.tracker.records && v.carried == [] && v.ledger.batches == [] && v.waiting == w.waiting
            && v.ledger.tracker.records[r] == (if a.Land? then b else Owing(b, Amount(w.ledger.batches[0], r)))
            && At(v.stored, r) == At(w.stored, r) + (if a.Land? then At(w.carried[0], r) else 0.0)
            && v.ledger.accounts.genuine == w.ledger.accounts.genuine
  {
    hide Credit;
    assert Ledger.Without(w.carried, 0) == [] && Ledger.Without(w.ledger.batches, 0) == [];
  }

  lemma Seeding(c: Config, r: Ref)
    requires c.maxProducers > 0 && c.maxBaselines > 0
    ensures var v := Next(c, Pipeline(START, map[], [], map[], map[]), Reduce(r, Point(0, 0, 0.0)));
            && r in v.ledger.tracker.records && v.ledger.tracker.records[r] == Rec(0, 0, 0.0, 0.0, 0.0)
            && v == Pipeline(v.ledger, map[], [], map[], map[]) && v.ledger.batches == []
            && At(v.ledger.accounts.genuine, r) == 0.0
  {
    assert Holders(START.tracker.records.Keys, r.key) == {};
  }

  lemma DoCons(c: Config, w: Pipeline, a: Act, rest: seq<Act>, end: Pipeline)
    requires Ready(w, a) && CanDo(c, Next(c, w, a), rest) && DoAll(c, Next(c, w, a), rest) == end
    ensures CanDo(c, w, [a] + rest) && DoAll(c, w, [a] + rest) == end
  {
    hide Next, Ready;
    assert ([a] + rest)[1..] == rest;
  }

  lemma DoNone(c: Config, w: Pipeline)
    ensures CanDo(c, w, []) && DoAll(c, w, []) == w
  {
  }

  /** A failing input: a point is reduced, a group drains the ledger before the point's delta is in
      it, and fails. The next point makes up for it, both deltas land, and seven is stored as twelve. */
  lemma SplitGroupDoubles(c: Config, r: Ref)
    requires c.maxProducers > 0 && c.maxBaselines > 0 && c.gap > 0
    ensures var p, next := Point(0, 1, 5.0), Point(0, 2, 7.0);
            var acts := [Reduce(r, Point(0, 0, 0.0)), Reduce(r, p), Group(map[]), Drop(0), Reduce(r, next),
                         Group(map[r := 12.0]), Land(0)];
            var start := Pipeline(START, map[], [], map[], map[]);
            && Begun(start) && CanDo(c, start, acts)
            && At(DoAll(c, start, acts).stored, r) == 12.0
            && At(DoAll(c, start, acts).ledger.accounts.genuine, r) == 7.0
  {
    hide Next, DoAll, CanDo;
    var p, q, next := Point(0, 1, 5.0), Point(0, 0, 0.0), Point(0, 2, 7.0);
    var start := Pipeline(START, map[], [], map[], map[]);
    var all := map[r := 12.0];
    Seeding(c, r);
    var w1 := Next(c, start, Reduce(r, q));
    Reducing(c, w1, r, p);
    var w2 := Next(c, w1, Reduce(r, p));
    Grouping(c, w2, r, map[]);
    var w3 := Next(c, w2, Group(map[]));
    Ending(c, w3, r, Drop(0));
    var w4 := Next(c, w3, Drop(0));
    Reducing(c, w4, r, next);
    var w5 := Next(c, w4, Reduce(r, next));
    Grouping(c, w5, r, all);
    var w6 := Next(c, w5, Group(all));
    Ending(c, w6, r, Land(0));
    var w7 := Next(c, w6, Land(0));
    DoNone(c, w7);
    var fourth := [Group(all)] + ([Land(0)] + []);
    var rest := [Reduce(r, p)] + ([Group(map[])] + ([Drop(0)] + ([Reduce(r, next)] + fourth)));
    DoCons(c, w6, Land(0), [], w7);
    DoCons(c, w5, Group(all), [Land(0)] + [], w7);
    DoCons(c, w4, Reduce(r, next), fourth, w7);
    DoCons(c, w3, Drop(0), [Reduce(r, next)] + fourth, w7);
    DoCons(c, w2, Group(map[]), [Drop(0)] + ([Reduce(r, next)] + fourth), w7);
    DoCons(c, w1, Reduce(r, p), [Group(map[])] + ([Drop(0)] + ([Reduce(r, next)] + fourth)), w7);
    DoCons(c, start, Reduce(r, q), rest, w7);
    assert [Reduce(r, q)] + rest
        == [Reduce(r, q), Reduce(r, p), Group(map[]), Drop(0), Reduce(r, next), Group(all), Land(0)];
  }
}
