/**
 What a counter's points come to over a whole run, restarts, gaps and late points included, told
 from the points alone: the last value before each restart and the last value of all, less the
 value the record started from.
 */
module Restarts {
  import opened Ledger

  // ---------------------------------------------------------------------------------------
  // One point.

  /** What a point within the gap of its record's last one does, by what it carries: a new start
      time or a lower value makes it count from zero, and it brings along what is owed. */
  lemma FreshPointExactly(c: Config, t: Tracker, r: Ref, p: Point)
    requires var s := Slot(c, t, r); s in t.records && t.records[s].last < p.ts <= t.records[s].last + c.gap
    ensures var s, b := Slot(c, t, r), t.records[Slot(c, t, r)];
            var u, out := Observe(c, t, r, p), OutcomeOf(c, t.records[Slot(c, t, r)], p);
            && s in u.records && u.dirty == t.dirty + {s}
            && (out.reason == StartTimeChange <==> p.start != b.start)
            && (out.reason == ValueRegression <==> p.start == b.start && p.value < b.value)
            && (out.recovered <==> b.owed > 0.0) && !out.gap && !out.ignored
            && out.delta == Rise(b, p) + (if b.owed > 0.0 then b.owed else 0.0)
            && u.records[s] == Rec(p.start, p.ts, p.value, b.pending + out.delta, if b.owed > 0.0 then 0.0 else b.owed)
  {
  }

  function Rise(b: Rec, p: Point): real {
    if p.start == b.start && p.value >= b.value then p.value - b.value else p.value
  }

  // ---------------------------------------------------------------------------------------
  // A run.

  /** The points that reach a record in a run. */
  function Reaching(c: Config, w: World, events: seq<Event>, r: Ref): seq<Point>
    requires Possible(c, w, events)
    decreases events
  {
    if events == [] then []
    else (if Reaches(c, w, events[0], r) then [events[0].p] else []) + Reaching(c, Step(c, w, events[0]), events[1..], r)
  }

  /** The record's present point, if there is one, before those that reach it. */
  function History(c: Config, w: World, events: seq<Event>, r: Ref): seq<Point>
    requires Possible(c, w, events)
  {
    (if r in w.tracker.records then [LastOf(w.tracker.records[r])] else []) + Reaching(c, w, events, r)
  }

  function LastOf(b: Rec): Point { Point(b.start, b.last, b.value) }

  /** The last value before each restart and the last value of all. A late point is passed over,
      and over a gap nothing is known to have been counted. */
  function Peaks(gap: int, from: Point, ps: seq<Point>): real
    decreases |ps|
  {
    if ps == [] then from.value
    else if ps[0].ts <= from.ts then Peaks(gap, from, ps[1..])
    else if ps[0].ts > from.ts + gap then from.value + (Peaks(gap, ps[0], ps[1..]) - ps[0].value)
    else if ps[0].start != from.start || ps[0].value < from.value then from.value + Peaks(gap, ps[0], ps[1..])
    else Peaks(gap, ps[0], ps[1..])
  }

  function Counted(gap: int, ps: seq<Point>): real {
    if ps == [] then 0.0 else Peaks(gap, ps[0], ps[1..]) - ps[0].value
  }

  lemma ArriveCounts(c: Config, w: World, e: Event, r: Ref, rest: seq<Point>)
    requires Enabled(w, e) && Reaches(c, w, e, r)
    ensures var v := Step(c, w, e);
            && r in v.tracker.records
            && Counted(c.gap, (if r in w.tracker.records then [LastOf(w.tracker.records[r])] else []) + ([e.p] + rest))
               == (At(v.accounts.genuine, r) - At(w.accounts.genuine, r))
                  + Counted(c.gap, [LastOf(v.tracker.records[r])] + rest)
  {
    if r in w.tracker.records {
      var b := LastOf(w.tracker.records[r]);
      assert ([b] + ([e.p] + rest))[1..] == [e.p] + rest && ([e.p] + rest)[1..] == rest;
      assert ([LastOf(Step(c, w, e).tracker.records[r])] + rest)[1..] == rest;
    } else {
      assert [] + ([e.p] + rest) == [LastOf(Step(c, w, e).tracker.records[r])] + rest;
    }
  }

  lemma OtherCounts(c: Config, w: World, e: Event, r: Ref)
    requires Enabled(w, e) && !Reaches(c, w, e, r)
    ensures var v := Step(c, w, e);
            && At(v.accounts.genuine, r) == At(w.accounts.genuine, r)
            && (r in v.tracker.records <==> r in w.tracker.records)
            && (r in w.tracker.records ==> LastOf(v.tracker.records[r]) == LastOf(w.tracker.records[r]))
  {
  }

  /** Over every run, however its commits end, the genuine total of a record is what its points
      come to. */
  lemma {:induction false} GenuineIsCounted(c: Config, w: World, events: seq<Event>, r: Ref)
    requires Possible(c, w, events)
    ensures At(Run(c, w, events).accounts.genuine, r) - At(w.accounts.genuine, r)
         == Counted(c.gap, History(c, w, events, r))
    decreases events
  {
    hide Step, Counted, Enabled;
    if events == [] {
      NothingCounts(c, w, r);
    } else {
      var v := Step(c, w, events[0]);
      GenuineIsCounted(c, v, events[1..], r);
      if Reaches(c, w, events[0], r) {
        ArriveCounts(c, w, events[0], r, Reaching(c, v, events[1..], r));
      } else {
        OtherCounts(c, w, events[0], r);
        assert History(c, w, events, r) == History(c, v, events[1..], r);
      }
    }
  }

  lemma NothingCounts(c: Config, w: World, r: Ref)
    ensures Counted(c.gap, History(c, w, [], r)) == 0.0
  {
  }

  /** A record read back at startup counts on from the point the store kept, so a restart of the
      collector loses nothing and counts nothing twice. */
  lemma SeededCountsOn(c: Config, w: World, r: Ref, b: Rec, events: seq<Event>)
    requires Started(w)
    requires Possible(c, w.(tracker := Seeded(w.tracker, r, b)), events)
    ensures var v := w.(tracker := Seeded(w.tracker, r, b));
            At(Run(c, v, events).accounts.genuine, r)
            == Counted(c.gap, [Point(b.start, b.last, b.value)] + Reaching(c, v, events, r))
  {
    hide Run, Counted, Reaching;
    GenuineIsCounted(c, w.(tracker := Seeded(w.tracker, r, b)), events, r);
  }

  /** Once everything emitted is committed and nothing is owed, what is durable, with what a gap
      stranded, is what the points come to. */
  lemma DurableIsCounted(c: Config, w: World, events: seq<Event>, r: Ref)
    requires Inv(w) && Possible(c, w, events)
    requires InFlight(w.batches, r) == 0.0 && Pending(w.tracker, r) == 0.0 && Owed(w.tracker, r) == 0.0
    ensures var v := Run(c, w, events);
            InFlight(v.batches, r) == 0.0 && Pending(v.tracker, r) == 0.0 && Owed(v.tracker, r) == 0.0 ==>
              (At(v.accounts.durable, r) + At(v.accounts.stranded, r))
              - (At(w.accounts.durable, r) + At(w.accounts.stranded, r))
              == Counted(c.gap, History(c, w, events, r))
  {
    hide Run, Counted, History, InFlight;
    GenuineIsCounted(c, w, events, r);
    RunKeepsInv(c, w, events);
    assert Balanced(w, r) && Balanced(Run(c, w, events), r);
  }

  // ---------------------------------------------------------------------------------------
  // A counter that restarts.

  /** Points of one process: newer each time and within the gap, of one start time, never falling. */
  predicate Segment(gap: int, s: seq<Point>) {
    && s != []
    && forall i :: 0 < i < |s| ==>
         s[i - 1].ts < s[i].ts <= s[i - 1].ts + gap && s[i].start == s[i - 1].start && s[i].value >= s[i - 1].value
  }

  /** q is the first point of a new process after p. */
  predicate Restarted(gap: int, p: Point, q: Point) {
    p.ts < q.ts <= p.ts + gap && (q.start != p.start || q.value < p.value)
  }

  /** Segments one after the other, each begun by a restart within the gap. */
  predicate Segments(gap: int, segs: seq<seq<Point>>) {
    && (forall i :: 0 <= i < |segs| ==> Segment(gap, segs[i]))
    && forall i :: 0 < i < |segs| ==> Restarted(gap, segs[i - 1][|segs[i - 1]| - 1], segs[i][0])
  }

  function Flat(segs: seq<seq<Point>>): seq<Point> { if segs == [] then [] else segs[0] + Flat(segs[1..]) }

  function LastValues(segs: seq<seq<Point>>): real
    requires forall i :: 0 <= i < |segs| ==> segs[i] != []
  {
    if segs == [] then 0.0 else segs[0][|segs[0]| - 1].value + LastValues(segs[1..])
  }

  /** Within a segment only its last value stays. */
  lemma {:induction false} SegmentPeaks(gap: int, s: seq<Point>, rest: seq<Point>)
    requires Segment(gap, s)
    ensures Peaks(gap, s[0], s[1..] + rest) == Peaks(gap, s[|s| - 1], rest)
    decreases |s|
  {
    if |s| == 1 {
      assert s[1..] + rest == rest;
    } else {
      assert (s[1..] + rest)[0] == s[1] && (s[1..] + rest)[1..] == s[2..] + rest;
      assert s[1..][1..] == s[2..];
      SegmentPeaks(gap, s[1..], rest);
    }
  }

  lemma {:induction false} SegmentsPeaks(gap: int, segs: seq<seq<Point>>)
    requires Segments(gap, segs) && segs != []
    ensures Flat(segs) != [] && Flat(segs)[0] == segs[0][0]
    ensures Peaks(gap, Flat(segs)[0], Flat(segs)[1..]) == LastValues(segs)
  {
    var s, rest := segs[0], Flat(segs[1..]);
    assert (s + rest)[1..] == s[1..] + rest;
    SegmentPeaks(gap, s, rest);
    if |segs| > 1 {
      assert Segments(gap, segs[1..]) by { assert forall i :: 0 < i < |segs[1..]| ==> segs[1..][i - 1] == segs[i]; }
      SegmentsPeaks(gap, segs[1..]);
      assert Restarted(gap, segs[0][|segs[0]| - 1], segs[1][0]);
    }
  }

  /** A counter that restarts any number of times within the gap has as its genuine total the sum
      of its segments' last values, less the value its record started from. */
  lemma RestartsAreCounted(c: Config, w: World, events: seq<Event>, r: Ref, segs: seq<seq<Point>>)
    requires Possible(c, w, events)
    requires Segments(c.gap, segs) && segs != [] && History(c, w, events, r) == Flat(segs)
    ensures At(Run(c, w, events).accounts.genuine, r) - At(w.accounts.genuine, r) == LastValues(segs) - segs[0][0].value
  {
    hide Run, History, Segments, Peaks, Flat;
    GenuineIsCounted(c, w, events, r);
    SegmentsPeaks(c.gap, segs);
  }
}
