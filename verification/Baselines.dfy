/**
 The baseline tracker as it runs: one critical section per method, each proved against the
 value-level operation of Ledger.
 */
module Baselines {
  import opened Ledger
  import opened Restarts

  class BaselineTracker {
    const cfg: Config
    var records: map<Ref, Rec>
    var dirty: set<Ref>
    var entries: nat
    var owed: int
    var stale: nat
    var seeded: nat
    var gaps: nat
    var resets: nat
    var recovered: nat
    var stranded: nat

    ghost function State(): Tracker
      reads this
    {
      Tracker(records, dirty, entries, owed)
    }

    constructor (cfg: Config)
      ensures this.cfg == cfg && State() == START.tracker
    {
      this.cfg := cfg;
      records, dirty, entries, owed := map[], {}, 0, 0;
      stale, seeded, gaps, resets, recovered, stranded := 0, 0, 0, 0, 0, 0;
    }

    /** Installs a baseline read back at startup. It is durable already, so it is not dirty. */
    method Seed(r: Ref, b: Rec)
      modifies this
      ensures State() == Seeded(old(State()), r, b)
    {
      if r !in records { entries := entries + 1; }
      records := records[r := b.(pending := 0.0, owed := 0.0)];
    }

    /** Applies one cumulative point and says what to do with it. */
    method ObserveCumulative(r: Ref, p: Point) returns (out: Outcome)
      modifies this
      ensures State() == Observe(cfg, old(State()), r, p)
      ensures var s := Slot(cfg, old(State()), r);
              out == (if s in old(records) then OutcomeOf(cfg, old(records)[s], p) else NOTHING.(seeded := true))
                     .(degraded := s != r)
      ensures var s := Slot(cfg, old(State()), r);
              s in old(records) && old(records)[s].last < p.ts <= old(records)[s].last + cfg.gap ==>
                var b := old(records)[s];
                && (out.reason == StartTimeChange <==> p.start != b.start)
                && (out.reason == ValueRegression <==> p.start == b.start && p.value < b.value)
                && out.delta == Rise(b, p) + (if b.owed > 0.0 then b.owed else 0.0)
      ensures recovered == old(recovered) + if out.recovered then 1 else 0
    {
      ghost var before := State();
      var s := r;
      out := NOTHING;
      if s !in records && s.producer != Degraded {
        if |Holders(records.Keys, s.key)| >= cfg.maxProducers || entries >= cfg.maxBaselines {
          out := out.(degraded := true);
          s := Ref(s.key, Degraded);
        }
      }
      if s !in records {
        records := records[s := Rec(p.start, p.ts, p.value, 0.0, 0.0)];
        entries, seeded, dirty := entries + 1, seeded + 1, dirty + {s};
        return out.(seeded := true);
      }
      if before.records[s].last < p.ts <= before.records[s].last + cfg.gap { FreshPointExactly(cfg, before, r, p); }
      var settled := Apply(s, p);
      out := settled.(degraded := out.degraded);
    }

    /** One point on the record it goes to. */
    method Apply(s: Ref, p: Point) returns (out: Outcome)
      requires s in records
      modifies this`records, this`dirty, this`owed, this`stale, this`gaps, this`resets, this`recovered, this`stranded
      ensures var b := old(records)[s];
              && records == old(records)[s := After(cfg, b, p)] && out == OutcomeOf(cfg, b, p)
              && dirty == (if out.ignored then old(dirty) else old(dirty) + {s})
              && owed == old(owed) + OwedChange(b.owed, After(cfg, b, p).owed)
      ensures recovered == old(recovered) + if out.recovered then 1 else 0
    {
      var b := records[s];
      out := NOTHING;
      if p.ts <= b.last {
        stale := stale + 1;
        if b.owed > 0.0 {
          out := out.(delta := b.owed, recovered := true);
          records := records[s := b.(pending := b.pending + b.owed, owed := 0.0)];
          owed, recovered, dirty := owed - 1, recovered + 1, dirty + {s};
          return;
        }
        assert records[s := b] == records;
        return out.(ignored := true);
      }
      if p.ts - b.last > cfg.gap {
        if b.owed > 0.0 {
          b := b.(owed := 0.0);
          owed, stranded := owed - 1, stranded + 1;
        }
        records := records[s := b.(start := p.start, last := p.ts, value := p.value)];
        gaps, dirty := gaps + 1, dirty + {s};
        return out.(gap := true);
      }
      out := Progress(b, p);
      if b.owed > 0.0 {
        out := out.(delta := out.delta + b.owed, recovered := true);
        b := b.(owed := 0.0);
        owed, recovered := owed - 1, recovered + 1;
      }
      records := records[s := Rec(p.start, p.ts, p.value, b.pending + out.delta, b.owed)];
      dirty := dirty + {s};
    }

    /** A newer point within the horizon: a restart, a fall, or an increase. */
    method Progress(b: Rec, p: Point) returns (out: Outcome)
      requires !Stale(b, p) && !Gapped(cfg, b, p)
      modifies `resets
      ensures out == NOTHING.(reason := ResetReason(b, p), delta := Increase(cfg, b, p))
    {
      if p.start != b.start {
        resets := resets + 1;
        return NOTHING.(reason := StartTimeChange, delta := p.value);
      }
      if p.value < b.value {
        resets := resets + 1;
        return NOTHING.(reason := ValueRegression, delta := p.value);
      }
      return NOTHING.(delta := p.value - b.value);
    }

    /** Takes the dirty records, with the increase each emitted since the last drain. */
    method DrainDirty() returns (rows: map<Ref, Rec>)
      modifies this`records, this`dirty
      ensures rows == Drained(old(State())) && State() == Drain(old(State()))
    {
      ghost var before := records;
      var rest := dirty;
      rows := map[];
      while rest != {}
        invariant rest <= dirty == old(dirty)
        invariant rows == map r | r in dirty - rest && r in before :: before[r]
        invariant records == map r | r in before :: if r in dirty - rest then before[r].(pending := 0.0) else before[r]
      {
        var r :| r in rest;
        rest := rest - {r};
        if r in records {
          rows := rows[r := records[r]];
          records := records[r := records[r].(pending := 0.0)];
        }
      }
      dirty := {};
    }

    /** Puts drained rows back after a failed commit, and owes each record what its row carried. */
    method PutBack(rows: map<Ref, Rec>)
      modifies this`records, this`dirty, this`owed
      ensures State() == Rollback(old(State()), rows)
    {
      hide PaidSoFar, Rollback, Owing;
      ghost var t := State();
      var rest := rows.Keys;
      PaidSoFarEnds(t, rows);
      while rest != {}
        invariant rest <= rows.Keys && PaidSoFar(t, rows, rest, State())
      {
        var r :| r in rest;
        PaidSoFarStep(t, rows, rest, r, State());
        rest := rest - {r};
        PutBackRow(r, rows[r].pending);
      }
    }

    method PutBackRow(r: Ref, inflight: real)
      modifies this`records, this`dirty, this`owed
      ensures State() == RowBack(old(State()), r, inflight)
    {
      dirty := dirty + {r};
      if r in records && inflight != 0.0 {
        if records[r].owed == 0.0 { owed := owed + 1; }
        records := records[r := Owing(records[r], inflight)];
      }
    }
  }

  /** One row of a failed batch put back. */
  ghost function RowBack(t: Tracker, r: Ref, inflight: real): Tracker {
    if r in t.records && inflight != 0.0 then
      t.(records := t.records[r := Owing(t.records[r], inflight)], dirty := t.dirty + {r},
         owed := t.owed + if t.records[r].owed == 0.0 then 1 else 0)
    else t.(dirty := t.dirty + {r})
  }

  /** u is t with every row put back but those in rest. */
  ghost predicate PaidSoFar(t: Tracker, rows: map<Ref, Rec>, rest: set<Ref>, u: Tracker) {
    var done := rows.Keys - rest;
    u == t.(records := PaidBack(t.records, rows, done), dirty := t.dirty + done,
            owed := t.owed + |Newly(t.records, rows, done)|)
  }

  lemma PaidSoFarStep(t: Tracker, rows: map<Ref, Rec>, rest: set<Ref>, r: Ref, u: Tracker)
    requires r in rest && r in rows && PaidSoFar(t, rows, rest, u)
    ensures PaidSoFar(t, rows, rest - {r}, RowBack(u, r, rows[r].pending))
  {
    var done := rows.Keys - rest;
    assert rows.Keys - (rest - {r}) == done + {r};
    hide PaidBack, Newly, Owing;
    NewlyGrows(t.records, rows, done, r);
    PaidBackStep(t.records, rows, done, r);
  }

  lemma PaidSoFarEnds(t: Tracker, rows: map<Ref, Rec>)
    ensures PaidSoFar(t, rows, rows.Keys, t)
    ensures forall u :: PaidSoFar(t, rows, {}, u) ==> u == Rollback(t, rows)
  {
    hide PaidBack, Newly, Rollback, Owing;
    assert rows.Keys - rows.Keys == {} && rows.Keys - {} == rows.Keys;
    PaidBackEnds(t, rows);
  }

  /** The records among done that start to owe. */
  ghost function Newly(records: map<Ref, Rec>, rows: map<Ref, Rec>, done: set<Ref>): set<Ref> {
    set r | r in done && r in rows && r in records && rows[r].pending != 0.0 && records[r].owed == 0.0
  }

  lemma NewlyGrows(records: map<Ref, Rec>, rows: map<Ref, Rec>, done: set<Ref>, r: Ref)
    requires r !in done && r in rows
    ensures |Newly(records, rows, done + {r})|
         == |Newly(records, rows, done)|
            + if r in records && rows[r].pending != 0.0 && records[r].owed == 0.0 then 1 else 0
  {
    if r in records && rows[r].pending != 0.0 && records[r].owed == 0.0 {
      assert Newly(records, rows, done + {r}) == Newly(records, rows, done) + {r};
    } else {
      assert Newly(records, rows, done + {r}) == Newly(records, rows, done);
    }
  }

  /** The records once the rows in done have been put back. */
  ghost function PaidBack(records: map<Ref, Rec>, rows: map<Ref, Rec>, done: set<Ref>): map<Ref, Rec> {
    map r | r in records :: if r in done && r in rows then Owing(records[r], rows[r].pending) else records[r]
  }

  lemma PaidBackStep(records: map<Ref, Rec>, rows: map<Ref, Rec>, done: set<Ref>, r: Ref)
    requires r !in done && r in rows
    ensures var m := PaidBack(records, rows, done);
            && (r in m <==> r in records) && (r in m ==> m[r] == records[r])
            && PaidBack(records, rows, done + {r})
               == if r in m && rows[r].pending != 0.0 then m[r := Owing(m[r], rows[r].pending)] else m
  {
  }

  lemma PaidBackEnds(t: Tracker, rows: map<Ref, Rec>)
    ensures PaidBack(t.records, rows, {}) == t.records && Newly(t.records, rows, {}) == {}
    ensures Rollback(t, rows)
         == t.(records := PaidBack(t.records, rows, rows.Keys), dirty := t.dirty + rows.Keys,
               owed := t.owed + |Newly(t.records, rows, rows.Keys)|)
  {
    assert Newly(t.records, rows, rows.Keys)
        == set r | r in rows && r in t.records && rows[r].pending != 0.0 && t.records[r].owed == 0.0;
  }
}
