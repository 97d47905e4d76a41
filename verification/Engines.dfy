/**
 The engine's memory as it runs: the shard contents, the windows it owns and the limiter that
 counts them. The four hash shards are one table, and each method is one critical section.
 */
module Engines {
  import opened Cardinality
  import opened Tables
  import opened Durability
  import opened Admissions
  import opened Limiters
  import opened Sets

  /** The smallest member of a set, found by visiting each of them. */
  method FindOldest(s: set<int>) returns (m: int)
    requires s != {}
    ensures m == Oldest(s)
  {
    ghost var x := Pick(s);
    m :| m in s by { assert x in s; }
    var rest := s - {m};
    while rest != {}
      invariant rest <= s && m in s && forall x :: x in s ==> x in rest || m <= x
    {
      var v: int :| v in rest by { ghost var y := Pick(rest); assert y in rest; }
      rest := rest - {v};
      if v < m { m := v; }
    }
    assert IsMin(Oldest(s), s) && IsMin(m, s);
  }

  class Engine {
    const limiter: Limiter
    const maxClosed: int
    var shards: Table
    var mutable: set<int>
    var closed: set<int>
    var watermark: int

    /** Memory holds rows only of windows it owns, and closed windows are still owned. */
    ghost predicate Owned()
      reads `shards, `mutable, `closed
    {
      closed <= mutable && WindowsOf(shards) <= mutable
    }

    ghost predicate Valid()
      reads this, limiter
    {
      Owned() && limiter.Valid() && InStep(limiter.State(), shards)
    }

    constructor (cfg: Config, maxClosed: int)
      ensures Valid() && fresh(limiter) && limiter.cfg == cfg && this.maxClosed == maxClosed
      ensures shards == map[] && mutable == {} && closed == {} && watermark == 0
    {
      limiter := new Limiter(cfg);
      this.maxClosed := maxClosed;
      shards, mutable, closed, watermark := map[], {}, {}, 0;
    }

    /** Drops one window from the shards and releases every series it held. */
    method EvictWindow(start: int)
      requires Valid()
      modifies `shards, limiter
      ensures shards == Except(old(shards), {start}) && limiter.Valid() && InStep(limiter.State(), shards)
    {
      hide InStep, Limiter.Valid;
      ghost var before, c := shards, limiter.State();
      ghost var released: seq<Row> := [];
      var rest := set r | r in shards && r.window == start;
      ghost var all := rest;
      while rest != {}
        invariant rest <= all && limiter.Valid() && limiter.State() == ReleaseAll(c, released)
        invariant shards == before && forall r :: r in released <==> r in all - rest
      {
        var r :| r in rest;
        rest := rest - {r};
        limiter.Release(r.key, r.window);
        ReleaseOneMore(c, released, r);
        released := released + [r];
      }
      EvictStaysInStep(c, before, {start}, released);
      shards := Except(shards, {start});
    }

    /** Forces the oldest closed window out of memory. */
    method EvictOldest() returns (start: int)
      requires Valid() && closed != {}
      modifies this, limiter
      ensures Valid() && start == Oldest(old(closed))
      ensures Memory() == Held(Except(old(shards), {start}), old(mutable) - {start}, old(closed) - {start},
                               Raised(old(watermark), {start}))
    {
      hide InStep, Limiter.Valid;
      start := FindOldest(closed);
      RaisedByOne(watermark, start);
      ExceptWindows(shards, start);
      EvictWindow(start);
      closed, mutable := closed - {start}, mutable - {start};
      if start > watermark { watermark := start; }
    }

    ghost function Memory(): Held
      reads `shards, `mutable, `closed, `watermark
    {
      Held(shards, mutable, closed, watermark)
    }

    /** Closes every expired window, and forces the oldest closed ones out of memory past the cap. */
    method Rollover(now: int) returns (forced: nat)
      requires Valid()
      modifies this, limiter
      ensures Valid() && Memory() == RolledOver(old(Memory()), now, maxClosed)
      ensures forced == |old(closed) + Expired(old(mutable), FinalizeCutoff(now))| - |closed|
    {
      hide InStep, Limiter.Valid, Evicted, OverCap;
      closed := closed + Expired(mutable, FinalizeCutoff(now));
      forced := 0;
      ghost var start, all := Memory(), closed;
      NothingEvicted(start, maxClosed);
      while maxClosed >= 0 && |closed| > maxClosed
        invariant Valid() && Evicted(start, Memory(), maxClosed) && forced == |all| - |closed|
        decreases |closed|
      {
        OneMoreEvicted(start, Memory(), maxClosed);
        var _ := EvictOldest();
        forced := forced + 1;
      }
      EvictionDone(start, Memory(), maxClosed);
    }

    /** Hands a finalized window to the store. */
    method MarkFinalized(start: int)
      requires Valid()
      modifies this, limiter
      ensures Valid()
      ensures Memory() == Held(Except(old(shards), {start}), old(mutable) - {start}, old(closed) - {start},
                               Raised(old(watermark), {start}))
    {
      hide InStep, Limiter.Valid;
      RaisedByOne(watermark, start);
      ExceptWindows(shards, start);
      EvictWindow(start);
      mutable, closed := mutable - {start}, closed - {start};
      if start > watermark { watermark := start; }
    }

    /** Rolls the windows forward and reserves one batch against the budget; later is the clock's
        second reading, and nothing at all happens for an empty batch. before is the census the plan
        starts from, and order the order its rows were admitted in. */
    method PlanAdmission(batch: Table, now: int, later: int) returns (resolved: Table, reserved: seq<Row>, ghost before: Census,
                         ghost order: seq<Row>)
      requires Valid()
      modifies this, limiter
      ensures Owned() && limiter.Valid() && InStep(before, shards) && Lists(order, batch)
      ensures Memory() == StartedPlan(old(Memory()), batch, now, maxClosed)
      ensures PlanAll(limiter.cfg, before, FinalizeCutoff(later), batch, order) == Admissions.Plan.Plan(limiter.State(), resolved, reserved)
    {
      hide InStep, Limiter.Valid, RolledOver, PlanAll, Lists;
      if |batch| > 0 { var _ := Rollover(now); }
      before, order := limiter.State(), [];
      resolved, reserved := map[], [];
      var rest := batch.Keys;
      ListingStarts(batch, limiter.cfg, before, FinalizeCutoff(later));
      while rest != {}
        invariant Listing(batch, rest, order) && limiter.Valid() && Owned()
        invariant Memory() == StartedPlan(old(Memory()), batch, now, maxClosed) && InStep(before, shards)
        invariant PlanAll(limiter.cfg, before, FinalizeCutoff(later), batch, order) == Admissions.Plan.Plan(limiter.State(), resolved, reserved)
      {
        var r :| r in rest;
        PlanStep(limiter.cfg, before, FinalizeCutoff(later), batch, rest, order, r);
        rest, order := rest - {r}, order + [r];
        if r.window > FinalizeCutoff(later) {
          var a := limiter.Admit(r.key, r.window);
          var target := Row(r.window, a.key);
          if a.reserved { reserved := reserved + [target]; }
          resolved := Plus(resolved, map[target := batch[r]]);
        }
      }
      ListingEnds(batch, order);
    }

    /** Folds a committed plan into the shards and owns its windows. */
    method CommitAdmission(resolved: Table)
      requires Owned() && limiter.Valid() && InStep(limiter.State(), Plus(shards, resolved))
      modifies `shards, `mutable
      ensures Valid() && shards == Plus(old(shards), resolved) && mutable == old(mutable) + WindowsOf(resolved)
    {
      hide InStep, Limiter.Valid, Plus;
      PlusWindows(shards, resolved);
      shards := Plus(shards, resolved);
      mutable := mutable + WindowsOf(resolved);
    }

    /** Gives back the presence of a plan whose commit failed. */
    method RollbackAdmission(reserved: seq<Row>)
      requires Owned() && limiter.Valid() && InStep(ReleaseAll(limiter.State(), reserved), shards)
      modifies limiter
      ensures Valid() && limiter.State() == ReleaseAll(old(limiter.State()), reserved)
    {
      hide InStep, Limiter.Valid, ReleaseAll;
      ghost var c := limiter.State();
      NothingReleased(c, reserved);
      for i := 0 to |reserved|
        invariant limiter.Valid() && limiter.State() == ReleaseAll(c, reserved[..i]) && Owned()
        invariant shards == old(shards)
      {
        limiter.Release(reserved[i].key, reserved[i].window);
        ReleaseOneMore(c, reserved[..i], reserved[i]);
        assert reserved[..i + 1] == reserved[..i] + [reserved[i]];
      }
      assert reserved[..|reserved|] == reserved;
    }
  }

  lemma NothingReleased(c: Census, rows: seq<Row>)
    ensures ReleaseAll(c, rows[..0]) == c
  {
  }

  /** order lists the rows of the batch that are no longer in rest. */
  ghost predicate Listing(batch: Table, rest: set<Row>, order: seq<Row>) {
    && rest <= batch.Keys && Distinct(order)
    && forall r :: r in order <==> r in batch.Keys - rest
  }

  lemma ListingStarts(batch: Table, cfg: Config, c: Census, cutoff: int)
    ensures Listing(batch, batch.Keys, []) && PlanAll(cfg, c, cutoff, batch, []) == Admissions.Plan.Plan(c, map[], [])
  {
  }

  lemma ListingEnds(batch: Table, order: seq<Row>)
    requires Listing(batch, {}, order)
    ensures Lists(order, batch)
  {
  }

  lemma PlanStep(cfg: Config, c: Census, cutoff: int, batch: Table, rest: set<Row>, order: seq<Row>, r: Row)
    requires Listing(batch, rest, order) && r in rest
    ensures r in batch && Listing(batch, rest - {r}, order + [r])
    ensures PlanAll(cfg, c, cutoff, batch, order + [r]) == PlanOne(cfg, PlanAll(cfg, c, cutoff, batch, order), cutoff, r, batch[r])
  {
    assert (order + [r])[..|order|] == order;
    assert r !in order;
    assert forall q :: q in order + [r] <==> q in order || q == r;
  }

  /** What memory owns: the rows, the windows, those closed and the newest handed over. */
  datatype Held = Held(shards: Table, mutable: set<int>, closed: set<int>, watermark: int)

  /** Planning rolls the windows over, unless there is nothing to plan. */
  ghost function StartedPlan(h: Held, batch: Table, now: int, cap: int): Held {
    if |batch| == 0 then h else RolledOver(h, now, cap)
  }

  /** The expired windows closed, and the oldest closed ones past the cap gone. */
  ghost function RolledOver(h: Held, now: int, cap: int): Held {
    var all := h.closed + Expired(h.mutable, FinalizeCutoff(now));
    var over := OverCap(all, cap);
    Held(Except(h.shards, over), h.mutable - over, all - over, Raised(h.watermark, over))
  }

  /** now has some of the windows that are over the cap in start already evicted. */
  ghost predicate Evicted(start: Held, now: Held, cap: int) {
    var done := start.closed - now.closed;
    && now.closed <= start.closed
    && now == Held(Except(start.shards, done), start.mutable - done, now.closed, Raised(start.watermark, done))
    && OverCap(start.closed, cap) == done + OverCap(now.closed, cap)
  }

  lemma NothingEvicted(h: Held, cap: int)
    ensures Evicted(h, h, cap)
  {
    NothingOver(h.shards, h.watermark);
    assert h.closed - h.closed == {} && h.mutable - {} == h.mutable;
  }

  lemma OneMoreEvicted(start: Held, now: Held, cap: int)
    requires Evicted(start, now, cap) && cap >= 0 && |now.closed| > cap
    ensures var x := Oldest(now.closed);
            && now.closed != {} && |now.closed - {x}| == |now.closed| - 1
            && Evicted(start, Held(Except(now.shards, {x}), now.mutable - {x}, now.closed - {x}, Raised(now.watermark, {x})), cap)
  {
    hide Except, OverCap;
    var x, done := Oldest(now.closed), start.closed - now.closed;
    OverCapStep(now.closed, cap);
    OneMoreOver(start.shards, start.watermark, done, x);
    assert start.closed - (now.closed - {x}) == done + {x};
    assert start.mutable - done - {x} == start.mutable - (done + {x});
    assert done + ({x} + OverCap(now.closed - {x}, cap)) == done + {x} + OverCap(now.closed - {x}, cap);
  }

  lemma EvictionDone(start: Held, now: Held, cap: int)
    requires Evicted(start, now, cap) && (cap < 0 || |now.closed| <= cap)
    ensures var over := OverCap(start.closed, cap);
            now == Held(Except(start.shards, over), start.mutable - over, start.closed - over, Raised(start.watermark, over))
  {
    hide Except;
    OverCapDone(now.closed, cap);
    var done := start.closed - now.closed;
    assert done + {} == done && start.closed - done == now.closed;
  }

  lemma RaisedByOne(watermark: int, start: int)
    ensures Raised(watermark, {start}) == if start > watermark then start else watermark
  {
    assert IsMax(Raised(watermark, {start}), {start} + {watermark});
  }

  lemma ExceptWindows(t: Table, start: int)
    ensures WindowsOf(Except(t, {start})) == WindowsOf(t) - {start}
  {
    forall w ensures w in WindowsOf(Except(t, {start})) <==> w in WindowsOf(t) && w != start {
      if w in WindowsOf(t) && w != start {
        var r :| r in t && r.window == w;
        assert r in Except(t, {start});
      }
    }
  }

  lemma OverCapStep(closed: set<int>, cap: int)
    requires cap >= 0 && |closed| > cap
    ensures closed != {} && OverCap(closed, cap) == {Oldest(closed)} + OverCap(closed - {Oldest(closed)}, cap)
  {
  }

  lemma OverCapDone(closed: set<int>, cap: int)
    requires cap < 0 || |closed| <= cap
    ensures OverCap(closed, cap) == {}
  {
  }

  lemma ReleaseOneMore(c: Census, rows: seq<Row>, r: Row)
    ensures ReleaseAll(c, rows + [r]) == Release(ReleaseAll(c, rows), r.key, r.window)
  {
    assert (rows + [r])[..|rows|] == rows;
  }

  lemma NothingOver(t: Table, watermark: int)
    ensures Except(t, {}) == t && Raised(watermark, {}) == watermark
  {
    assert IsMax(Raised(watermark, {}), {} + {watermark});
  }

  lemma OneMoreOver(t: Table, watermark: int, done: set<int>, start: int)
    ensures Except(Except(t, done), {start}) == Except(t, done + {start})
    ensures Raised(watermark, done + {start}) == Raised(Raised(watermark, done), {start})
  {
    RaisedByOne(Raised(watermark, done), start);
    assert IsMax(Raised(watermark, done), done + {watermark});
    assert IsMax(Raised(watermark, done + {start}), done + {start} + {watermark});
  }
}
