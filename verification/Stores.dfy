/**
 The durable tables and the code that drives them: group commits, window finalization and the
 recovery of a restarted process. A transaction is one method; whether it lands is an input.
 */
module Stores {
  import opened Cardinality
  import opened Tables
  import opened Durability
  import opened Groups
  import opened Admissions
  import opened Engines
  import opened Sets

  class Store {
    var log: Table
    var buckets: Table

    constructor ()
      ensures log == map[] && buckets == map[]
    {
      log, buckets := map[], map[];
    }

    /** Merges each row into the delta log. */
    method CommitGroup(rows: Table)
      modifies `log
      ensures log == Plus(old(log), rows)
    {
      hide Plus;
      log := MergeRows(log, rows);
    }

    /** The oldest windows with log rows at or below the cutoff, at most limit of them. */
    method FinalizableWindows(cutoff: int, limit: nat) returns (windows: seq<int>)
      ensures |windows| <= limit
      ensures forall i :: 0 <= i < |windows| ==> windows[i] in Expired(WindowsOf(log), cutoff)
      ensures forall i, j :: 0 <= i < j < |windows| ==> windows[i] < windows[j]
      ensures |windows| < limit ==> forall w :: w in Expired(WindowsOf(log), cutoff) ==> w in windows
      ensures forall i, w :: 0 <= i < |windows| && w in Expired(WindowsOf(log), cutoff) && w !in windows ==> windows[i] < w
    {
      hide Expired, WindowsOf;
      ghost var all := Expired(WindowsOf(log), cutoff);
      var rest := Expired(WindowsOf(log), cutoff);
      windows := [];
      while |windows| < limit && rest != {}
        invariant |windows| <= limit && rest <= all
        invariant forall x :: x in all <==> x in rest || x in windows
        invariant forall i, y :: 0 <= i < |windows| && y in rest ==> windows[i] < y
        invariant forall i, j :: 0 <= i < j < |windows| ==> windows[i] < windows[j]
      {
        var w := FindOldest(rest);
        assert IsMin(w, rest);
        rest, windows := rest - {w}, windows + [w];
      }
      forall i | 0 <= i < |windows| ensures windows[i] in all {
        assert windows[i] in windows;
      }
    }

    /** Moves one window from the log to the buckets, adding to any bucket it already has. */
    method FinalizeWindow(w: int) returns (rows: nat)
      modifies this
      ensures buckets == Plus(old(buckets), Only(old(log), {w})) && log == Except(old(log), {w})
      ensures rows == |Only(old(log), {w})|
    {
      hide Plus;
      var moved := Only(log, {w});
      rows := |moved|;
      buckets := MergeRows(buckets, moved);
      log := Except(log, {w});
    }

    /** The log rows of every window at or above since. */
    method ReplayMutable(since: int) returns (rows: Table)
      ensures rows == Above(log, since - 1)
    {
      rows := map r | r in log && r.window >= since :: log[r];
    }
  }

  /** Each row read, merged with what is there, and written back. */
  method MergeRows(t: Table, rows: Table) returns (u: Table)
    ensures u == Plus(t, rows)
  {
    hide Plus, Merged;
    u := t;
    var rest := rows.Keys;
    MergeStarts(t, rows);
    while rest != {}
      invariant rest <= rows.Keys && u == Merged(t, rows, rest)
    {
      var r :| r in rest;
      MergeOneMore(t, rows, rest, r);
      rest := rest - {r};
      u := if r in u then u[r := u[r] + rows[r]] else u[r := rows[r]];
    }
    MergeEnds(t, rows);
  }

  /** t with every row merged but those in rest. */
  ghost function Merged(t: Table, rows: Table, rest: set<Row>): Table {
    map r | r in t.Keys + (rows.Keys - rest) :: if r in rest then At(t, r) else At(t, r) + At(rows, r)
  }

  lemma MergeStarts(t: Table, rows: Table)
    ensures Merged(t, rows, rows.Keys) == t
  {
    assert t.Keys + (rows.Keys - rows.Keys) == t.Keys;
    forall r | r in t ensures Merged(t, rows, rows.Keys)[r] == t[r] {
      assert t[r] + multiset{} == t[r];
    }
  }

  lemma MergeOneMore(t: Table, rows: Table, rest: set<Row>, r: Row)
    requires r in rest && rest <= rows.Keys
    ensures var u := Merged(t, rows, rest);
            && r in rows
            && Merged(t, rows, rest - {r}) == if r in u then u[r := u[r] + rows[r]] else u[r := rows[r]]
  {
    hide At, Merged;
    var u, v := Merged(t, rows, rest), Merged(t, rows, rest - {r});
    MergedKeys(t, rows, rest, r);
    MergedThere(t, rows, rest, r);
    forall q | q in v && q != r ensures v[q] == u[q] {
      MergedElse(t, rows, rest, r, q);
    }
  }

  lemma MergedKeys(t: Table, rows: Table, rest: set<Row>, r: Row)
    requires r in rest && rest <= rows.Keys
    ensures Merged(t, rows, rest - {r}).Keys == Merged(t, rows, rest).Keys + {r}
  {
  }

  lemma MergedElse(t: Table, rows: Table, rest: set<Row>, r: Row, q: Row)
    requires q in Merged(t, rows, rest - {r}) && q != r
    ensures q in Merged(t, rows, rest) && Merged(t, rows, rest - {r})[q] == Merged(t, rows, rest)[q]
  {
  }

  lemma MergedThere(t: Table, rows: Table, rest: set<Row>, r: Row)
    requires r in rest && r in rows
    ensures var u := Merged(t, rows, rest);
            && r in Merged(t, rows, rest - {r})
            && Merged(t, rows, rest - {r})[r] == if r in u then u[r] + rows[r] else rows[r]
  {
    assert multiset{} + rows[r] == rows[r];
  }

  lemma MergeEnds(t: Table, rows: Table)
    ensures Merged(t, rows, {}) == Plus(t, rows)
  {
    assert rows.Keys - {} == rows.Keys;
    assert Merged(t, rows, {}).Keys == Plus(t, rows).Keys;
    forall r | r in Plus(t, rows) ensures Merged(t, rows, {})[r] == Plus(t, rows)[r] {
    }
  }

  // ---------------------------------------------------------------------------------------
  // The writer.

  /** One group commit: plan, write, then apply or roll back. */
  method Commit(engine: Engine, store: Store, batch: Table, now: int, later: int, lands: bool)
    requires engine.Valid()
    modifies engine, engine.limiter, store`log
    ensures engine.Valid()
    ensures var rolled := StartedPlan(old(engine.Memory()), batch, now, engine.maxClosed);
            if lands then
              exists resolved ::
                && store.log == Plus(old(store.log), resolved)
                && engine.Memory() == rolled.(shards := Plus(rolled.shards, resolved), mutable := rolled.mutable + WindowsOf(resolved))
                && forall g :: GroupTotal(resolved, g) == GroupTotal(Above(batch, FinalizeCutoff(later)), g)
            else store.log == old(store.log) && engine.Memory() == rolled
  {
    hide InStep, StartedPlan, PlanAll, Lists, GroupTotal, Plus;
    var resolved, reserved, before, order := engine.PlanAdmission(batch, now, later);
    if !lands {
      RollbackStaysInStep(engine.limiter.cfg, before, engine.shards, FinalizeCutoff(later), batch, order);
      engine.RollbackAdmission(reserved);
      return;
    }
    store.CommitGroup(resolved);
    CommitStaysInStep(engine.limiter.cfg, before, engine.shards, FinalizeCutoff(later), batch, order);
    engine.CommitAdmission(resolved);
    forall g ensures GroupTotal(resolved, g) == GroupTotal(Above(batch, FinalizeCutoff(later)), g) {
      AdmissionIsConservative(engine.limiter.cfg, before, FinalizeCutoff(later), batch, order, g);
    }
  }

  // ---------------------------------------------------------------------------------------
  // Recovery.

  const WINDOWS_PER_PASS: nat := 32

  /** The windows in gone have been finalized. */
  ghost predicate FinalizedSoFar(log: Table, buckets: Table, gone: set<int>, log2: Table, buckets2: Table) {
    log2 == Except(log, gone) && buckets2 == Plus(buckets, Only(log, gone))
  }

  /** Finalizes the windows of one pass, one transaction each. */
  method FinalizePass(store: Store, windows: seq<int>, ghost log: Table, ghost buckets: Table, ghost gone: set<int>)
    requires FinalizedSoFar(log, buckets, gone, store.log, store.buckets)
    requires forall i, j :: 0 <= i < j < |windows| ==> windows[i] < windows[j]
    requires forall i :: 0 <= i < |windows| ==> windows[i] !in gone
    modifies store
    ensures FinalizedSoFar(log, buckets, gone + Prefix(windows, |windows|), store.log, store.buckets)
    ensures |Prefix(windows, |windows|)| == |windows|
  {
    hide FinalizedSoFar, Plus, Only, Except, Prefix;
    NoneTaken(gone, windows);
    for i := 0 to |windows|
      invariant FinalizedSoFar(log, buckets, gone + Prefix(windows, i), store.log, store.buckets)
      invariant |Prefix(windows, i)| == i
    {
      TakeOne(gone, windows, i);
      OneMoreFinalized(log, buckets, gone + Prefix(windows, i), store.log, store.buckets, windows[i]);
      var _ := store.FinalizeWindow(windows[i]);
    }
  }

  lemma NoneTaken(gone: set<int>, windows: seq<int>)
    ensures gone + Prefix(windows, 0) == gone && |Prefix(windows, 0)| == 0
  {
    assert Prefix(windows, 0) == {};
  }

  lemma TakeOne(gone: set<int>, windows: seq<int>, i: nat)
    requires i < |windows| && windows[i] !in gone
    requires forall j, k :: 0 <= j < k < |windows| ==> windows[j] < windows[k]
    ensures gone + Prefix(windows, i) + {windows[i]} == gone + Prefix(windows, i + 1)
    ensures windows[i] !in gone + Prefix(windows, i)
    ensures |Prefix(windows, i + 1)| == |Prefix(windows, i)| + 1
  {
    PrefixGrows(windows, i);
  }

  /** Finalizes every window whose lateness expired, a bounded number of windows at a time. */
  method FinalizeExpired(store: Store, now: int) returns (done: nat)
    modifies store
    ensures store.log == Above(old(store.log), FinalizeCutoff(now))
    ensures store.buckets == Plus(old(store.buckets), UpToCutoff(old(store.log), FinalizeCutoff(now)))
    ensures done == |Expired(WindowsOf(old(store.log)), FinalizeCutoff(now))|
  {
    hide FinalizedSoFar, WindowsOf, Expired, Plus, Above, UpToCutoff, Prefix;
    done := 0;
    ghost var log, buckets, gone := store.log, store.buckets, {};
    ghost var all := Expired(WindowsOf(log), FinalizeCutoff(now));
    NothingFinalized(log, buckets);
    while true
      invariant FinalizedSoFar(log, buckets, gone, store.log, store.buckets) && gone <= all && done == |gone|
      decreases |all - gone|
    {
      LeftToFinalize(log, buckets, gone, store.log, store.buckets, FinalizeCutoff(now));
      var windows := store.FinalizableWindows(FinalizeCutoff(now), WINDOWS_PER_PASS);
      FinalizePass(store, windows, log, buckets, gone);
      PassTaken(all, gone, windows);
      gone := gone + Prefix(windows, |windows|);
      done := done + |windows|;
      if |windows| < WINDOWS_PER_PASS {
        AllFinalized(log, buckets, store.log, store.buckets, FinalizeCutoff(now));
        return;
      }
    }
  }

  /** What a pass leaves to do. */
  lemma PassTaken(all: set<int>, gone: set<int>, windows: seq<int>)
    requires gone <= all && forall i :: 0 <= i < |windows| ==> windows[i] in all - gone
    requires |Prefix(windows, |windows|)| == |windows|
    ensures var taken := gone + Prefix(windows, |windows|);
            && taken <= all && |taken| == |gone| + |windows|
            && ((forall w :: w in all - gone ==> w in windows) ==> taken == all)
            && (windows != [] ==> |all - taken| < |all - gone|)
  {
    PrefixIsAll(windows);
    var p := Prefix(windows, |windows|);
    assert gone !! p;
    if forall w :: w in all - gone ==> w in windows {
      forall w | w in all ensures w in gone + p {
        assert w !in gone ==> w in all - gone && w in windows;
      }
    }
    if windows != [] {
      assert windows[0] in p && windows[0] in all - gone;
      SubsetSize(all - (gone + p), all - gone);
    }
  }

  ghost function Prefix(windows: seq<int>, n: nat): set<int>
    requires n <= |windows|
  {
    set w | w in windows[..n]
  }

  lemma PrefixGrows(windows: seq<int>, i: nat)
    requires i < |windows|
    ensures Prefix(windows, i + 1) == Prefix(windows, i) + {windows[i]}
    ensures (forall j, k :: 0 <= j < k < |windows| ==> windows[j] < windows[k]) ==> windows[i] !in Prefix(windows, i)
  {
    assert windows[..i + 1] == windows[..i] + [windows[i]];
  }

  lemma PrefixIsAll(windows: seq<int>)
    ensures forall w :: w in windows <==> w in Prefix(windows, |windows|)
  {
    assert windows[..|windows|] == windows;
  }

  lemma NothingFinalized(log: Table, buckets: Table)
    ensures FinalizedSoFar(log, buckets, {}, log, buckets)
  {
    assert Only(log, {}) == map[];
    forall r | r in buckets ensures Plus(buckets, map[])[r] == buckets[r] {
      assert buckets[r] + multiset{} == buckets[r];
    }
    assert Plus(buckets, map[]) == buckets;
  }

  lemma LeftToFinalize(log: Table, buckets: Table, gone: set<int>, log2: Table, buckets2: Table, cutoff: int)
    requires FinalizedSoFar(log, buckets, gone, log2, buckets2)
    ensures Expired(WindowsOf(log2), cutoff) == Expired(WindowsOf(log), cutoff) - gone
  {
    forall w | w in WindowsOf(log) && w !in gone ensures w in WindowsOf(log2) {
      var r :| r in log && r.window == w;
      assert r in log2;
    }
  }

  lemma OneMoreFinalized(log: Table, buckets: Table, gone: set<int>, log2: Table, buckets2: Table, w: int)
    requires FinalizedSoFar(log, buckets, gone, log2, buckets2) && w !in gone
    ensures FinalizedSoFar(log, buckets, gone + {w}, Except(log2, {w}), Plus(buckets2, Only(log2, {w})))
  {
    hide Plus, At, Only, Except;
    var moved, both := Only(log2, {w}), Only(log, gone + {w});
    WindowTaken(log, gone, w);
    forall r ensures At(Plus(buckets2, moved), r) == At(Plus(buckets, both), r) {
      RowFinalized(log, buckets, gone, w, r);
      PlusAt(buckets2, moved, r);
      PlusAt(buckets, both, r);
    }
    PlusKeysOf(buckets2, moved);
    PlusKeysOf(buckets, Only(log, gone));
    PlusKeysOf(buckets, both);
    SameTable(Plus(buckets2, moved), Plus(buckets, both));
  }

  lemma WindowTaken(log: Table, gone: set<int>, w: int)
    requires w !in gone
    ensures Except(Except(log, gone), {w}) == Except(log, gone + {w})
    ensures Only(log, gone + {w}).Keys == Only(log, gone).Keys + Only(Except(log, gone), {w}).Keys
  {
  }

  lemma RowFinalized(log: Table, buckets: Table, gone: set<int>, w: int, r: Row)
    requires w !in gone
    ensures At(Plus(buckets, Only(log, gone)), r) + At(Only(Except(log, gone), {w}), r)
         == At(buckets, r) + At(Only(log, gone + {w}), r)
  {
    hide Plus;
    PlusAt(buckets, Only(log, gone), r);
    ExceptAt(log, gone);
    ExceptAt(Except(log, gone), {w});
    ExceptAt(log, gone + {w});
    hide Only, Except;
  }

  lemma AllFinalized(log: Table, buckets: Table, log2: Table, buckets2: Table, cutoff: int)
    requires FinalizedSoFar(log, buckets, Expired(WindowsOf(log), cutoff), log2, buckets2)
    ensures log2 == Above(log, cutoff) && buckets2 == Plus(buckets, UpToCutoff(log, cutoff))
  {
    assert forall r :: r in log ==> r.window in WindowsOf(log);
    assert Except(log, Expired(WindowsOf(log), cutoff)) == Above(log, cutoff);
    assert Only(log, Expired(WindowsOf(log), cutoff)) == UpToCutoff(log, cutoff);
  }

  /** Brings a fresh engine up from the store: what expired while the process was down becomes
      buckets, and the rest of the log becomes memory, apart from what expired meanwhile. Durable
      totals do not change, and each group's total in memory is that of the remaining log. */
  method Recover(store: Store, engine: Engine, now: int, later: int) returns (finalized: nat)
    requires engine.Valid() && engine.Memory() == Held(map[], {}, {}, 0) && now <= later
    requires forall r :: r in store.log ==> r.window % WINDOW_SIZE == 0
    modifies store, engine, engine.limiter
    ensures engine.Valid()
    ensures forall r :: At(store.log, r) + At(store.buckets, r) == old(At(store.log, r) + At(store.buckets, r))
    ensures forall w :: w in WindowsOf(store.log) ==> w > FinalizeCutoff(now) && !Late(now, w)
    ensures store.log == Above(old(store.log), FinalizeCutoff(now))
    ensures store.buckets == Plus(old(store.buckets), UpToCutoff(old(store.log), FinalizeCutoff(now)))
    ensures Readmits(engine.shards, Above(store.log, FinalizeCutoff(later)))
    ensures engine.mutable == WindowsOf(engine.shards) && engine.closed == {}
  {
    hide InStep, Readmits, Above, UpToCutoff, Plus, At, Late, MutableSince, WindowsOf;
    ReplaysTheRest(store.log, store.buckets, now);
    finalized := FinalizeExpired(store, now);
    var rows := store.ReplayMutable(MutableSince(now));
    ReplayRows(engine, rows, now, later);
  }

  /** Applies the replayed rows to a fresh engine. */
  method ReplayRows(engine: Engine, rows: Table, now: int, later: int)
    requires engine.Valid() && engine.Memory() == Held(map[], {}, {}, 0)
    modifies engine, engine.limiter
    ensures engine.Valid()
    ensures Readmits(engine.shards, Above(rows, FinalizeCutoff(later)))
    ensures engine.mutable == WindowsOf(engine.shards) && engine.closed == {}
  {
    hide InStep, PlanAll, Lists, Readmits, StartedPlan, Above, Plus, WindowsOf;
    var resolved, _, before, order := engine.PlanAdmission(rows, now, later);
    CommitStaysInStep(engine.limiter.cfg, before, engine.shards, FinalizeCutoff(later), rows, order);
    NothingRolledOver(rows, now, engine.maxClosed, resolved);
    AdmissionReadmits(engine.limiter.cfg, before, FinalizeCutoff(later), rows, order);
    engine.CommitAdmission(resolved);
  }

  /** After expired windows are finalized, the replay reads everything that is left, and no row
      is lost or counted twice. */
  lemma ReplaysTheRest(log: Table, buckets: Table, now: int)
    requires forall r :: r in log ==> r.window % WINDOW_SIZE == 0
    ensures var kept := Above(log, FinalizeCutoff(now));
            && Above(kept, MutableSince(now) - 1) == kept
            && (forall w :: w in WindowsOf(kept) ==> w > FinalizeCutoff(now) && !Late(now, w))
            && forall r :: At(kept, r) + At(Plus(buckets, UpToCutoff(log, FinalizeCutoff(now))), r) == At(log, r) + At(buckets, r)
  {
    hide Plus, MutableSince, Late;
    var kept := Above(log, FinalizeCutoff(now));
    forall r | r in kept ensures r.window > MutableSince(now) - 1 && !Late(now, r.window) {
      CutoffsAgree(now, r.window);
    }
    forall r ensures At(kept, r) + At(Plus(buckets, UpToCutoff(log, FinalizeCutoff(now))), r) == At(log, r) + At(buckets, r) {
      PlusAt(buckets, UpToCutoff(log, FinalizeCutoff(now)), r);
      MultisetShuffle(At(log, r), At(buckets, r));
    }
  }

  lemma NothingRolledOver(batch: Table, now: int, cap: int, resolved: Table)
    ensures StartedPlan(Held(map[], {}, {}, 0), batch, now, cap).shards == map[]
    ensures StartedPlan(Held(map[], {}, {}, 0), batch, now, cap).mutable == {} == StartedPlan(Held(map[], {}, {}, 0), batch, now, cap).closed
    ensures Plus(map[], resolved) == resolved
  {
    forall r | r in resolved ensures Plus(map[], resolved)[r] == resolved[r] {
      assert multiset{} + resolved[r] == resolved[r];
    }
  }
}
