/**
 What a whole collection takes: over a run from its snapshot to the end of its sweep, with
 anything going on beside it, exactly which durable rows are gone, told from the durable tables and
 from what was in use, not from the collector's own candidate sets.
 */
module Collections {
  import Cardinality
  import opened Registries
  import opened Identity

  /** What may go on beside a collection: all but its own steps and a restart. */
  predicate Aside(e: Event) {
    e.Register? || e.OtherID? || e.CacheStore? || e.Reduce? || e.Discard? || e.Resolve? || e.Commit? || e.Retire?
  }

  /** A collection within a run: its snapshot, its mark, its barrier and the landing of its sweep. */
  ghost predicate Collects(es: seq<Event>, a: nat, b: nat, c: nat, d: nat) {
    && a < b < c < d < |es|
    && es[a].Snapshot? && es[b].Mark? && es[c].BeginSweep? && es[d].SweepLands?
    && forall i :: a < i < d && i != b && i != c ==> Aside(es[i])
  }

  /** A key spells an ID out, or its dimension tuple contains it. */
  predicate Names(v: Values, dict: map<nat, nat>, k: Cardinality.SeriesKey, id: nat) {
    || (id != 0 && (id == k.tenant || id == k.service || id == k.name || id == k.dims))
    || (k.dims in dict && !v.sentinel(dict[k.dims]) && id in v.parts(dict[k.dims]))
  }

  /** An ID somebody needs: it is cached, staged or handed out at the barrier, a template, a
      sentinel, or named by a series row that the sweep leaves. */
  ghost predicate Wanted(v: Values, barrier: World, dict: map<nat, nat>, series: map<nat, Cardinality.SeriesKey>,
                         templates: set<nat>, id: nat) {
    || id in barrier.cached + barrier.reg.pending + barrier.reg.touched + templates
    || (id in barrier.reg.keys && v.sentinel(barrier.reg.keys[id]))
    || exists s :: s in series && Names(v, dict, series[s], id)
  }

  /** Neither the ID nor a row that it is the tenant of is wanted. */
  ghost predicate Unwanted(v: Values, snap: World, barrier: World, dict: map<nat, nat>,
                           series: map<nat, Cardinality.SeriesKey>, templates: set<nat>, id: nat) {
    && !Wanted(v, barrier, dict, series, templates, id)
    && forall r :: r in snap.dict.rows && v.tenant(snap.dict.rows[r]) == id ==>
         !Wanted(v, barrier, dict, series, templates, r)
  }

  // ---------------------------------------------------------------------------------------
  // Beside a collection nothing durable is lost and nothing goes out of use.

  ghost predicate Aged(w: World, n: World) {
    && n.pass == w.pass
    && SubMap(w.dict.rows, n.dict.rows) && SubMap(w.series.rows, n.series.rows)
    && SubMap(w.reg.keys, n.reg.keys) && w.cached <= n.cached
    && w.reg.touched <= n.reg.touched && w.ser.touched <= n.ser.touched
  }

  lemma GivenAges(v: Values, w: World, x: nat)
    requires Inv(v, w)
    ensures Aged(w, Given(w, x))
  {
    hide Closed, Complete, PassOk, Held;
  }

  lemma ResolvedAges(v: Values, w: World, k: Cardinality.SeriesKey)
    requires Inv(v, w)
    ensures Aged(w, Resolved(w, k))
  {
    hide Closed, Complete, PassOk, Held;
  }

  lemma CommittedAges(v: Values, w: World)
    requires Inv(v, w)
    ensures Aged(w, Committed(w))
  {
    hide Closed, Complete, PassOk, Held, Sound, Landed, SubMap;
    CommittedTables(w);
    SameMap(w.reg.keys);
  }

  lemma SameMap<T>(m: map<nat, T>)
    ensures SubMap(m, m)
  {
  }

  lemma StepAges(v: Values, w: World, e: Event)
    requires Inv(v, w) && Enabled(v, w, e) && Aside(e)
    ensures Aged(w, Next(v, w, e))
  {
    hide Inv, Given, Resolved, Committed, Usable, Named, Components, TenantReady;
    match e {
      case Register(x) => GivenAges(v, w, x);
      case OtherID(x) => GivenAges(v, w, x);
      case Resolve(k) => ResolvedAges(v, w, k);
      case Commit(lands) => if lands { CommittedAges(v, w); }
      case _ =>
    }
  }

  lemma {:induction false} RunAges(v: Values, ws: seq<World>, es: seq<Event>, i: nat, j: nat)
    requires IsRun(v, ws, es) && i <= j < |ws|
    requires forall k :: i <= k < j ==> Aside(es[k])
    ensures Aged(ws[i], ws[j])
    decreases j
  {
    hide Inv, Enabled, Next;
    if i < j {
      RunAges(v, ws, es, i, j - 1);
      RunKeepsInv(v, ws, es, j - 1);
      StepAges(v, ws[j - 1], es[j - 1]);
    }
  }

  // ---------------------------------------------------------------------------------------
  // The four steps of the collection, and what lies between them.

  /** The worlds a collection passes: before its snapshot, before its mark, before its barrier,
      before its sweep lands; and what its mark found in shards and among templates. */
  datatype Course = Course(snap: World, mark: World, barrier: World, last: World, active: set<nat>, templates: set<nat>)

  ghost predicate Phases(v: Values, p: Course) {
    && Inv(v, p.mark) && Inv(v, p.barrier) && Inv(v, p.last)
    && Aged(p.snap.(pass := Snapped(p.snap.refs, p.snap.series.rows, p.snap.dict.rows)), p.mark)
    && p.mark.pass.Snapped?
    && Aged(p.mark.(pass := MarkPhase(v, p.mark, p.active, p.templates)), p.barrier)
    && p.barrier.pass.Marked?
    && Aged(Fenced(v, p.barrier), p.last)
    && p.last.pass.Sweeping?
  }

  lemma PhasesOf(v: Values, ws: seq<World>, es: seq<Event>, a: nat, b: nat, c: nat, d: nat)
    requires IsRun(v, ws, es) && Collects(es, a, b, c, d)
    ensures |ws| == |es| + 1
    ensures Phases(v, Course(ws[a], ws[b], ws[c], ws[d], es[b].activeSeries, es[b].templates))
    ensures ws[d + 1] == Swept(ws[d])
  {
    hide Inv, MarkPhase, Fenced, Swept, Aged;
    RunKeepsInv(v, ws, es, b);
    RunKeepsInv(v, ws, es, c);
    RunKeepsInv(v, ws, es, d);
    RunAges(v, ws, es, a + 1, b);
    RunAges(v, ws, es, b + 1, c);
    RunAges(v, ws, es, c + 1, d);
    assert Enabled(v, ws[b], es[b]) && Enabled(v, ws[c], es[c]) && Enabled(v, ws[d], es[d]);
    assert ws[a + 1] == Next(v, ws[a], es[a]) && ws[b + 1] == Next(v, ws[b], es[b])
        && ws[c + 1] == Next(v, ws[c], es[c]) && ws[d + 1] == Next(v, ws[d], es[d]);
  }

  lemma SeriesTaken(v: Values, p: Course)
    requires Phases(v, p)
    ensures SubMap(p.snap.series.rows, p.last.series.rows)
    ensures forall s :: s in p.snap.series.rows ==>
              (s in p.last.pass.doomedSeries <==>
                s !in p.snap.refs && s !in p.active && s !in p.barrier.ser.pending + p.barrier.ser.touched)
    ensures p.last.pass.doomedSeries <= p.snap.series.rows.Keys
  {
    hide Closed, Complete, PassOk, Held, Roots, ReachAll, Inverses, Fresh;
  }

  lemma NamesIsReach(v: Values, dict: map<nat, nat>, k: Cardinality.SeriesKey, id: nat)
    ensures Names(v, dict, k, id) <==> id in Reach(v, dict, k)
  {
  }

  lemma ReachGrows(v: Values, m: map<nat, nat>, n: map<nat, nat>, k: Cardinality.SeriesKey)
    requires SubMap(m, n)
    ensures Reach(v, m, k) <= Reach(v, n, k)
  {
  }

  /** Whatever the mark started from is wanted. */
  lemma RootsAreWanted(v: Values, p: Course, id: nat)
    requires Phases(v, p) && id in p.snap.dict.rows
    requires id in Roots(v, p.mark, p.snap.refs + p.mark.ser.pending + p.mark.ser.touched + p.active, p.templates)
    ensures Wanted(v, p.barrier, p.last.dict.rows, p.last.series.rows - p.last.pass.doomedSeries, p.templates, id)
  {
    hide Closed, Complete, PassOk, Held, Inverses, Fresh, Fenced, MarkPhase, Names, Reach;
    SeriesTaken(v, p);
    MarkedAfter(v, p);
    var live := p.snap.refs + p.mark.ser.pending + p.mark.ser.touched + p.active;
    if id in ReachAll(v, p.snap.dict.rows, p.snap.series.rows, live) {
      var s :| s in p.snap.series.rows && s in live && id in Reach(v, p.snap.dict.rows, p.snap.series.rows[s]);
      ReachGrows(v, p.snap.dict.rows, p.last.dict.rows, p.snap.series.rows[s]);
      NamesIsReach(v, p.last.dict.rows, p.last.series.rows[s], id);
      assert s in p.last.series.rows - p.last.pass.doomedSeries;
    }
  }

  lemma MarkedAfter(v: Values, p: Course)
    requires Phases(v, p)
    ensures SubMap(p.snap.dict.rows, p.mark.dict.rows) && SubMap(p.snap.dict.rows, p.last.dict.rows)
    ensures SubMap(p.snap.series.rows, p.mark.series.rows)
    ensures p.mark.pass == Snapped(p.snap.refs, p.snap.series.rows, p.snap.dict.rows)
    ensures p.snap.dict.rows.Keys !! p.mark.reg.pending && p.snap.series.rows.Keys !! p.mark.ser.pending
    ensures SubMap(p.mark.reg.keys, p.barrier.reg.keys) && p.mark.cached <= p.barrier.cached
    ensures p.mark.reg.touched <= p.barrier.reg.touched && p.mark.ser.touched <= p.barrier.ser.touched
    ensures p.barrier.pass == MarkPhase(v, p.mark, p.active, p.templates)
    ensures p.last.pass == Fenced(v, p.barrier).pass
  {
    hide Closed, Complete, PassOk, Held, Inverses, Fresh, MarkPhase;
  }

  /** Nothing wanted is fenced. */
  lemma WantedStays(v: Values, p: Course, id: nat)
    requires Phases(v, p) && id in p.snap.dict.rows
    requires Wanted(v, p.barrier, p.last.dict.rows, p.last.series.rows - p.last.pass.doomedSeries, p.templates, id)
    ensures id !in p.last.pass.doomed
  {
    hide Closed, Complete, Held, Inverses, Fresh, Names, Reach, SnappedOk, MarkedOk, ReachAll;
    MarkedAfter(v, p);
    var kept := p.last.series.rows - p.last.pass.doomedSeries;
    if s :| s in kept && Names(v, p.last.dict.rows, kept[s], id) {
      NamesIsReach(v, p.last.dict.rows, p.last.series.rows[s], id);
    }
  }

  /** A candidate that is not fenced is wanted. */
  lemma SparedAreWanted(v: Values, p: Course, id: nat)
    requires Phases(v, p) && id in p.snap.dict.rows
    requires id in p.barrier.pass.unnamed && id !in p.last.pass.doomed
    ensures Wanted(v, p.barrier, p.last.dict.rows, p.last.series.rows - p.last.pass.doomedSeries, p.templates, id)
  {
    hide Closed, Complete, PassOk, Held, Inverses, Fresh, Names, Reach, Roots;
    SeriesTaken(v, p);
    MarkedAfter(v, p);
    var back := p.barrier.ser.pending + p.barrier.ser.touched;
    if id in ReachAll(v, p.barrier.pass.values, p.barrier.pass.unused, back) {
      var s :| s in p.barrier.pass.unused && s in back && id in Reach(v, p.barrier.pass.values, p.barrier.pass.unused[s]);
      ReachGrows(v, p.snap.dict.rows, p.last.dict.rows, p.snap.series.rows[s]);
      NamesIsReach(v, p.last.dict.rows, p.last.series.rows[s], id);
      assert s in p.last.series.rows - p.last.pass.doomedSeries;
    }
  }

  /** A wanted row keeps its tenant. */
  lemma TenantStays(v: Values, p: Course, r: nat)
    requires Phases(v, p) && r in p.snap.dict.rows
    requires Wanted(v, p.barrier, p.last.dict.rows, p.last.series.rows - p.last.pass.doomedSeries, p.templates, r)
    ensures v.tenant(p.snap.dict.rows[r]) !in p.last.pass.doomed
  {
    hide Closed, Complete, Held, Sound, Wanted, Reach, MarkPhase, Fenced, SnappedOk, MarkedOk;
    MarkedAfter(v, p);
    WantedStays(v, p, r);
  }

  lemma UncandidatesAreRoots(v: Values, p: Course, id: nat)
    requires Phases(v, p) && id in p.snap.dict.rows
    requires id !in p.barrier.pass.unnamed
    ensures var roots := Roots(v, p.mark, p.snap.refs + p.mark.ser.pending + p.mark.ser.touched + p.active, p.templates);
            id in roots || exists r :: r in roots && r in p.snap.dict.rows && v.tenant(p.snap.dict.rows[r]) == id
  {
    hide Inv, Roots, Fenced, SubMap;
    MarkedAfter(v, p);
  }

  lemma DictTaken(v: Values, p: Course, id: nat)
    requires Phases(v, p) && id in p.snap.dict.rows
    ensures id in p.last.pass.doomed
            <==> Unwanted(v, p.snap, p.barrier, p.last.dict.rows, p.last.series.rows - p.last.pass.doomedSeries, p.templates, id)
  {
    hide Wanted, Roots, Inv, Aged, MarkPhase, Fenced;
    var series := p.last.series.rows - p.last.pass.doomedSeries;
    var roots := Roots(v, p.mark, p.snap.refs + p.mark.ser.pending + p.mark.ser.touched + p.active, p.templates);
    if id in p.last.pass.doomed {
      if Wanted(v, p.barrier, p.last.dict.rows, series, p.templates, id) {
        WantedStays(v, p, id);
      }
      forall r | r in p.snap.dict.rows && v.tenant(p.snap.dict.rows[r]) == id
        ensures !Wanted(v, p.barrier, p.last.dict.rows, series, p.templates, r)
      {
        if Wanted(v, p.barrier, p.last.dict.rows, series, p.templates, r) {
          TenantStays(v, p, r);
        }
      }
    } else if id in p.barrier.pass.unnamed {
      SparedAreWanted(v, p, id);
    } else {
      UncandidatesAreRoots(v, p, id);
      forall r | r in roots && r in p.snap.dict.rows ensures Wanted(v, p.barrier, p.last.dict.rows, series, p.templates, r) {
        RootsAreWanted(v, p, r);
      }
    }
  }

  /** Only rows of the snapshot are candidates, and the sweep deletes what was fenced. */
  lemma OnlyOld(v: Values, p: Course)
    requires Phases(v, p)
    ensures p.last.pass.doomed <= p.snap.dict.rows.Keys <= p.last.dict.rows.Keys
    ensures var n := Swept(p.last);
            n.dict.rows == p.last.dict.rows - p.last.pass.doomed && n.series.rows == p.last.series.rows - p.last.pass.doomedSeries
  {
    hide Inv, Roots, ReachAll, Sentinels;
    MarkedAfter(v, p);
  }

  /** Exactly what a collection takes, whatever goes on beside it. A series row of the snapshot is
      gone when no durable row named it in the snapshot, no shard held it at the mark, and ingest
      neither staged it nor was given it by the barrier. A dictionary row of the snapshot is gone
      when neither it nor a row it is the tenant of is wanted. No row newer than the snapshot goes. */
  lemma CollectedExactly(v: Values, ws: seq<World>, es: seq<Event>, a: nat, b: nat, c: nat, d: nat)
    requires IsRun(v, ws, es) && Collects(es, a, b, c, d)
    ensures forall s :: s in ws[a].series.rows ==>
              (s !in ws[d + 1].series.rows
               <==> s !in ws[a].refs && s !in es[b].activeSeries && s !in ws[c].ser.pending + ws[c].ser.touched)
    ensures forall id :: id in ws[a].dict.rows ==>
              (id !in ws[d + 1].dict.rows
               <==> Unwanted(v, ws[a], ws[c], ws[d].dict.rows, ws[d + 1].series.rows, es[b].templates, id))
    ensures forall s :: s in ws[d].series.rows && s !in ws[a].series.rows ==> s in ws[d + 1].series.rows
    ensures forall id :: id in ws[d].dict.rows && id !in ws[a].dict.rows ==> id in ws[d + 1].dict.rows
  {
    hide Unwanted, Swept, Inv, Aged, MarkPhase, Fenced;
    PhasesOf(v, ws, es, a, b, c, d);
    var p := Course(ws[a], ws[b], ws[c], ws[d], es[b].activeSeries, es[b].templates);
    SeriesTaken(v, p);
    OnlyOld(v, p);
    forall id | id in ws[a].dict.rows
      ensures id in ws[d].pass.doomed
              <==> Unwanted(v, ws[a], ws[c], ws[d].dict.rows, ws[d + 1].series.rows, p.templates, id)
    {
      DictTaken(v, p, id);
    }
  }
}
