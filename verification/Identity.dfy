/**
 Dictionary and series identities: minted in memory, staged, made durable by group commits, and
 collected by a mark that runs beside ingest and a sweep behind a barrier.

 A dictionary value is a number, and Values says what its text determines: the dictionary IDs a
 dimension tuple contains, the ID of the tenant that scopes it, and whether it is an overflow
 sentinel. The hot path builds keys and tuples only from IDs its cache holds and from sentinels.
 */
module Identity {
  import opened Cardinality
  import opened Registries

  datatype Values = Values(parts: nat -> set<nat>, tenant: nat -> nat, sentinel: nat -> bool)

  /** How far a collection has got. */
  datatype Pass =
    | Idle
    | Snapped(refs: set<nat>, series: map<nat, SeriesKey>, dict: map<nat, nat>)
    | Marked(unused: map<nat, SeriesKey>, unnamed: set<nat>, values: map<nat, nat>)
    | Sweeping(doomedSeries: set<nat>, doomed: set<nat>)

  datatype World = World(
    dict: Table<nat>, series: Table<SeriesKey>,
    refs: set<nat>,            // series that delta, bucket and baseline rows name
    reg: Registry<nat>, ser: Registry<SeriesKey>,
    fenced: set<nat>,
    cached: set<nat>,          // IDs the hot path's cache holds
    handed: set<nat>,          // IDs the registrar returned
    flight: set<SeriesKey>,    // keys the hot path has built
    batch: set<nat>,           // series resolved for the commit under way
    pass: Pass)

  datatype Event =
    | Register(value: nat)
    | OtherID(value: nat)
    | CacheStore(id: nat)
    | Reduce(key: SeriesKey)
    | Discard(key: SeriesKey)
    | Resolve(key: SeriesKey)
    | Commit(lands: bool)
    | Retire(id: nat)
    | Snapshot
    | Mark(activeSeries: set<nat>, templates: set<nat>)
    | BeginSweep
    | SweepLands
    | SweepFails
    | Restart

  // ---------------------------------------------------------------------------------------
  // What a key names.

  function Named(k: SeriesKey): set<nat> { {k.tenant, k.service, k.name, k.dims} - {0} }

  function Components(v: Values, x: nat): set<nat> { if v.sentinel(x) then {} else v.parts(x) }

  /** The dictionary IDs a key depends on, down to the parts of its dimension tuple. */
  function Reach(v: Values, values: map<nat, nat>, k: SeriesKey): set<nat> {
    Named(k) + if k.dims in values then Components(v, values[k.dims]) else {}
  }

  function ReachAll(v: Values, values: map<nat, nat>, rows: map<nat, SeriesKey>, live: set<nat>): set<nat> {
    set s, id | s in rows && s in live && id in Reach(v, values, rows[s]) :: id
  }

  function Sentinels(v: Values, values: map<nat, nat>): set<nat> {
    set id | id in values && v.sentinel(values[id]) :: id
  }

  function Tenants(v: Values, values: map<nat, nat>, live: set<nat>): set<nat> {
    set id | id in live && id in values :: v.tenant(values[id])
  }

  /** What the hot path may build a key or a tuple from. */
  function Usable(v: Values, w: World): set<nat> { w.cached + Sentinels(v, w.reg.keys) }

  // ---------------------------------------------------------------------------------------
  // The steps.

  /** Tenants live in the global namespace, so a tenant has none of its own. */
  predicate TenantReady(v: Values, w: World, x: nat) {
    var t := v.tenant(x);
    t == 0 || (t in Usable(v, w) && t in w.reg.keys && v.tenant(w.reg.keys[t]) == 0)
  }

  predicate Enabled(v: Values, w: World, e: Event) {
    match e
    case Register(x) => !v.sentinel(x) && Components(v, x) <= Usable(v, w) && TenantReady(v, w, x)
    case OtherID(x) => v.sentinel(x) && TenantReady(v, w, x)
    case CacheStore(id) => id in w.handed
    case Reduce(k) => Named(k) <= Usable(v, w)
    case Discard(_) => true
    case Resolve(k) => k in w.flight && !w.pass.Sweeping?
    case Commit(_) => !w.pass.Sweeping?
    case Retire(_) => true
    case Snapshot => !w.pass.Sweeping?
    case Mark(_, _) => w.pass.Snapped? && w.handed <= w.reg.touched + w.cached
    case BeginSweep => w.pass.Marked? && w.batch == {}
    case SweepLands => w.pass.Sweeping?
    case SweepFails => w.pass.Sweeping?
    case Restart => true
  }

  ghost function Next(v: Values, w: World, e: Event): World
    requires Enabled(v, w, e)
  {
    match e
    case Register(x) => if x in w.reg.ids && w.reg.ids[x] in w.fenced then w else Given(w, x)
    case OtherID(x) => Given(w, x)
    case CacheStore(id) => w.(cached := w.cached + {id})
    case Reduce(k) => w.(flight := w.flight + {k})
    case Discard(k) => w.(flight := w.flight - {k})
    case Resolve(k) => Resolved(w, k)
    case Commit(lands) => if lands then Committed(w) else w.(batch := {})
    case Retire(id) => w.(refs := w.refs - {id})
    case Snapshot => w.(pass := Snapped(w.refs, w.series.rows, w.dict.rows))
    case Mark(active, templates) => w.(pass := MarkPhase(v, w, active, templates))
    case BeginSweep => Fenced(v, w)
    case SweepLands => Swept(w)
    case SweepFails => w.(fenced := {}, pass := Idle)
    case Restart => Restarted(w)
  }

  /** The ID of a value, minted on first use. */
  function Given(w: World, x: nat): World {
    if x in w.reg.ids then w.(reg := HandedOut(w.reg, w.reg.ids[x]), handed := w.handed + {w.reg.ids[x]})
    else w.(reg := Minted(w.reg, x), handed := w.handed + {w.reg.next})
  }

  function Resolved(w: World, k: SeriesKey): World {
    if k in w.ser.ids then w.(ser := HandedOut(w.ser, w.ser.ids[k]), batch := w.batch + {w.ser.ids[k]})
    else w.(ser := Minted(w.ser, k), batch := w.batch + {w.ser.next})
  }

  /** Everything staged becomes durable in the transaction that writes the batch's references. */
  ghost function Committed(w: World): World {
    w.(dict := Landed(w.dict, w.reg), series := Landed(w.series, w.ser), refs := w.refs + w.batch,
       reg := Drained(w.reg), ser := Drained(w.ser), batch := {})
  }

  /** The candidates: snapshot rows that nothing was found to need. Shards, templates and aliases
      may keep any rows besides. */
  function MarkPhase(v: Values, w: World, active: set<nat>, templates: set<nat>): Pass
    requires w.pass.Snapped?
  {
    var live := w.pass.refs + w.ser.pending + w.ser.touched + active;
    var roots := Roots(v, w, live, templates);
    Marked(w.pass.series - live, w.pass.dict.Keys - (roots + Tenants(v, w.pass.dict, roots)), w.pass.dict)
  }

  function Roots(v: Values, w: World, live: set<nat>, templates: set<nat>): set<nat>
    requires w.pass.Snapped?
  {
    ReachAll(v, w.pass.dict, w.pass.series, live) + templates
    + w.reg.pending + Sentinels(v, w.reg.keys) + w.reg.touched + w.cached
  }

  /** Inside the barrier: drop every candidate that came back into use and all that the series
      that came back name, and fence the rest. */
  function Fenced(v: Values, w: World): World
    requires w.pass.Marked?
  {
    var back := w.ser.pending + w.ser.touched;
    var renamed := ReachAll(v, w.pass.values, w.pass.unused, back);
    var doomed := w.pass.unnamed - (w.reg.pending + w.reg.touched + Sentinels(v, w.reg.keys)) - renamed;
    w.(fenced := doomed, pass := Sweeping(w.pass.unused.Keys - back, doomed))
  }

  /** The rows are gone and the maps forget them. */
  function Swept(w: World): World
    requires w.pass.Sweeping?
  {
    w.(dict := Deleted(w.dict, w.pass.doomed), series := Deleted(w.series, w.pass.doomedSeries),
       reg := Forgotten(w.reg, w.pass.doomed), ser := Forgotten(w.ser, w.pass.doomedSeries),
       fenced := {}, cached := w.cached - w.pass.doomed, pass := Idle)
  }

  ghost function Restarted(w: World): World {
    w.(reg := Warmed(w.dict), ser := Warmed(w.series), fenced := {}, cached := {}, handed := {}, flight := {},
       batch := {}, pass := Idle)
  }

  // ---------------------------------------------------------------------------------------
  // Invariants.

  ghost predicate Held(w: World) {
    && w.cached <= w.reg.keys.Keys && w.handed <= w.reg.keys.Keys
    && w.refs <= w.series.rows.Keys
    && w.batch <= w.ser.touched
  }

  ghost predicate KeyUsable(v: Values, w: World, k: SeriesKey) { Reach(v, w.reg.keys, k) <= Usable(v, w) }

  ghost predicate PartsUsable(v: Values, w: World) {
    forall id :: id in w.cached + w.handed && id in w.reg.keys ==> Components(v, w.reg.keys[id]) <= Usable(v, w)
  }

  ghost predicate TenantsUsable(v: Values, w: World) {
    forall id :: id in w.reg.pending + w.reg.touched && id in w.reg.keys ==> TenantReady(v, w, w.reg.keys[id])
  }

  ghost predicate KeysUsable(v: Values, w: World) {
    && (forall k :: k in w.flight ==> KeyUsable(v, w, k))
    && (forall s :: s in w.ser.pending + w.ser.touched && s in w.ser.keys ==> KeyUsable(v, w, w.ser.keys[s]))
  }

  /** What the hot path, the staged rows and the touched rows depend on can itself be used. */
  ghost predicate Closed(v: Values, w: World) { PartsUsable(v, w) && TenantsUsable(v, w) && KeysUsable(v, w) }

  /** What a collection must keep: every durable series can be named, down to the parts of its
      dimension tuple, and every dictionary row has its tenant. */
  ghost predicate Complete(v: Values, dict: map<nat, nat>, series: map<nat, SeriesKey>) {
    && (forall s :: s in series ==> Reach(v, dict, series[s]) <= dict.Keys)
    && (forall id :: id in dict ==> TenantDurable(v, dict, dict[id]))
  }

  ghost predicate TenantDurable(v: Values, dict: map<nat, nat>, x: nat) {
    var t := v.tenant(x);
    t == 0 || (t in dict && v.tenant(dict[t]) == 0)
  }

  ghost predicate SubMap<K, T>(m: map<K, T>, n: map<K, T>) { forall k :: k in m ==> k in n && m[k] == n[k] }

  ghost predicate SnappedOk(v: Values, w: World)
    requires w.pass.Snapped?
  {
    && SubMap(w.pass.dict, w.dict.rows) && SubMap(w.pass.series, w.series.rows)
    && w.refs <= w.pass.refs + w.ser.touched
    && (forall s :: s in w.pass.series ==> Reach(v, w.pass.dict, w.pass.series[s]) <= w.pass.dict.Keys)
    && (forall s :: s in w.series.rows && s !in w.pass.series ==> KeyUsable(v, w, w.series.rows[s]))
    && (forall id :: id in w.dict.rows && id !in w.pass.dict ==> TenantReady(v, w, w.dict.rows[id]))
  }

  ghost predicate MarkedOk(v: Values, w: World)
    requires w.pass.Marked?
  {
    && SubMap(w.pass.values, w.dict.rows) && SubMap(w.pass.unused, w.series.rows)
    && w.pass.unnamed <= w.dict.rows.Keys && w.pass.unnamed !! Sentinels(v, w.reg.keys)
    && (forall s :: s in w.pass.unused && s in w.refs ==> s in w.ser.touched)
    && (forall id :: id in w.pass.unnamed && id in w.cached + w.handed ==> id in w.reg.touched)
    && (forall s :: s in w.series.rows && s !in w.pass.unused ==> Rescued(w, Reach(v, w.dict.rows, w.series.rows[s])))
    && (forall id :: id in w.dict.rows && id !in w.pass.unnamed ==> Rescued(w, {v.tenant(w.dict.rows[id])}))
  }

  /** Whatever of these is a candidate has come back into use. */
  ghost predicate Rescued(w: World, ids: set<nat>)
    requires w.pass.Marked?
  {
    ids * w.pass.unnamed <= w.reg.touched
  }

  /** What is fenced is out of everyone's reach. */
  ghost predicate SweepingOk(v: Values, w: World)
    requires w.pass.Sweeping?
  {
    && w.pass.doomed <= w.dict.rows.Keys && w.pass.doomedSeries <= w.series.rows.Keys
    && w.fenced == w.pass.doomed && w.batch == {}
    && w.pass.doomedSeries !! w.refs + w.ser.pending + w.ser.touched
    && w.pass.doomed !! w.cached + w.handed + w.reg.pending + w.reg.touched + Sentinels(v, w.reg.keys)
    && (forall s :: s in w.series.rows && s !in w.pass.doomedSeries ==>
          Reach(v, w.dict.rows, w.series.rows[s]) !! w.pass.doomed)
    && (forall id :: id in w.dict.rows && id !in w.pass.doomed ==> v.tenant(w.dict.rows[id]) !in w.pass.doomed)
  }

  ghost predicate PassOk(v: Values, w: World) {
    match w.pass
    case Idle => true
    case Snapped(_, _, _) => SnappedOk(v, w)
    case Marked(_, _, _) => MarkedOk(v, w)
    case Sweeping(_, _) => SweepingOk(v, w)
  }

  ghost predicate Inv(v: Values, w: World) {
    && Sound(w.dict, w.reg) && Sound(w.series, w.ser)
    && Held(w) && Closed(v, w) && Complete(v, w.dict.rows, w.series.rows) && PassOk(v, w)
    && (!w.pass.Sweeping? ==> w.fenced == {})
  }

  // ---------------------------------------------------------------------------------------
  // Every step keeps them.

  /** What ingest, resolving, retention and a failed commit do: the durable tables stay, nothing
      is forgotten, and nothing out of service is handed out. */
  ghost predicate Grows(w: World, n: World) {
    && n.dict == w.dict && n.series == w.series && n.pass == w.pass && n.fenced == w.fenced && n.refs <= w.refs
    && SubMap(w.reg.keys, n.reg.keys) && w.cached <= n.cached
    && w.reg.touched <= n.reg.touched && w.ser.touched <= n.ser.touched
    && (forall id :: id in n.cached + n.handed ==> id in w.cached + w.handed || id in n.reg.touched)
    && (forall id :: id in n.reg.touched ==> id in w.reg.touched || id !in w.fenced)
    && (forall id :: id in n.reg.pending ==> id in w.reg.pending || id !in w.reg.keys)
    && (w.pass.Sweeping? ==> n.ser == w.ser && n.batch == w.batch)
  }

  /** What is new in it depends only on what could be used already. */
  ghost predicate NewUsable(v: Values, w: World, n: World) {
    && (forall id :: id in n.cached + n.handed && id !in w.cached + w.handed && id in n.reg.keys ==>
          Components(v, n.reg.keys[id]) <= Usable(v, w))
    && (forall id :: id in n.reg.pending + n.reg.touched && id !in w.reg.pending + w.reg.touched && id in n.reg.keys ==>
          TenantReady(v, w, n.reg.keys[id]))
    && (forall k :: k in n.flight && k !in w.flight ==> KeyUsable(v, w, k))
    && (forall s :: s in n.ser.pending + n.ser.touched && s in n.ser.keys ==>
          (s in w.ser.pending + w.ser.touched && s in w.ser.keys && n.ser.keys[s] == w.ser.keys[s])
          || KeyUsable(v, w, n.ser.keys[s]))
  }

  lemma UsableGrows(v: Values, w: World, n: World)
    requires SubMap(w.reg.keys, n.reg.keys) && w.cached <= n.cached
    ensures Usable(v, w) <= Usable(v, n)
  {
  }

  lemma KeyUsableGrows(v: Values, w: World, n: World, k: SeriesKey)
    requires SubMap(w.reg.keys, n.reg.keys) && w.cached <= n.cached && w.cached <= w.reg.keys.Keys
    requires 0 !in n.reg.keys && KeyUsable(v, w, k)
    ensures KeyUsable(v, n, k)
  {
    UsableGrows(v, w, n);
    if k.dims in n.reg.keys {
      assert k.dims in Named(k);
      assert k.dims in Usable(v, w) && k.dims in w.reg.keys;
    }
  }

  lemma TenantReadyGrows(v: Values, w: World, n: World, x: nat)
    requires SubMap(w.reg.keys, n.reg.keys) && w.cached <= n.cached && TenantReady(v, w, x)
    ensures TenantReady(v, n, x)
  {
    UsableGrows(v, w, n);
  }

  lemma GrowthKeepsParts(v: Values, w: World, n: World)
    requires SubMap(w.reg.keys, n.reg.keys) && w.cached <= n.cached && Held(w) && PartsUsable(v, w) && NewUsable(v, w, n)
    ensures PartsUsable(v, n)
  {
    hide KeyUsable, TenantReady, Components, Usable;
    UsableGrows(v, w, n);
    forall id | id in n.cached + n.handed && id in n.reg.keys
      ensures Components(v, n.reg.keys[id]) <= Usable(v, n)
    {
      if id in w.cached + w.handed { assert Components(v, w.reg.keys[id]) <= Usable(v, w); }
    }
  }

  lemma GrowthKeepsTenants(v: Values, w: World, n: World)
    requires SubMap(w.reg.keys, n.reg.keys) && w.cached <= n.cached && TenantsUsable(v, w) && NewUsable(v, w, n)
    requires w.reg.pending + w.reg.touched <= w.reg.keys.Keys
    ensures TenantsUsable(v, n)
  {
    hide KeyUsable, TenantReady, Components, Usable;
    forall id | id in n.reg.pending + n.reg.touched && id in n.reg.keys
      ensures TenantReady(v, n, n.reg.keys[id])
    {
      if id in w.reg.pending + w.reg.touched { assert TenantReady(v, w, w.reg.keys[id]); }
      TenantReadyGrows(v, w, n, n.reg.keys[id]);
    }
  }

  lemma GrowthKeepsKeys(v: Values, w: World, n: World)
    requires SubMap(w.reg.keys, n.reg.keys) && w.cached <= n.cached && Held(w) && KeysUsable(v, w) && NewUsable(v, w, n)
    requires 0 !in n.reg.keys
    ensures KeysUsable(v, n)
  {
    hide KeyUsable, TenantReady, Components, Usable;
    forall k | k in n.flight ensures KeyUsable(v, n, k) {
      KeyUsableGrows(v, w, n, k);
    }
    forall s | s in n.ser.pending + n.ser.touched && s in n.ser.keys ensures KeyUsable(v, n, n.ser.keys[s]) {
      KeyUsableGrows(v, w, n, n.ser.keys[s]);
    }
  }

  lemma GrowthKeepsSnapped(v: Values, w: World, n: World)
    requires w.pass.Snapped? && Grows(w, n) && Held(w) && SnappedOk(v, w) && 0 !in n.reg.keys
    ensures SnappedOk(v, n)
  {
    hide KeyUsable, TenantReady, Components, Usable, Reach;
    forall s | s in n.series.rows && s !in n.pass.series ensures KeyUsable(v, n, n.series.rows[s]) {
      KeyUsableGrows(v, w, n, n.series.rows[s]);
    }
    forall id | id in n.dict.rows && id !in n.pass.dict ensures TenantReady(v, n, n.dict.rows[id]) {
      TenantReadyGrows(v, w, n, n.dict.rows[id]);
    }
  }

  /** A minted ID is no candidate: candidates are in the maps already. */
  lemma NewSentinels(v: Values, w: World, n: World, rows: set<nat>)
    requires SubMap(w.reg.keys, n.reg.keys) && rows <= w.reg.keys.Keys && rows !! Sentinels(v, w.reg.keys)
    ensures rows !! Sentinels(v, n.reg.keys)
  {
  }

  lemma GrowthKeepsMarked(v: Values, w: World, n: World)
    requires w.pass.Marked? && Grows(w, n) && Held(w) && MarkedOk(v, w) && InStep(w.dict, w.reg)
    ensures MarkedOk(v, n)
  {
    hide KeyUsable, TenantReady, Components, Usable, Reach, Sentinels;
    NewSentinels(v, w, n, w.pass.unnamed);
    forall s | s in n.series.rows && s !in n.pass.unused ensures Rescued(n, Reach(v, n.dict.rows, n.series.rows[s])) {
      assert Rescued(w, Reach(v, w.dict.rows, w.series.rows[s]));
    }
    forall id | id in n.dict.rows && id !in n.pass.unnamed ensures Rescued(n, {v.tenant(n.dict.rows[id])}) {
      assert Rescued(w, {v.tenant(w.dict.rows[id])});
    }
  }

  lemma GrowthKeepsSweeping(v: Values, w: World, n: World)
    requires w.pass.Sweeping? && Grows(w, n) && Held(w) && SweepingOk(v, w) && InStep(w.dict, w.reg)
    ensures SweepingOk(v, n)
  {
    hide KeyUsable, TenantReady, Components, Usable, Reach, Sentinels;
    NewSentinels(v, w, n, w.pass.doomed);
  }

  lemma GrowthKeepsInv(v: Values, w: World, n: World)
    requires Inv(v, w) && Grows(w, n) && NewUsable(v, w, n)
    requires Sound(n.dict, n.reg) && Sound(n.series, n.ser) && Held(n)
    ensures Inv(v, n)
  {
    hide NewUsable, PartsUsable, KeysUsable, TenantsUsable, SnappedOk, MarkedOk, SweepingOk, TenantDurable, Reach,
         TenantReady, Usable;
    assert 0 !in n.reg.keys;
    GrowthKeepsParts(v, w, n);
    GrowthKeepsTenants(v, w, n);
    GrowthKeepsKeys(v, w, n);
    match w.pass {
      case Idle =>
      case Snapped(_, _, _) => GrowthKeepsSnapped(v, w, n);
      case Marked(_, _, _) => GrowthKeepsMarked(v, w, n);
      case Sweeping(_, _) => GrowthKeepsSweeping(v, w, n);
    }
  }

  /** A usable dimension tuple brings usable parts. */
  lemma NamedIsEnough(v: Values, w: World, k: SeriesKey)
    requires Inv(v, w) && Named(k) <= Usable(v, w)
    ensures KeyUsable(v, w, k)
  {
    hide TenantsUsable, KeysUsable, Complete, PassOk;
    if k.dims in w.reg.keys {
      assert k.dims in Named(k);
      assert k.dims in Usable(v, w);
    }
  }

  lemma GivenIsUsable(v: Values, w: World, x: nat)
    requires InStep(w.dict, w.reg) && Components(v, x) <= Usable(v, w) && TenantReady(v, w, x)
    ensures NewUsable(v, w, Given(w, x))
  {
    hide TenantReady, Components, Usable, KeyUsable;
    var n := Given(w, x);
    var id := if x in w.reg.ids then w.reg.ids[x] else w.reg.next;
    assert n.reg.keys[id] == x;
    assert n.handed == w.handed + {id} && n.reg.touched == w.reg.touched + {id};
    assert n.reg.pending <= w.reg.pending + {id};
  }

  lemma GivenGrows(w: World, x: nat)
    requires Sound(w.dict, w.reg) && (x in w.reg.ids ==> w.reg.ids[x] !in w.fenced) && w.fenced <= w.reg.keys.Keys
    ensures Grows(w, Given(w, x)) && Sound(w.dict, Given(w, x).reg)
  {
    if x in w.reg.ids { HandOutKeeps(w.dict, w.reg, w.reg.ids[x]); } else { MintKeeps(w.dict, w.reg, x); }
  }

  lemma GivenKeeps(v: Values, w: World, x: nat)
    requires Inv(v, w) && Components(v, x) <= Usable(v, w) && TenantReady(v, w, x)
    requires x in w.reg.ids ==> w.reg.ids[x] !in w.fenced
    ensures Inv(v, Given(w, x))
  {
    hide PartsUsable, KeysUsable, TenantsUsable, SnappedOk, MarkedOk, Complete, TenantReady, Components, Usable,
         NewUsable;
    GivenIsUsable(v, w, x);
    GivenGrows(w, x);
    GrowthKeepsInv(v, w, Given(w, x));
  }

  /** Sentinels are never candidates, so they are never fenced. */
  lemma SentinelsAreOpen(v: Values, w: World, x: nat)
    requires Inv(v, w) && v.sentinel(x) && x in w.reg.ids
    ensures w.reg.ids[x] !in w.fenced
  {
    hide Closed, Complete, SnappedOk, MarkedOk;
    assert w.reg.ids[x] in Sentinels(v, w.reg.keys);
  }

  lemma ResolvedKeeps(v: Values, w: World, k: SeriesKey)
    requires Inv(v, w) && k in w.flight && !w.pass.Sweeping?
    ensures Inv(v, Resolved(w, k))
  {
    hide PartsUsable, TenantsUsable, SnappedOk, MarkedOk, SweepingOk, Complete, TenantReady, Components, Usable, Reach;
    assert KeyUsable(v, w, k);
    if k in w.ser.ids { HandOutKeeps(w.series, w.ser, w.ser.ids[k]); } else { MintKeeps(w.series, w.ser, k); }
    GrowthKeepsInv(v, w, Resolved(w, k));
  }

  lemma CacheStoreKeeps(v: Values, w: World, id: nat)
    requires Inv(v, w) && id in w.handed
    ensures Inv(v, w.(cached := w.cached + {id}))
  {
    hide PartsUsable, KeysUsable, TenantsUsable, SnappedOk, MarkedOk, SweepingOk, Complete, TenantReady, Components,
         Inverses;
    GrowthKeepsInv(v, w, w.(cached := w.cached + {id}));
  }

  lemma ReduceKeeps(v: Values, w: World, k: SeriesKey)
    requires Inv(v, w) && Named(k) <= Usable(v, w)
    ensures Inv(v, w.(flight := w.flight + {k}))
  {
    hide PartsUsable, KeysUsable, TenantsUsable, SnappedOk, MarkedOk, SweepingOk, Complete, TenantReady, Components,
         Inverses, Named, Reach, Usable;
    NamedIsEnough(v, w, k);
    GrowthKeepsInv(v, w, w.(flight := w.flight + {k}));
  }

  /** Dropping keys, references and the batch of a failed commit. */
  lemma LossKeeps(v: Values, w: World, flight: set<SeriesKey>, refs: set<nat>, batch: set<nat>)
    requires Inv(v, w) && flight <= w.flight && refs <= w.refs && batch <= w.batch
    requires w.pass.Sweeping? ==> batch == w.batch
    ensures Inv(v, w.(flight := flight, refs := refs, batch := batch))
  {
    hide PartsUsable, KeysUsable, TenantsUsable, SnappedOk, MarkedOk, SweepingOk, Complete, TenantReady, Components,
         Inverses, Named, Reach, Usable;
    GrowthKeepsInv(v, w, w.(flight := flight, refs := refs, batch := batch));
  }

  // ---------------------------------------------------------------------------------------
  // A commit.

  lemma ReachAgrees(v: Values, m: map<nat, nat>, n: map<nat, nat>, k: SeriesKey)
    requires SubMap(m, n) && Named(k) <= m.Keys && 0 !in n
    ensures Reach(v, n, k) == Reach(v, m, k)
  {
    if k.dims in n { assert k.dims in Named(k); }
  }

  /** Everything in the maps is durable afterwards. */
  lemma CommittedTables(w: World)
    requires Sound(w.dict, w.reg) && Sound(w.series, w.ser)
    ensures Committed(w).dict.rows == w.reg.keys && Committed(w).series.rows == w.ser.keys
    ensures SubMap(w.dict.rows, w.reg.keys) && SubMap(w.series.rows, w.ser.keys)
    ensures 0 !in w.reg.keys && 0 !in w.ser.keys
  {
    LandKeeps(w.dict, w.reg);
    LandKeeps(w.series, w.ser);
  }

  lemma UsableIsKnown(v: Values, w: World)
    requires w.cached <= w.reg.keys.Keys
    ensures Usable(v, w) <= w.reg.keys.Keys
  {
  }

  lemma CommitCompletes(v: Values, w: World)
    requires Sound(w.dict, w.reg) && Sound(w.series, w.ser) && Held(w) && Closed(v, w)
    requires Complete(v, w.dict.rows, w.series.rows)
    ensures Complete(v, w.reg.keys, w.ser.keys)
  {
    hide Usable, Components, Inverses, PartsUsable, Fresh;
    CommittedTables(w);
    UsableIsKnown(v, w);
    forall s | s in w.ser.keys ensures Reach(v, w.reg.keys, w.ser.keys[s]) <= w.reg.keys.Keys {
      if s in w.series.rows {
        ReachAgrees(v, w.dict.rows, w.reg.keys, w.ser.keys[s]);
      } else {
        assert KeyUsable(v, w, w.ser.keys[s]);
      }
    }
    forall id | id in w.reg.keys ensures TenantDurable(v, w.reg.keys, w.reg.keys[id]) {
      if id in w.dict.rows {
        assert TenantDurable(v, w.dict.rows, w.dict.rows[id]);
      } else {
        assert TenantReady(v, w, w.reg.keys[id]);
      }
    }
  }

  lemma CommitKeepsClosed(v: Values, w: World, n: World)
    requires InStep(w.series, w.ser) && Closed(v, w) && n.reg.keys == w.reg.keys && n.ser.keys == w.ser.keys
    requires n.cached == w.cached && n.handed == w.handed && n.flight == w.flight
    requires n.reg.pending <= w.reg.pending && n.reg.touched <= w.reg.touched
    requires n.ser.pending <= w.ser.pending && n.ser.touched <= w.ser.touched
    ensures Closed(v, n)
  {
    assert Usable(v, n) == Usable(v, w);
    forall k | KeyUsable(v, w, k) ensures KeyUsable(v, n, k) { }
    forall x | TenantReady(v, w, x) ensures TenantReady(v, n, x) { }
  }

  lemma CommitKeepsSnapped(v: Values, w: World)
    requires w.pass.Snapped? && Sound(w.dict, w.reg) && Sound(w.series, w.ser) && Held(w) && Closed(v, w) && SnappedOk(v, w)
    ensures SnappedOk(v, Committed(w))
  {
    hide Components, Inverses, PartsUsable, Fresh, Landed, Reach, Usable;
    CommittedTables(w);
    var n := Committed(w);
    SameUse(v, w, n);
    forall s | s in n.series.rows && s !in n.pass.series ensures KeyUsable(v, n, n.series.rows[s]) {
      assert KeyUsable(v, w, w.ser.keys[s]);
    }
    forall id | id in n.dict.rows && id !in n.pass.dict ensures TenantReady(v, n, n.dict.rows[id]) {
      assert TenantReady(v, w, w.reg.keys[id]);
    }
  }

  /** What can be used depends on the maps and the cache alone. */
  lemma SameUse(v: Values, w: World, n: World)
    requires n.reg.keys == w.reg.keys && n.cached == w.cached
    ensures Usable(v, n) == Usable(v, w)
    ensures forall k :: KeyUsable(v, n, k) <==> KeyUsable(v, w, k)
    ensures forall x :: TenantReady(v, n, x) <==> TenantReady(v, w, x)
  {
  }

  /** A candidate the hot path can use has been handed out since the mark. */
  lemma UsableIsRescued(v: Values, w: World, ids: set<nat>)
    requires w.pass.Marked? && MarkedOk(v, w) && ids <= Usable(v, w)
    ensures Rescued(w, ids)
  {
  }

  lemma CommitKeepsMarked(v: Values, w: World)
    requires w.pass.Marked? && Sound(w.dict, w.reg) && Sound(w.series, w.ser) && Held(w) && Closed(v, w) && MarkedOk(v, w)
    requires Complete(v, w.dict.rows, w.series.rows)
    ensures MarkedOk(v, Committed(w))
  {
    hide Components, Inverses, PartsUsable, Fresh, Landed, Reach, Usable, Sentinels;
    CommittedTables(w);
    var n := Committed(w);
    forall s | s in n.series.rows && s !in n.pass.unused ensures Rescued(n, Reach(v, n.dict.rows, n.series.rows[s])) {
      var k := n.series.rows[s];
      if s in w.series.rows {
        NamedIsReached(v, w.dict.rows, k);
        ReachAgrees(v, w.dict.rows, w.reg.keys, k);
        assert Rescued(w, Reach(v, w.dict.rows, k));
      } else {
        assert KeyUsable(v, w, k);
        UsableIsRescued(v, w, Reach(v, w.reg.keys, k));
      }
    }
    forall id | id in n.dict.rows && id !in n.pass.unnamed ensures Rescued(n, {v.tenant(n.dict.rows[id])}) {
      var t := v.tenant(n.dict.rows[id]);
      if id in w.dict.rows {
        assert Rescued(w, {v.tenant(w.dict.rows[id])});
      } else {
        assert TenantReady(v, w, w.reg.keys[id]);
        if t != 0 { UsableIsRescued(v, w, {t}); }
      }
    }
  }

  lemma NamedIsReached(v: Values, values: map<nat, nat>, k: SeriesKey)
    ensures Named(k) <= Reach(v, values, k)
  {
  }

  lemma CommittedKeeps(v: Values, w: World)
    requires Inv(v, w) && !w.pass.Sweeping?
    ensures Inv(v, Committed(w))
  {
    hide PartsUsable, KeysUsable, TenantsUsable, SnappedOk, MarkedOk, Complete, TenantReady, Components, Inverses,
         Fresh, Landed, InStep;
    LandKeeps(w.dict, w.reg);
    LandKeeps(w.series, w.ser);
    CommittedTables(w);
    CommitCompletes(v, w);
    CommitKeepsClosed(v, w, Committed(w));
    if w.pass.Snapped? { CommitKeepsSnapped(v, w); }
    if w.pass.Marked? { CommitKeepsMarked(v, w); }
    CommittedHeld(w);
  }

  lemma CommittedHeld(w: World)
    requires Held(w) && Sound(w.dict, w.reg) && Sound(w.series, w.ser)
    ensures Held(Committed(w))
  {
    hide Inverses, Fresh, Landed;
    CommittedTables(w);
  }

  // ---------------------------------------------------------------------------------------
  // A collection.

  lemma SnapshotKeeps(v: Values, w: World)
    requires Inv(v, w) && !w.pass.Sweeping?
    ensures Inv(v, w.(pass := Snapped(w.refs, w.series.rows, w.dict.rows)))
  {
    hide Inverses, Fresh, Reach, Components, Usable, TenantReady, TenantDurable;
    SameUse(v, w, w.(pass := Snapped(w.refs, w.series.rows, w.dict.rows)));
  }

  lemma UsableIsRoot(v: Values, w: World, live: set<nat>, templates: set<nat>)
    requires w.pass.Snapped?
    ensures Usable(v, w) <= Roots(v, w, live, templates)
  {
  }

  /** The key of every series that stays is spelled out of roots. */
  lemma MarkKeepsNames(v: Values, w: World, live: set<nat>, templates: set<nat>, s: nat)
    requires w.pass.Snapped? && Sound(w.dict, w.reg) && Held(w) && SnappedOk(v, w)
    requires Complete(v, w.dict.rows, w.series.rows)
    requires s in w.series.rows && (s !in w.pass.series || s in live)
    ensures Reach(v, w.dict.rows, w.series.rows[s]) <= Roots(v, w, live, templates)
  {
    hide Components, Inverses, Usable, Named;
    var k := w.series.rows[s];
    if s in w.pass.series {
      NamedIsReached(v, w.pass.dict, k);
      ReachAgrees(v, w.pass.dict, w.dict.rows, k);
      assert Reach(v, w.pass.dict, k) <= ReachAll(v, w.pass.dict, w.pass.series, live);
    } else {
      NamedIsReached(v, w.dict.rows, k);
      ReachAgrees(v, w.dict.rows, w.reg.keys, k);
      assert KeyUsable(v, w, k);
      UsableIsRoot(v, w, live, templates);
    }
  }

  /** The tenant of every dictionary row that stays is a root or the tenant of a root. */
  lemma MarkKeepsTenants(v: Values, w: World, live: set<nat>, templates: set<nat>, id: nat)
    requires w.pass.Snapped? && Sound(w.dict, w.reg) && Held(w) && SnappedOk(v, w)
    requires Complete(v, w.dict.rows, w.series.rows)
    requires id in w.dict.rows
    requires
      var roots := Roots(v, w, live, templates);
      id !in w.pass.dict.Keys - (roots + Tenants(v, w.pass.dict, roots))
    ensures
      var roots := Roots(v, w, live, templates);
      v.tenant(w.dict.rows[id]) !in w.pass.dict.Keys - (roots + Tenants(v, w.pass.dict, roots))
  {
    hide Components, Inverses, Usable, Named, Reach, ReachAll, Roots;
    var roots := Roots(v, w, live, templates);
    if id !in w.pass.dict {
      assert TenantReady(v, w, w.dict.rows[id]);
      UsableIsRoot(v, w, live, templates);
    } else if id !in roots {
      var r :| r in roots && r in w.pass.dict && v.tenant(w.pass.dict[r]) == id;
      assert TenantDurable(v, w.dict.rows, w.dict.rows[r]);
    }
  }

  lemma MarkKeeps(v: Values, w: World, active: set<nat>, templates: set<nat>)
    requires Inv(v, w) && Enabled(v, w, Mark(active, templates))
    ensures Inv(v, w.(pass := MarkPhase(v, w, active, templates)))
  {
    hide Inverses, Fresh, Components, Usable, TenantReady, TenantDurable, Reach, ReachAll, Tenants, Sentinels,
         KeyUsable, PartsUsable, TenantsUsable, KeysUsable, SnappedOk;
    var n := w.(pass := MarkPhase(v, w, active, templates));
    var live := w.pass.refs + w.ser.pending + w.ser.touched + active;
    SameUse(v, w, n);
    CommitKeepsClosed(v, w, n);
    SnappedBasics(v, w);
    forall s | s in n.series.rows && s !in n.pass.unused ensures Rescued(n, Reach(v, n.dict.rows, n.series.rows[s])) {
      MarkKeepsNames(v, w, live, templates, s);
    }
    forall id | id in n.dict.rows && id !in n.pass.unnamed ensures Rescued(n, {v.tenant(n.dict.rows[id])}) {
      MarkKeepsTenants(v, w, live, templates, id);
    }
  }

  lemma SnappedBasics(v: Values, w: World)
    requires w.pass.Snapped? && SnappedOk(v, w)
    ensures SubMap(w.pass.dict, w.dict.rows) && SubMap(w.pass.series, w.series.rows)
    ensures w.refs <= w.pass.refs + w.ser.touched
  {
  }

  /** The series that came back name only what came back with them. */
  lemma BackIsRescued(v: Values, w: World, s: nat)
    requires w.pass.Marked? && Sound(w.dict, w.reg) && Sound(w.series, w.ser) && Held(w) && KeysUsable(v, w)
    requires MarkedOk(v, w) && Complete(v, w.dict.rows, w.series.rows)
    requires s in w.series.rows && s in w.ser.pending + w.ser.touched
    ensures Rescued(w, Reach(v, w.dict.rows, w.series.rows[s]))
  {
    hide Components, Inverses, Usable, Named;
    var k := w.series.rows[s];
    NamedIsReached(v, w.dict.rows, k);
    ReachAgrees(v, w.dict.rows, w.reg.keys, k);
    assert KeyUsable(v, w, w.ser.keys[s]);
    UsableIsRescued(v, w, Reach(v, w.reg.keys, k));
  }

  lemma TouchedTenant(v: Values, w: World, id: nat)
    requires w.pass.Marked? && InStep(w.dict, w.reg) && TenantsUsable(v, w) && MarkedOk(v, w) && Fresh(w.dict, w.reg)
    requires id in w.dict.rows && id in w.reg.touched
    ensures Rescued(w, {v.tenant(w.dict.rows[id])})
  {
    hide Components, Inverses, Usable, Named;
    assert TenantReady(v, w, w.reg.keys[id]);
    var t := v.tenant(w.dict.rows[id]);
    if t != 0 { UsableIsRescued(v, w, {t}); }
  }

  lemma FencedNames(v: Values, w: World, s: nat)
    requires Inv(v, w) && w.pass.Marked? && s in w.series.rows && s !in Fenced(v, w).pass.doomedSeries
    ensures Reach(v, w.dict.rows, w.series.rows[s]) !! Fenced(v, w).pass.doomed
  {
    hide Components, Inverses, Usable, Named, Sentinels, ReachAll, Reach;
    if s in w.pass.unused { BackIsRescued(v, w, s); }
    assert Rescued(w, Reach(v, w.dict.rows, w.series.rows[s]));
  }

  lemma RenamedIsTouched(v: Values, w: World, id: nat)
    requires Inv(v, w) && w.pass.Marked? && id in w.pass.unnamed
    requires id in ReachAll(v, w.pass.values, w.pass.unused, w.ser.pending + w.ser.touched)
    ensures id in w.reg.touched
  {
    hide Components, Inverses, Usable, Named, Sentinels;
    var s :| s in w.pass.unused && s in w.ser.pending + w.ser.touched && id in Reach(v, w.pass.values, w.pass.unused[s]);
    assert id in Reach(v, w.dict.rows, w.series.rows[s]);
    BackIsRescued(v, w, s);
  }

  lemma FencedTenants(v: Values, w: World, id: nat)
    requires Inv(v, w) && w.pass.Marked? && id in w.dict.rows && id !in Fenced(v, w).pass.doomed
    ensures v.tenant(w.dict.rows[id]) !in Fenced(v, w).pass.doomed
  {
    hide Components, Inverses, Usable, Named, Sentinels, ReachAll, Reach;
    if id in w.pass.unnamed {
      if id in ReachAll(v, w.pass.values, w.pass.unused, w.ser.pending + w.ser.touched) { RenamedIsTouched(v, w, id); }
      TouchedTenant(v, w, id);
    }
    assert Rescued(w, {v.tenant(w.dict.rows[id])});
  }

  lemma FencedKeeps(v: Values, w: World)
    requires Inv(v, w) && Enabled(v, w, BeginSweep)
    ensures Inv(v, Fenced(v, w))
  {
    hide Inverses, Fresh, Components, Usable, TenantReady, TenantDurable, Reach, ReachAll, Tenants,
         KeyUsable, PartsUsable, TenantsUsable, KeysUsable;
    var n := Fenced(v, w);
    CommitKeepsClosed(v, w, n);
    forall s | s in n.series.rows && s !in n.pass.doomedSeries
      ensures Reach(v, n.dict.rows, n.series.rows[s]) !! n.pass.doomed
    {
      FencedNames(v, w, s);
    }
    forall id | id in n.dict.rows && id !in n.pass.doomed ensures v.tenant(n.dict.rows[id]) !in n.pass.doomed {
      FencedTenants(v, w, id);
    }
  }

  /** Nothing usable is swept. */
  lemma SweptKeepsUse(v: Values, w: World)
    requires w.pass.Sweeping? && SweepingOk(v, w)
    ensures Usable(v, Swept(w)) == Usable(v, w)
    ensures forall k :: KeyUsable(v, w, k) ==> KeyUsable(v, Swept(w), k)
    ensures forall x :: TenantReady(v, w, x) ==> TenantReady(v, Swept(w), x)
  {
    var n := Swept(w);
    assert n.cached == w.cached;
    forall id | id in Sentinels(v, w.reg.keys) ensures id in n.reg.keys {
      assert id !in w.pass.doomed;
    }
    forall id | id in Sentinels(v, n.reg.keys) ensures id in Sentinels(v, w.reg.keys) {
      assert n.reg.keys[id] == w.reg.keys[id];
    }
    assert Sentinels(v, n.reg.keys) == Sentinels(v, w.reg.keys);
  }

  lemma SweptKeepsClosed(v: Values, w: World)
    requires Inv(v, w) && w.pass.Sweeping?
    ensures Closed(v, Swept(w))
  {
    hide Inverses, Fresh, Complete, Components, Usable, KeyUsable, TenantReady, Sentinels;
    SweptKeepsUse(v, w);
  }

  lemma SweptKeepsComplete(v: Values, w: World)
    requires Inv(v, w) && w.pass.Sweeping?
    ensures Complete(v, Swept(w).dict.rows, Swept(w).series.rows)
  {
    hide Inverses, Closed, Components, Named;
    var n := Swept(w);
    forall s | s in n.series.rows ensures Reach(v, n.dict.rows, n.series.rows[s]) <= n.dict.rows.Keys {
      assert Reach(v, w.dict.rows, w.series.rows[s]) <= w.dict.rows.Keys;
    }
    forall id | id in n.dict.rows ensures TenantDurable(v, n.dict.rows, n.dict.rows[id]) {
      assert TenantDurable(v, w.dict.rows, w.dict.rows[id]);
    }
  }

  lemma SweptKeeps(v: Values, w: World)
    requires Inv(v, w) && w.pass.Sweeping?
    ensures Inv(v, Swept(w))
  {
    hide Inverses, Fresh, InStep, Closed, Complete, Reach, Sentinels;
    ForgetKeeps(w.dict, w.reg, w.pass.doomed);
    ForgetKeeps(w.series, w.ser, w.pass.doomedSeries);
    SweptKeepsClosed(v, w);
    SweptKeepsComplete(v, w);
  }

  lemma SweepFailsKeeps(v: Values, w: World)
    requires Inv(v, w) && w.pass.Sweeping?
    ensures Inv(v, w.(fenced := {}, pass := Idle))
  {
    hide Inverses, Fresh, InStep, Complete, Reach, Sentinels, KeyUsable, PartsUsable, TenantsUsable, KeysUsable, Usable;
    CommitKeepsClosed(v, w, w.(fenced := {}, pass := Idle));
  }

  lemma RestartedKeeps(v: Values, w: World)
    requires Inv(v, w)
    ensures Inv(v, Restarted(w))
  {
    hide Inverses, Fresh, InStep, Complete, Reach, Sentinels, Usable;
    WarmKeeps(w.dict, w.reg);
    WarmKeeps(w.series, w.ser);
  }

  // ---------------------------------------------------------------------------------------
  // Whole runs.

  lemma StepKeepsInv(v: Values, w: World, e: Event)
    requires Inv(v, w) && Enabled(v, w, e)
    ensures Inv(v, Next(v, w, e))
  {
    hide Inv, Usable, Given, Resolved, Committed, MarkPhase, Fenced, Swept, Restarted, Named, Components, TenantReady;
    match e {
      case Register(x) =>
        if !(x in w.reg.ids && w.reg.ids[x] in w.fenced) { GivenKeeps(v, w, x); }
      case OtherID(x) =>
        if x in w.reg.ids { SentinelsAreOpen(v, w, x); }
        SentinelHasNoParts(v, w, x);
        GivenKeeps(v, w, x);
      case CacheStore(id) => CacheStoreKeeps(v, w, id);
      case Reduce(k) => ReduceKeeps(v, w, k);
      case Discard(k) => LossKeeps(v, w, w.flight - {k}, w.refs, w.batch);
      case Resolve(k) => ResolvedKeeps(v, w, k);
      case Commit(lands) => if lands { CommittedKeeps(v, w); } else { LossKeeps(v, w, w.flight, w.refs, {}); }
      case Retire(id) => LossKeeps(v, w, w.flight, w.refs - {id}, w.batch);
      case Snapshot => SnapshotKeeps(v, w);
      case Mark(active, templates) => MarkKeeps(v, w, active, templates);
      case BeginSweep => FencedKeeps(v, w);
      case SweepLands => SweptKeeps(v, w);
      case SweepFails => SweepFailsKeeps(v, w);
      case Restart => RestartedKeeps(v, w);
    }
  }

  lemma SentinelHasNoParts(v: Values, w: World, x: nat)
    requires v.sentinel(x)
    ensures Components(v, x) <= Usable(v, w)
  {
  }

  function Start(): World {
    World(Table(map[], 0, map[]), Table(map[], 0, map[]), {}, Registry(map[], map[], {}, {}, 1),
          Registry(map[], map[], {}, {}, 1), {}, {}, {}, {}, {}, Idle)
  }

  /** Worlds joined by the events between them, from an empty store. */
  ghost predicate IsRun(v: Values, ws: seq<World>, es: seq<Event>) {
    && |ws| == |es| + 1 && ws[0] == Start()
    && forall i :: 0 <= i < |es| ==> Enabled(v, ws[i], es[i]) && ws[i + 1] == Next(v, ws[i], es[i])
  }

  lemma {:induction false} RunKeepsInv(v: Values, ws: seq<World>, es: seq<Event>, i: nat)
    requires IsRun(v, ws, es) && i < |ws|
    ensures Inv(v, ws[i])
  {
    hide Inv, Enabled, Next;
    if i == 0 {
      StartIsSound(v);
    } else {
      RunKeepsInv(v, ws, es, i - 1);
      StepKeepsInv(v, ws[i - 1], es[i - 1]);
    }
  }

  lemma StartIsSound(v: Values)
    ensures Inv(v, Start())
  {
  }

  /** After every step of every run, each series that a delta, bucket or baseline names has its
      row; each ID that a series row names, down to the parts of its dimension tuple, has its row;
      and each dictionary row has its tenant's. */
  lemma CollectionIsSafe(v: Values, ws: seq<World>, es: seq<Event>, i: nat)
    requires IsRun(v, ws, es) && i < |ws|
    ensures ws[i].refs <= ws[i].series.rows.Keys
    ensures forall s, id :: s in ws[i].series.rows && id in Reach(v, ws[i].dict.rows, ws[i].series.rows[s])
              ==> id in ws[i].dict.rows
    ensures forall id :: id in ws[i].dict.rows ==>
              v.tenant(ws[i].dict.rows[id]) == 0 || v.tenant(ws[i].dict.rows[id]) in ws[i].dict.rows
  {
    RunKeepsInv(v, ws, es, i);
    hide Closed, PassOk, Reach, Sound;
    forall id | id in ws[i].dict.rows
      ensures v.tenant(ws[i].dict.rows[id]) == 0 || v.tenant(ws[i].dict.rows[id]) in ws[i].dict.rows
    {
      assert TenantDurable(v, ws[i].dict.rows, ws[i].dict.rows[id]);
    }
  }

  /** In every reachable world the ID and value maps undo each other and hold exactly the durable
      and the staged rows. */
  lemma MapsMirrorTheStore(v: Values, ws: seq<World>, es: seq<Event>, i: nat)
    requires IsRun(v, ws, es) && i < |ws|
    ensures Inverses(ws[i].reg.ids, ws[i].reg.keys) && Inverses(ws[i].ser.ids, ws[i].ser.keys)
    ensures ws[i].reg.keys.Keys == ws[i].dict.rows.Keys + ws[i].reg.pending
    ensures ws[i].ser.keys.Keys == ws[i].series.rows.Keys + ws[i].ser.pending
  {
    RunKeepsInv(v, ws, es, i);
    hide Inverses, Fresh, Closed, Complete, PassOk;
  }

  /** A sweep deletes nothing that is cached, handed out, staged, a sentinel or spelled out in a
      key on its way to a commit. */
  lemma SweepSparesWhatIsInUse(v: Values, ws: seq<World>, es: seq<Event>, i: nat, id: nat)
    requires IsRun(v, ws, es) && i < |es| && es[i].SweepLands?
    requires id in ws[i].dict.rows && id !in ws[i + 1].dict.rows
    ensures id !in ws[i].cached + ws[i].handed + ws[i].reg.pending + ws[i].reg.touched + Sentinels(v, ws[i].reg.keys)
    ensures forall k :: k in ws[i].flight ==> id !in Reach(v, ws[i].reg.keys, k)
    ensures forall s :: s in ws[i].refs ==> s in ws[i + 1].series.rows
  {
    RunKeepsInv(v, ws, es, i);
    hide Complete, Sound, Reach, PartsUsable, TenantsUsable;
    assert id in ws[i].pass.doomed;
    forall k | k in ws[i].flight ensures id !in Reach(v, ws[i].reg.keys, k) {
      assert KeyUsable(v, ws[i], k);
    }
  }

  lemma LandedHistory(w: World)
    requires Sound(w.dict, w.reg) && Sound(w.series, w.ser)
    ensures SubMap(w.dict.ever, Committed(w).dict.ever) && SubMap(w.series.ever, Committed(w).series.ever)
  {
    LandKeeps(w.dict, w.reg);
    LandKeeps(w.series, w.ser);
  }

  lemma StepKeepsHistory(v: Values, w: World, e: Event)
    requires Inv(v, w) && Enabled(v, w, e)
    ensures SubMap(w.dict.ever, Next(v, w, e).dict.ever) && SubMap(w.series.ever, Next(v, w, e).series.ever)
  {
    hide Sound, Closed, Complete, PassOk, Held, MarkPhase, Committed, Usable, Components, Named;
    if e.Commit? { LandedHistory(w); }
  }

  lemma {:induction false} HistoryGrows(v: Values, ws: seq<World>, es: seq<Event>, i: nat, j: nat)
    requires IsRun(v, ws, es) && i <= j < |ws|
    ensures SubMap(ws[i].dict.ever, ws[j].dict.ever) && SubMap(ws[i].series.ever, ws[j].series.ever)
    decreases j
  {
    hide Inv, Enabled, Next;
    if i < j {
      HistoryGrows(v, ws, es, i, j - 1);
      RunKeepsInv(v, ws, es, j - 1);
      StepKeepsHistory(v, ws[j - 1], es[j - 1]);
    }
  }

  /** Whatever is swept, failed or restarted in between, an ID that was durable for one value is
      never durable for another. */
  lemma AnIDNamesOneValue(v: Values, ws: seq<World>, es: seq<Event>, i: nat, j: nat, id: nat)
    requires IsRun(v, ws, es) && i < |ws| && j < |ws|
    ensures id in ws[i].dict.rows && id in ws[j].dict.rows ==> ws[i].dict.rows[id] == ws[j].dict.rows[id]
    ensures id in ws[i].series.rows && id in ws[j].series.rows ==> ws[i].series.rows[id] == ws[j].series.rows[id]
  {
    RunKeepsInv(v, ws, es, i);
    RunKeepsInv(v, ws, es, j);
    hide InStep, Closed, Complete, PassOk, Held, IsRun;
    if i <= j { HistoryGrows(v, ws, es, i, j); } else { HistoryGrows(v, ws, es, j, i); }
  }

  // ---------------------------------------------------------------------------------------
  // Ingest beside a collection.

  /** What goes on while the collector, which runs on the writer, is inside its barrier. */
  predicate Ingest(e: Event) {
    e.Register? || e.OtherID? || e.CacheStore? || e.Reduce? || e.Discard? || e.Retire?
  }

  /** The value whose ID an event asks for. */
  function Asked(e: Event): set<nat> {
    match e
    case Register(x) => {x}
    case OtherID(x) => {x}
    case _ => {}
  }

  function AskedFor(es: seq<Event>): set<nat> {
    if es == [] then {} else AskedFor(es[..|es| - 1]) + Asked(es[|es| - 1])
  }

  /** Worlds joined by ingest events. */
  ghost predicate Beside(v: Values, ws: seq<World>, es: seq<Event>) {
    && |ws| == |es| + 1
    && forall i :: 0 <= i < |es| ==> Ingest(es[i]) && Enabled(v, ws[i], es[i]) && ws[i + 1] == Next(v, ws[i], es[i])
  }

  /** Ingest that asked for the IDs of xs: nothing is lost or changed, and all that is new is what
      it asked for. */
  ghost predicate Kept(w: World, n: World, xs: set<nat>) {
    && n.dict == w.dict && n.series == w.series && n.ser == w.ser && n.refs <= w.refs
    && n.batch == w.batch && n.pass == w.pass && n.fenced == w.fenced
    && SubMap(w.reg.ids, n.reg.ids) && SubMap(w.reg.keys, n.reg.keys) && w.cached <= n.cached && w.handed <= n.handed
    && n.reg.ids.Keys <= w.reg.ids.Keys + xs
    && KeptUse(w, n, xs)
  }

  /** What came into use is what was asked for and not fenced. */
  ghost predicate KeptUse(w: World, n: World, xs: set<nat>) {
    && (forall id :: id in n.cached + n.handed ==> id in w.cached + w.handed || id in n.reg.touched)
    && (forall id :: id in n.reg.touched ==> id in w.reg.touched || (id in n.reg.keys && n.reg.keys[id] in xs))
    && (forall x :: x in xs && x in w.reg.ids && w.reg.ids[x] !in w.fenced ==> w.reg.ids[x] in n.handed)
  }

  lemma IngestKeeps(v: Values, w: World, n: World, xs: set<nat>, e: Event)
    requires Inv(v, n) && Kept(w, n, xs) && Ingest(e) && Enabled(v, n, e)
    ensures Kept(w, Next(v, n, e), xs + Asked(e))
  {
    hide Inverses, Closed, Complete, PassOk, Held, Usable, Components, TenantReady, Named, Given;
    assert xs + {} == xs;
    match e {
      case Register(x) =>
        if !(x in n.reg.ids && n.reg.ids[x] in n.fenced) { AskKeeps(v, w, n, xs, x); }
      case OtherID(x) =>
        if x in n.reg.ids { SentinelsAreOpen(v, n, x); }
        AskKeeps(v, w, n, xs, x);
      case _ =>
    }
  }

  lemma AskKeeps(v: Values, w: World, n: World, xs: set<nat>, x: nat)
    requires Inv(v, n) && Kept(w, n, xs) && (x in n.reg.ids ==> n.reg.ids[x] !in n.fenced)
    ensures Kept(w, Given(n, x), xs + {x})
  {
    hide Closed, Complete, PassOk, Held;
  }

  lemma {:induction false} BesideKeeps(v: Values, ws: seq<World>, es: seq<Event>, k: nat)
    requires Beside(v, ws, es) && k < |ws| && Inv(v, ws[0])
    ensures Inv(v, ws[k]) && Kept(ws[0], ws[k], AskedFor(es[..k]))
  {
    hide Inv, Enabled, Next, Kept;
    if k == 0 {
      NothingAsked(ws[0]);
    } else {
      BesideKeeps(v, ws, es, k - 1);
      StepKeepsInv(v, ws[k - 1], es[k - 1]);
      IngestKeeps(v, ws[0], ws[k - 1], AskedFor(es[..k - 1]), es[k - 1]);
      assert es[..k][..k - 1] == es[..k - 1];
    }
  }

  lemma NothingAsked(w: World)
    ensures Kept(w, w, {})
  {
  }

  /** Whatever is ingested while a sweep is under way, when the sweep fails every durable row and
      every map entry from before the barrier is still there with its value, every ID can be given
      out again, and all that differs is what ingest asked for and what retention dropped. */
  lemma FailedSweepRestores(v: Values, w: World, ws: seq<World>, es: seq<Event>)
    requires Inv(v, w) && Enabled(v, w, BeginSweep)
    requires Beside(v, ws, es) && ws[0] == Next(v, w, BeginSweep)
    ensures Enabled(v, ws[|es|], SweepFails)
    ensures var n := Next(v, ws[|es|], SweepFails);
            && n.dict == w.dict && n.series == w.series && n.ser == w.ser && n.refs <= w.refs
            && SubMap(w.reg.ids, n.reg.ids) && SubMap(w.reg.keys, n.reg.keys)
            && w.cached <= n.cached && w.handed <= n.handed
            && n.fenced == {} && n.pass == Idle
            && n.reg.ids.Keys <= w.reg.ids.Keys + AskedFor(es)
            && forall x :: x in w.reg.ids ==> w.reg.ids[x] in Given(n, x).handed
  {
    hide Inv, Fenced, Beside, AskedFor, KeptUse, Given;
    StepKeepsInv(v, w, BeginSweep);
    FirstWorld(v, ws, es);
    BesideKeeps(v, ws, es, |es|);
    FenceOnly(v, w);
    assert es[..|es|] == es;
    var n := Next(v, ws[|es|], SweepFails);
    forall x | x in w.reg.ids ensures w.reg.ids[x] in Given(n, x).handed { HandsOut(n, x); }
  }

  lemma FirstWorld(v: Values, ws: seq<World>, es: seq<Event>)
    requires Beside(v, ws, es)
    ensures |ws| == |es| + 1
  {
  }

  lemma HandsOut(w: World, x: nat)
    requires x in w.reg.ids
    ensures w.reg.ids[x] in Given(w, x).handed
  {
  }

  lemma FenceOnly(v: Values, w: World)
    requires w.pass.Marked?
    ensures var n := Fenced(v, w);
            && n == w.(fenced := n.fenced, pass := n.pass)
            && n.pass.Sweeping? && n.fenced == n.pass.doomed
            && n.pass.doomed <= w.pass.unnamed && n.pass.doomed !! w.reg.touched
  {
    hide ReachAll, Sentinels;
  }

  /** The candidates checked in one world and fenced in a later one. */
  function FencedLate(v: Values, checked: World, later: World): World
    requires checked.pass.Marked?
  {
    var pass := Fenced(v, checked).pass;
    later.(fenced := pass.doomed, pass := pass)
  }

  /** Were checking the candidates and fencing them two steps, with ingest between: an ID that is
      cached or handed out is fenced exactly when ingest asked for a candidate in between, and the
      sweep deletes its row. */
  lemma SplitFenceExactly(v: Values, ws: seq<World>, es: seq<Event>)
    requires Beside(v, ws, es) && Inv(v, ws[0]) && Enabled(v, ws[0], BeginSweep)
    ensures var n, doomed := FencedLate(v, ws[0], ws[|es|]), Fenced(v, ws[0]).pass.doomed;
            && n.fenced == doomed && n.pass.Sweeping?
            && (n.fenced !! n.cached + n.handed
                <==> forall x :: x in AskedFor(es) && x in ws[0].reg.ids ==> ws[0].reg.ids[x] !in doomed)
            && forall id :: id in n.fenced * n.handed ==> id in Swept(n).handed && id !in Swept(n).dict.rows
  {
    var w, n := ws[0], FencedLate(v, ws[0], ws[|es|]);
    BesideKeeps(v, ws, es, |es|);
    assert es[..|es|] == es;
    FenceOnly(v, w);
    CandidatesAreIdle(v, w);
    hide Inv, Fenced, Beside, Swept, AskedFor;
    SweptForgets(n);
    var doomed := n.fenced;
    forall id | id in doomed && id in n.cached + n.handed
      ensures id in n.reg.keys && n.reg.keys[id] in AskedFor(es) && n.reg.keys[id] in w.reg.ids && w.reg.ids[n.reg.keys[id]] == id
    {
      assert id in n.reg.touched && id !in w.reg.touched;
      assert id in w.reg.keys && w.reg.ids[w.reg.keys[id]] == id;
    }
  }

  lemma SweptForgets(n: World)
    requires n.pass.Sweeping?
    ensures Swept(n).handed == n.handed && Swept(n).dict.rows == n.dict.rows - n.pass.doomed
  {
  }

  /** No candidate that survives the check is in anyone's hands, and the maps know them all. */
  lemma CandidatesAreIdle(v: Values, w: World)
    requires Inv(v, w) && Enabled(v, w, BeginSweep)
    ensures var doomed := Fenced(v, w).pass.doomed;
            && doomed !! w.cached + w.handed && doomed <= w.reg.keys.Keys && w.fenced == {}
            && forall id :: id in w.reg.keys ==> w.reg.keys[id] in w.reg.ids && w.reg.ids[w.reg.keys[id]] == id
  {
    hide Closed, Complete, Fenced, Sentinels, Reach, Rescued, ReachAll;
    FenceOnly(v, w);
  }

  /** As one step it spares whatever was handed out before it. */
  lemma FenceAfterHandOut(v: Values, w: World, x: nat)
    requires Inv(v, w) && w.pass.Marked?
    ensures var n := Given(w, x);
            && n.reg.ids[x] in n.handed && n.reg.ids[x] !in Fenced(v, n).fenced
            && (x in w.reg.ids ==> n.reg.ids[x] == w.reg.ids[x])
            && (x in w.reg.ids && w.reg.ids[x] in Fenced(v, w).fenced ==> n.reg.ids[x] in FencedLate(v, w, n).fenced)
  {
    hide Inv, ReachAll, Sentinels;
  }
}
