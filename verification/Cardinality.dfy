/**
 The cardinality census as a value: which series are active in which mutable windows, which of
 them are reserve (overflow) series, and the names each service scope holds. The counters the
 caps are compared with are cardinalities of these sets.
 */
module Cardinality {
  import opened Sets

  datatype Signal = Unspecified | TraceOp | ServiceEdge | Log | Metric

  datatype SeriesKey = SeriesKey(tenant: nat, service: nat, name: nat, dims: nat, signal: Signal,
                                 status: nat, http: nat, httpMethod: nat, variant: nat)

  datatype Scope = Scope(tenant: nat, service: nat, signal: Signal)

  datatype Reason = NoOverflow | TenantFull | ServiceNames | ServiceSeries | SignalFull | GlobalFull

  /** A positive cap binds; any other value disables it. otherName is the dictionary's reserve
      name for a tenant and a signal. */
  datatype Config = Config(maxSeries: int, maxMetrics: int, maxTraces: int, maxEdges: int, maxLogs: int,
                           maxSystem: int, maxOperations: int, maxTemplates: int, maxTraceSeries: int,
                           maxMetricSeries: int, tenantFraction: real, otherName: (nat, Signal) -> nat)

  datatype Admission = Admission(key: SeriesKey, reason: Reason, reserved: bool)

  const OTHER_METHOD: nat := 255

  function ScopeOf(k: SeriesKey): Scope { Scope(k.tenant, k.service, k.signal) }

  function NameCap(c: Config, s: Signal): int {
    match s
    case TraceOp => c.maxOperations
    case ServiceEdge => c.maxOperations
    case Log => c.maxTemplates
    case _ => 0
  }

  function SeriesCap(c: Config, s: Signal): int {
    match s
    case TraceOp => c.maxTraceSeries
    case ServiceEdge => c.maxTraceSeries
    case Metric => c.maxMetricSeries
    case _ => 0
  }

  function SignalCap(c: Config, s: Signal): int {
    match s
    case TraceOp => c.maxTraces
    case ServiceEdge => c.maxEdges
    case Log => c.maxLogs
    case Metric => c.maxMetrics
    case Unspecified => c.maxSystem
  }

  /** The tenant's share of the global budget, at least one series; 0 when it does not apply. */
  function TenantCap(c: Config): int {
    if c.tenantFraction <= 0.0 then 0
    else
      var limit := (c.tenantFraction * c.maxSeries as real).Floor;
      if limit < 1 then 1 else limit
  }

  /** The reserve series of a key: its tenant, service, signal and status survive. */
  function OverflowKey(c: Config, k: SeriesKey): SeriesKey {
    SeriesKey(k.tenant, k.service, c.otherName(k.tenant, k.signal), 0, k.signal, k.status, 0,
              if k.signal == TraceOp || k.signal == ServiceEdge then OTHER_METHOD else 0, 0)
  }

  // ---------------------------------------------------------------------------------------
  // The census.

  /** held maps each active series to the windows it is present in. */
  datatype Census = Census(held: map<SeriesKey, set<int>>, overflow: set<SeriesKey>, names: map<Scope, set<nat>>)

  const EMPTY_CENSUS := Census(map[], {}, map[])

  predicate Present(c: Census, k: SeriesKey, w: int) { k in c.held && w in c.held[k] }

  function Windows(c: Census, k: SeriesKey): set<int> { if k in c.held then c.held[k] else {} }

  function Names(c: Census, s: Scope): set<nat> { if s in c.names then c.names[s] else {} }

  /** The active series that are charged against the budget. */
  function Charged(c: Census): set<SeriesKey> { c.held.Keys - c.overflow }

  function OfSignal(keys: set<SeriesKey>, s: Signal): set<SeriesKey> { set k | k in keys && k.signal == s }

  function OfScope(keys: set<SeriesKey>, s: Scope): set<SeriesKey> { set k | k in keys && ScopeOf(k) == s }

  function OfTenant(keys: set<SeriesKey>, t: nat): set<SeriesKey> { set k | k in keys && k.tenant == t }

  // ---------------------------------------------------------------------------------------
  // Admission and release.

  /** The first cap the series would exceed, in the fixed order of enforcement. */
  function Check(cfg: Config, c: Census, k: SeriesKey): Reason {
    var scope := ScopeOf(k);
    if TenantCap(cfg) > 0 && |OfTenant(Charged(c), k.tenant)| >= TenantCap(cfg) then TenantFull
    else if NameCap(cfg, k.signal) > 0 && |Names(c, scope)| >= NameCap(cfg, k.signal) && k.name !in Names(c, scope) then
      ServiceNames
    else if SeriesCap(cfg, k.signal) > 0 && |OfScope(Charged(c), scope)| >= SeriesCap(cfg, k.signal) then ServiceSeries
    else if SignalCap(cfg, k.signal) > 0 && |OfSignal(Charged(c), k.signal)| >= SignalCap(cfg, k.signal) then SignalFull
    else if cfg.maxSeries > 0 && |Charged(c)| >= cfg.maxSeries then GlobalFull
    else NoOverflow
  }

  function Hold(c: Census, k: SeriesKey, w: int): Census { c.(held := c.held[k := Windows(c, k) + {w}]) }

  /** The series becomes present in the window; its first window charges it or, for a reserve
      series, records it in the reserve. */
  function AddSeries(cfg: Config, c: Census, k: SeriesKey, w: int, reserve: bool): Census {
    if k in c.held then Hold(c, k, w)
    else if reserve then Hold(c, k, w).(overflow := c.overflow + {k})
    else if NameCap(cfg, k.signal) > 0 then
      Hold(c, k, w).(names := c.names[ScopeOf(k) := Names(c, ScopeOf(k)) + {k.name}])
    else Hold(c, k, w)
  }

  /** Which series a key is recorded under, and why. */
  function Route(cfg: Config, c: Census, k: SeriesKey, w: int): Admission {
    if Present(c, k, w) then Admission(k, NoOverflow, false)
    else if k in c.held then Admission(k, NoOverflow, true)
    else
      var reason := Check(cfg, c, k);
      if reason == NoOverflow then Admission(k, NoOverflow, true)
      else Admission(OverflowKey(cfg, k), reason, !Present(c, OverflowKey(cfg, k), w))
  }

  function Admit(cfg: Config, c: Census, k: SeriesKey, w: int): Census {
    var a := Route(cfg, c, k, w);
    if a.reserved then AddSeries(cfg, c, a.key, w, a.reason != NoOverflow) else c
  }

  function DropName(names: map<Scope, set<nat>>, s: Scope, n: nat): map<Scope, set<nat>> {
    if s !in names then names
    else if names[s] - {n} == {} then names - {s}
    else names[s := names[s] - {n}]
  }

  /** The series leaves the window; its last window gives back what its first one charged. */
  function Release(c: Census, k: SeriesKey, w: int): Census {
    if !Present(c, k, w) then c
    else if c.held[k] - {w} != {} then c.(held := c.held[k := c.held[k] - {w}])
    else if k in c.overflow then c.(held := c.held - {k}, overflow := c.overflow - {k})
    else c.(held := c.held - {k}, names := DropName(c.names, ScopeOf(k), k.name))
  }

  // ---------------------------------------------------------------------------------------
  // What holds in every reachable state.

  /** The windows of an active series are never empty, and the reserve is active. */
  ghost predicate Consistent(c: Census) {
    && (forall k :: k in c.held ==> c.held[k] != {})
    && c.overflow <= c.held.Keys
  }

  /** A remembered name belongs to a charged series of its scope. */
  ghost predicate NamesActive(c: Census) {
    forall s, n :: s in c.names && n in c.names[s] ==> exists k :: k in Charged(c) && ScopeOf(k) == s && k.name == n
  }

  predicate Below(cap: int, count: nat) { cap > 0 ==> count <= cap }

  /** No positive cap is exceeded by the charged series it counts. */
  ghost predicate SignalsWithin(cfg: Config, keys: set<SeriesKey>) {
    forall s :: Below(SignalCap(cfg, s), |OfSignal(keys, s)|)
  }

  ghost predicate ScopesWithin(cfg: Config, keys: set<SeriesKey>) {
    forall s: Scope :: Below(SeriesCap(cfg, s.signal), |OfScope(keys, s)|)
  }

  ghost predicate TenantsWithin(cfg: Config, keys: set<SeriesKey>) {
    forall t :: Below(TenantCap(cfg), |OfTenant(keys, t)|)
  }

  ghost predicate NamesWithin(cfg: Config, c: Census) {
    forall s: Scope :: Below(NameCap(cfg, s.signal), |Names(c, s)|)
  }

  ghost predicate KeysWithin(cfg: Config, keys: set<SeriesKey>) {
    Below(cfg.maxSeries, |keys|) && SignalsWithin(cfg, keys) && ScopesWithin(cfg, keys) && TenantsWithin(cfg, keys)
  }

  ghost predicate WithinCaps(cfg: Config, c: Census) { KeysWithin(cfg, Charged(c)) && NamesWithin(cfg, c) }

  ghost predicate CensusInv(cfg: Config, c: Census) {
    Consistent(c) && NamesActive(c) && WithinCaps(cfg, c)
  }

  /** Adding a series to a set raises exactly the counts it belongs to. */
  lemma CountsGrow(keys: set<SeriesKey>, k: SeriesKey, s: Signal, p: Scope, t: nat)
    requires k !in keys
    ensures |OfSignal(keys + {k}, s)| == |OfSignal(keys, s)| + if k.signal == s then 1 else 0
    ensures |OfScope(keys + {k}, p)| == |OfScope(keys, p)| + if ScopeOf(k) == p then 1 else 0
    ensures |OfTenant(keys + {k}, t)| == |OfTenant(keys, t)| + if k.tenant == t then 1 else 0
  {
    hide OfSignal, OfScope, OfTenant;
    SignalGrows(keys, k, s);
    ScopeGrows(keys, k, p);
    TenantGrows(keys, k, t);
  }

  lemma SignalGrows(keys: set<SeriesKey>, k: SeriesKey, s: Signal)
    requires k !in keys
    ensures |OfSignal(keys + {k}, s)| == |OfSignal(keys, s)| + if k.signal == s then 1 else 0
  {
    if k.signal == s {
      assert OfSignal(keys + {k}, s) == OfSignal(keys, s) + {k};
    } else {
      assert OfSignal(keys + {k}, s) == OfSignal(keys, s);
    }
  }

  lemma ScopeGrows(keys: set<SeriesKey>, k: SeriesKey, p: Scope)
    requires k !in keys
    ensures |OfScope(keys + {k}, p)| == |OfScope(keys, p)| + if ScopeOf(k) == p then 1 else 0
  {
    if ScopeOf(k) == p {
      assert OfScope(keys + {k}, p) == OfScope(keys, p) + {k};
    } else {
      assert OfScope(keys + {k}, p) == OfScope(keys, p);
    }
  }

  lemma TenantGrows(keys: set<SeriesKey>, k: SeriesKey, t: nat)
    requires k !in keys
    ensures |OfTenant(keys + {k}, t)| == |OfTenant(keys, t)| + if k.tenant == t then 1 else 0
  {
    if k.tenant == t {
      assert OfTenant(keys + {k}, t) == OfTenant(keys, t) + {k};
    } else {
      assert OfTenant(keys + {k}, t) == OfTenant(keys, t);
    }
  }

  /** A series may join a set within the caps when every cap that counts it has room. */
  lemma OneMoreWithin(cfg: Config, keys: set<SeriesKey>, k: SeriesKey)
    requires KeysWithin(cfg, keys) && k !in keys
    requires Below(cfg.maxSeries, |keys| + 1)
    requires Below(SignalCap(cfg, k.signal), |OfSignal(keys, k.signal)| + 1)
    requires Below(SeriesCap(cfg, k.signal), |OfScope(keys, ScopeOf(k))| + 1)
    requires Below(TenantCap(cfg), |OfTenant(keys, k.tenant)| + 1)
    ensures KeysWithin(cfg, keys + {k})
  {
    hide OfSignal, OfScope, OfTenant, SignalCap, SeriesCap, TenantCap;
    forall s ensures Below(SignalCap(cfg, s), |OfSignal(keys + {k}, s)|) {
      assert Below(SignalCap(cfg, s), |OfSignal(keys, s)|);
      CountsGrow(keys, k, s, ScopeOf(k), 0);
    }
    forall p: Scope ensures Below(SeriesCap(cfg, p.signal), |OfScope(keys + {k}, p)|) {
      assert Below(SeriesCap(cfg, p.signal), |OfScope(keys, p)|);
      CountsGrow(keys, k, k.signal, p, 0);
    }
    forall t ensures Below(TenantCap(cfg), |OfTenant(keys + {k}, t)|) {
      assert Below(TenantCap(cfg), |OfTenant(keys, t)|);
      CountsGrow(keys, k, k.signal, ScopeOf(k), t);
    }
  }

  lemma FewerWithin(cfg: Config, few: set<SeriesKey>, many: set<SeriesKey>)
    requires KeysWithin(cfg, many) && few <= many
    ensures KeysWithin(cfg, few)
  {
    hide SignalCap, SeriesCap, TenantCap;
    SubsetSize(few, many);
    forall s ensures Below(SignalCap(cfg, s), |OfSignal(few, s)|) {
      assert Below(SignalCap(cfg, s), |OfSignal(many, s)|);
      SubsetSize(OfSignal(few, s), OfSignal(many, s));
    }
    forall p: Scope ensures Below(SeriesCap(cfg, p.signal), |OfScope(few, p)|) {
      assert Below(SeriesCap(cfg, p.signal), |OfScope(many, p)|);
      SubsetSize(OfScope(few, p), OfScope(many, p));
    }
    forall t ensures Below(TenantCap(cfg), |OfTenant(few, t)|) {
      assert Below(TenantCap(cfg), |OfTenant(many, t)|);
      SubsetSize(OfTenant(few, t), OfTenant(many, t));
    }
  }

  lemma ChargedAfterAdd(cfg: Config, c: Census, k: SeriesKey, w: int, reserve: bool)
    requires Consistent(c)
    ensures var d := AddSeries(cfg, c, k, w, reserve);
            && Present(d, k, w) && Consistent(d)
            && Charged(d) == Charged(c) + if k !in c.held && !reserve then {k} else {}
  {
    var d := AddSeries(cfg, c, k, w, reserve);
    assert d.held.Keys == c.held.Keys + {k};
    if k in c.held {
      assert d.held.Keys == c.held.Keys;
    }
  }

  /** What an admission does to the set of charged series. */
  lemma ChargedAfterAdmit(cfg: Config, c: Census, k: SeriesKey, w: int)
    requires Consistent(c)
    ensures var a, d := Route(cfg, c, k, w), Admit(cfg, c, k, w);
            && Present(d, a.key, w) && Consistent(d)
            && Charged(d) == Charged(c) + if k !in c.held && a.reason == NoOverflow then {k} else {}
  {
    hide Check, OverflowKey, AddSeries, Consistent, Charged;
    var a := Route(cfg, c, k, w);
    ChargedAfterAdd(cfg, c, a.key, w, a.reason != NoOverflow);
    assert Charged(c) + {} == Charged(c);
  }

  /** Which configured cap counts what. System series have a cap of their own and no per-service
      one; operations are counted by name, log templates too, and metrics are not. */
  predicate SignalRoom(cfg: Config, s: Signal, count: nat) {
    && (s == TraceOp ==> Below(cfg.maxTraces, count))
    && (s == ServiceEdge ==> Below(cfg.maxEdges, count))
    && (s == Log ==> Below(cfg.maxLogs, count))
    && (s == Metric ==> Below(cfg.maxMetrics, count))
    && (s == Unspecified ==> Below(cfg.maxSystem, count))
  }

  predicate ServiceRoom(cfg: Config, s: Signal, count: nat) {
    && (s == TraceOp || s == ServiceEdge ==> Below(cfg.maxTraceSeries, count))
    && (s == Metric ==> Below(cfg.maxMetricSeries, count))
  }

  predicate NameRoom(cfg: Config, s: Signal, count: nat) {
    && (s == TraceOp || s == ServiceEdge ==> Below(cfg.maxOperations, count))
    && (s == Log ==> Below(cfg.maxTemplates, count))
  }

  /** A tenant may hold its share of the budget, and one series however small that is. */
  predicate TenantRoom(cfg: Config, count: nat) {
    cfg.tenantFraction > 0.0 && count > 1 ==> count as real <= cfg.tenantFraction * cfg.maxSeries as real
  }

  /** A series is let in under its own key exactly when one more fits under every configured cap
      that counts it. */
  lemma RoomUnderCaps(cfg: Config, c: Census, k: SeriesKey)
    ensures Check(cfg, c, k) == NoOverflow <==>
              && Below(cfg.maxSeries, |Charged(c)| + 1)
              && SignalRoom(cfg, k.signal, |OfSignal(Charged(c), k.signal)| + 1)
              && ServiceRoom(cfg, k.signal, |OfScope(Charged(c), ScopeOf(k))| + 1)
              && TenantRoom(cfg, |OfTenant(Charged(c), k.tenant)| + 1)
              && (k.name in Names(c, ScopeOf(k)) || NameRoom(cfg, k.signal, |Names(c, ScopeOf(k))| + 1))
  {
    hide OfSignal, OfScope, OfTenant, Charged, Names, Check, TenantCap, TenantRoom, ScopeOf;
    RoomUnderEach(cfg, c, k);
    TenantCapIsShare(cfg, |OfTenant(Charged(c), k.tenant)| + 1);
  }

  lemma TenantCapIsShare(cfg: Config, count: nat)
    requires count > 0
    ensures Below(TenantCap(cfg), count) <==> TenantRoom(cfg, count)
  {
  }

  lemma RoomUnderEach(cfg: Config, c: Census, k: SeriesKey)
    ensures Check(cfg, c, k) == NoOverflow <==>
              && Below(cfg.maxSeries, |Charged(c)| + 1)
              && Below(SignalCap(cfg, k.signal), |OfSignal(Charged(c), k.signal)| + 1)
              && Below(SeriesCap(cfg, k.signal), |OfScope(Charged(c), ScopeOf(k))| + 1)
              && Below(TenantCap(cfg), |OfTenant(Charged(c), k.tenant)| + 1)
              && (k.name in Names(c, ScopeOf(k)) || Below(NameCap(cfg, k.signal), |Names(c, ScopeOf(k))| + 1))
  {
    hide OfSignal, OfScope, OfTenant, SignalCap, SeriesCap, TenantCap, NameCap, Charged, Names;
  }

  lemma AdmitKeepsCaps(cfg: Config, c: Census, k: SeriesKey, w: int)
    requires CensusInv(cfg, c)
    ensures WithinCaps(cfg, Admit(cfg, c, k, w))
  {
    hide OfSignal, OfScope, OfTenant, SignalCap, SeriesCap, TenantCap, NameCap, Charged, Check, KeysWithin, NamesWithin;
    hide Admit, NamesActive, Consistent;
    ChargedAfterAdmit(cfg, c, k, w);
    NamesAfterAdmit(cfg, c, k, w);
    NewIsUncharged(c, k);
    if k !in c.held && Check(cfg, c, k) == NoOverflow {
      RoomUnderEach(cfg, c, k);
      OneMoreWithin(cfg, Charged(c), k);
    } else {
      assert Charged(c) + {} == Charged(c);
    }
  }

  lemma NewIsUncharged(c: Census, k: SeriesKey)
    ensures k !in c.held ==> k !in Charged(c)
  {
  }

  lemma NamesAfterAdmit(cfg: Config, c: Census, k: SeriesKey, w: int)
    requires NamesWithin(cfg, c)
    ensures NamesWithin(cfg, Admit(cfg, c, k, w))
  {
    hide OfSignal, OfScope, OfTenant, Charged, SignalCap, SeriesCap, TenantCap, NameCap, OverflowKey;
    var d := Admit(cfg, c, k, w);
    forall s: Scope ensures Below(NameCap(cfg, s.signal), |Names(d, s)|) {
      assert Below(NameCap(cfg, s.signal), |Names(c, s)|);
      if s == ScopeOf(k) && k.name in Names(c, s) {
        assert Names(c, s) + {k.name} == Names(c, s);
      }
    }
  }

  lemma AdmitKeepsInv(cfg: Config, c: Census, k: SeriesKey, w: int)
    requires CensusInv(cfg, c)
    ensures CensusInv(cfg, Admit(cfg, c, k, w))
  {
    hide WithinCaps, NamesActive, Consistent, Admit, Route, Charged;
    AdmitKeepsCaps(cfg, c, k, w);
    ChargedAfterAdmit(cfg, c, k, w);
    AdmitKeepsNames(cfg, c, k, w);
  }

  lemma AdmitKeepsNames(cfg: Config, c: Census, k: SeriesKey, w: int)
    requires Consistent(c) && NamesActive(c)
    ensures NamesActive(Admit(cfg, c, k, w))
  {
    hide Check, OverflowKey;
    ChargedAfterAdmit(cfg, c, k, w);
    var d := Admit(cfg, c, k, w);
    forall s, n | s in d.names && n in d.names[s]
      ensures exists j :: j in Charged(d) && ScopeOf(j) == s && j.name == n
    {
      if s in c.names && n in c.names[s] {
        var j :| j in Charged(c) && ScopeOf(j) == s && j.name == n;
        assert j in Charged(d);
      } else {
        assert k in Charged(d) && ScopeOf(k) == s && k.name == n;
      }
    }
  }

  lemma ChargedAfterRelease(c: Census, k: SeriesKey, w: int)
    requires Consistent(c)
    ensures var d := Release(c, k, w);
            && !Present(d, k, w) && Consistent(d)
            && Charged(d) == Charged(c) - if k in d.held then {} else {k}
  {
  }

  lemma ReleaseKeepsInv(cfg: Config, c: Census, k: SeriesKey, w: int)
    requires CensusInv(cfg, c)
    ensures CensusInv(cfg, Release(c, k, w))
  {
    hide Release, Charged, KeysWithin, NamesWithin, NamesActive, Consistent;
    ChargedAfterRelease(c, k, w);
    NamesAfterRelease(cfg, c, k, w);
    FewerWithin(cfg, Charged(Release(c, k, w)), Charged(c));
  }

  lemma NamesAfterRelease(cfg: Config, c: Census, k: SeriesKey, w: int)
    requires Consistent(c) && NamesActive(c) && NamesWithin(cfg, c)
    ensures NamesActive(Release(c, k, w)) && NamesWithin(cfg, Release(c, k, w))
  {
    hide NameCap;
    ChargedAfterRelease(c, k, w);
    var d := Release(c, k, w);
    forall s: Scope ensures Below(NameCap(cfg, s.signal), |Names(d, s)|) {
      assert Below(NameCap(cfg, s.signal), |Names(c, s)|);
      SubsetSize(Names(d, s), Names(c, s));
    }
    forall s, n | s in d.names && n in d.names[s]
      ensures exists j :: j in Charged(d) && ScopeOf(j) == s && j.name == n
    {
      assert s in c.names && n in c.names[s];
      var j :| j in Charged(c) && ScopeOf(j) == s && j.name == n;
      assert j in Charged(d);
    }
  }

  // ---------------------------------------------------------------------------------------
  // Runs.

  datatype Event = Arrive(key: SeriesKey, window: int) | Leave(key: SeriesKey, window: int)

  function Step(cfg: Config, c: Census, e: Event): Census {
    match e
    case Arrive(k, w) => Admit(cfg, c, k, w)
    case Leave(k, w) => Release(c, k, w)
  }

  function Run(cfg: Config, c: Census, events: seq<Event>): Census
    decreases events
  {
    if events == [] then c else Run(cfg, Step(cfg, c, events[0]), events[1..])
  }

  lemma {:induction false} RunKeepsInv(cfg: Config, c: Census, events: seq<Event>)
    requires CensusInv(cfg, c)
    ensures CensusInv(cfg, Run(cfg, c, events))
    decreases events
  {
    hide CensusInv, Step;
    if events != [] {
      StepKeepsInv(cfg, c, events[0]);
      RunKeepsInv(cfg, Step(cfg, c, events[0]), events[1..]);
    }
  }

  lemma StepKeepsInv(cfg: Config, c: Census, e: Event)
    requires CensusInv(cfg, c)
    ensures CensusInv(cfg, Step(cfg, c, e))
  {
    hide CensusInv, Admit, Release;
    match e {
      case Arrive(k, w) => AdmitKeepsInv(cfg, c, k, w);
      case Leave(k, w) => ReleaseKeepsInv(cfg, c, k, w);
    }
  }

  /** Whatever series arrive and leave, in any order, no cap is ever exceeded by what it counts. */
  lemma CapsAlwaysHold(cfg: Config, events: seq<Event>)
    ensures CensusInv(cfg, Run(cfg, EMPTY_CENSUS, events))
  {
    assert Charged(EMPTY_CENSUS) == {};
    assert forall s :: OfSignal({}, s) == {};
    assert forall s :: OfScope({}, s) == {};
    assert forall t :: OfTenant({}, t) == {};
    RunKeepsInv(cfg, EMPTY_CENSUS, events);
  }

  /** Nothing of a reserve key but its tenant, service, signal and status is its own. */
  predicate Collapsed(cfg: Config, k: SeriesKey) {
    && k.name == cfg.otherName(k.tenant, k.signal)
    && k.dims == 0 && k.http == 0 && k.variant == 0
    && k.httpMethod == if k.signal in {TraceOp, ServiceEdge} then OTHER_METHOD else 0
  }

  /** An admission never refuses: the point is recorded in its window under its own key, or under
      the reserve key of its service, signal and status, and under its own key whenever the
      series is already active or no cap binds. */
  lemma AdmissionRedirectsOnly(cfg: Config, c: Census, k: SeriesKey, w: int)
    requires Consistent(c)
    ensures var a := Route(cfg, c, k, w);
            && Present(Admit(cfg, c, k, w), a.key, w)
            && (a.key.tenant, a.key.service, a.key.signal, a.key.status) == (k.tenant, k.service, k.signal, k.status)
            && (a.reason == NoOverflow <==> k in c.held || Check(cfg, c, k) == NoOverflow)
            && (a.reason == NoOverflow ==> a.key == k)
            && (a.reason != NoOverflow ==> Collapsed(cfg, a.key))
            && (a.reserved <==> !Present(c, a.key, w))
  {
  }

  // ---------------------------------------------------------------------------------------
  // What is charged.

  /** A series becomes charged by arriving itself with room under every cap, and stays charged or
      not for as long as it is active. */
  lemma ActivationDecides(cfg: Config, c: Census, e: Event, k: SeriesKey)
    requires Consistent(c) && k in Step(cfg, c, e).held
    ensures k !in c.held ==>
      (k in Charged(Step(cfg, c, e)) <==> e.Arrive? && e.key == k && Check(cfg, c, k) == NoOverflow)
    ensures k in c.held ==> (k in Charged(Step(cfg, c, e)) <==> k in Charged(c))
  {
    hide Check, OverflowKey;
  }

  lemma StepStaysConsistent(cfg: Config, c: Census, e: Event)
    requires Consistent(c)
    ensures Consistent(Step(cfg, c, e))
  {
    hide Check, OverflowKey;
  }

  lemma {:induction false} RunLast(cfg: Config, c: Census, events: seq<Event>)
    requires events != []
    ensures Run(cfg, c, events) == Step(cfg, Run(cfg, c, events[..|events| - 1]), events[|events| - 1])
    decreases events
  {
    hide Step;
    if |events| == 1 {
      assert events[1..] == [] && events[..0] == [];
    } else {
      RunLast(cfg, Step(cfg, c, events[0]), events[1..]);
      assert events[1..][..|events| - 2] == events[..|events| - 1][1..];
    }
  }

  /** Event i made a series active by its own arrival with room under every cap, and it has been
      active since. */
  ghost predicate MadeActiveBy(cfg: Config, events: seq<Event>, k: SeriesKey, i: int)
    requires 0 <= i < |events|
  {
    var before := Run(cfg, EMPTY_CENSUS, events[..i]);
    && k !in before.held && events[i].Arrive? && events[i].key == k && Check(cfg, before, k) == NoOverflow
    && forall j :: i < j <= |events| ==> k in Run(cfg, EMPTY_CENSUS, events[..j]).held
  }

  /** The budget is meant to count reserve series in the reserve only. An active series, a reserve
      series among them, is charged exactly when the event that made it active was its own arrival
      with room under every cap, as that of a log line already routed to the overflow template is. */
  lemma {:induction false} ChargedExactly(cfg: Config, events: seq<Event>, k: SeriesKey)
    requires k in Run(cfg, EMPTY_CENSUS, events).held
    ensures k in Charged(Run(cfg, EMPTY_CENSUS, events))
      <==> exists i :: 0 <= i < |events| && MadeActiveBy(cfg, events, k, i)
    decreases |events|
  {
    hide Step, Check;
    if events != [] {
      var n := |events| - 1;
      var init := events[..n];
      var before := Run(cfg, EMPTY_CENSUS, init);
      RunLast(cfg, EMPTY_CENSUS, events);
      RunConsistent(cfg, init);
      ActivationDecides(cfg, before, events[n], k);
      assert events[..|events|] == events;
      if k in before.held {
        ChargedExactly(cfg, init, k);
        forall i | 0 <= i < n ensures MadeActiveBy(cfg, events, k, i) <==> MadeActiveBy(cfg, init, k, i) {
          Longer(cfg, events, k, i);
        }
        assert !MadeActiveBy(cfg, events, k, n);
        Bounded(cfg, events, init, k);
      } else {
        forall i | 0 <= i < n ensures !MadeActiveBy(cfg, events, k, i) {
          assert k !in Run(cfg, EMPTY_CENSUS, events[..n]).held;
        }
        assert MadeActiveBy(cfg, events, k, n)
          <==> events[n].Arrive? && events[n].key == k && Check(cfg, before, k) == NoOverflow;
      }
    }
  }

  /** Looking for the event before the last is looking for it in the run before the last. */
  lemma Bounded(cfg: Config, events: seq<Event>, init: seq<Event>, k: SeriesKey)
    requires |init| == |events| - 1
    requires forall i :: 0 <= i < |init| ==> (MadeActiveBy(cfg, events, k, i) <==> MadeActiveBy(cfg, init, k, i))
    requires !MadeActiveBy(cfg, events, k, |init|)
    ensures (exists i :: 0 <= i < |events| && MadeActiveBy(cfg, events, k, i))
      <==> exists i :: 0 <= i < |init| && MadeActiveBy(cfg, init, k, i)
  {
    hide MadeActiveBy;
    if i :| 0 <= i < |events| && MadeActiveBy(cfg, events, k, i) {
      assert i < |init|;
      assert MadeActiveBy(cfg, init, k, i);
    }
    if i :| 0 <= i < |init| && MadeActiveBy(cfg, init, k, i) {
      assert MadeActiveBy(cfg, events, k, i);
    }
  }

  lemma Longer(cfg: Config, events: seq<Event>, k: SeriesKey, i: nat)
    requires i < |events| - 1 && k in Run(cfg, EMPTY_CENSUS, events).held
    ensures MadeActiveBy(cfg, events, k, i) <==> MadeActiveBy(cfg, events[..|events| - 1], k, i)
  {
    hide Run, Check;
    var init := events[..|events| - 1];
    assert events[..|events|] == events;
    assert forall j :: 0 <= j <= |init| ==> init[..j] == events[..j];
  }

  lemma {:induction false} RunConsistent(cfg: Config, events: seq<Event>)
    ensures Consistent(Run(cfg, EMPTY_CENSUS, events))
    decreases |events|
  {
    hide Step;
    if events != [] {
      RunLast(cfg, EMPTY_CENSUS, events);
      RunConsistent(cfg, events[..|events| - 1]);
      StepStaysConsistent(cfg, Run(cfg, EMPTY_CENSUS, events[..|events| - 1]), events[|events| - 1]);
    }
  }

  /** A reserve series that arrives on its own while there is room is charged like any other. */
  lemma ReserveSeriesIsCharged(cfg: Config, k: SeriesKey, w: int)
    requires OverflowKey(cfg, k) == k && Check(cfg, EMPTY_CENSUS, k) == NoOverflow
    ensures k in Charged(Run(cfg, EMPTY_CENSUS, [Arrive(k, w)]))
  {
    assert [Arrive(k, w)][1..] == [];
    assert Run(cfg, EMPTY_CENSUS, [Arrive(k, w)]) == Admit(cfg, EMPTY_CENSUS, k, w);
  }

  // ---------------------------------------------------------------------------------------
  // The size of the reserve.

  /** What a reserve series keeps of the series routed to it. */
  datatype Kind = Kind(tenant: nat, service: nat, signal: Signal, status: nat)

  function KindOf(k: SeriesKey): Kind { Kind(k.tenant, k.service, k.signal, k.status) }

  function KindsOf(keys: set<SeriesKey>): set<Kind> { set k | k in keys :: KindOf(k) }

  function ArrivedKinds(events: seq<Event>): set<Kind> { set e | e in events && e.Arrive? :: KindOf(e.key) }

  /** Two series share their reserve series exactly when they are of one kind. */
  lemma SameReserveExactly(cfg: Config, a: SeriesKey, b: SeriesKey)
    ensures OverflowKey(cfg, a) == OverflowKey(cfg, b) <==> KindOf(a) == KindOf(b)
    ensures KindOf(OverflowKey(cfg, a)) == KindOf(a)
  {
  }

  /** The reserve holds collapsed keys of kinds that arrived. */
  ghost predicate ReserveOf(cfg: Config, c: Census, kinds: set<Kind>) {
    forall k :: k in c.overflow ==> Collapsed(cfg, k) && KindOf(k) in kinds
  }

  lemma StepKeepsReserve(cfg: Config, c: Census, e: Event, kinds: set<Kind>)
    requires ReserveOf(cfg, c, kinds)
    ensures ReserveOf(cfg, Step(cfg, c, e), kinds + if e.Arrive? then {KindOf(e.key)} else {})
  {
    hide Check, OfSignal, OfScope, OfTenant;
  }

  lemma {:induction false} RunKeepsReserve(cfg: Config, events: seq<Event>)
    ensures ReserveOf(cfg, Run(cfg, EMPTY_CENSUS, events), ArrivedKinds(events))
    decreases |events|
  {
    hide Step;
    if events != [] {
      var n := |events| - 1;
      RunLast(cfg, EMPTY_CENSUS, events);
      RunKeepsReserve(cfg, events[..n]);
      StepKeepsReserve(cfg, Run(cfg, EMPTY_CENSUS, events[..n]), events[n], ArrivedKinds(events[..n]));
      assert events == events[..n] + [events[n]];
    }
  }

  lemma {:induction false} OneOfAKind(keys: set<SeriesKey>)
    requires forall j, k :: j in keys && k in keys && KindOf(j) == KindOf(k) ==> j == k
    ensures |KindsOf(keys)| == |keys|
    decreases |keys|
  {
    hide KindOf;
    if keys == {} {
      assert KindsOf(keys) == {};
    } else {
      var k := Pick(keys);
      var rest := keys - {k};
      OneOfAKind(rest);
      assert KindsOf(keys) == KindsOf(rest) + {KindOf(k)};
      assert KindOf(k) !in KindsOf(rest);
    }
  }

  /** However many series arrive and are refused, at any time the reserve holds at most one series
      for each tenant, service, signal and status that arrived. */
  lemma ReserveIsBounded(cfg: Config, events: seq<Event>)
    ensures var reserve := Run(cfg, EMPTY_CENSUS, events).overflow;
            && (forall k :: k in reserve ==> Collapsed(cfg, k) && KindOf(k) in ArrivedKinds(events))
            && (forall j, k :: j in reserve && k in reserve && KindOf(j) == KindOf(k) ==> j == k)
            && |reserve| <= |ArrivedKinds(events)|
  {
    hide Run;
    var reserve := Run(cfg, EMPTY_CENSUS, events).overflow;
    RunKeepsReserve(cfg, events);
    OneOfAKind(reserve);
    SubsetSize(KindsOf(reserve), ArrivedKinds(events));
  }

  // ---------------------------------------------------------------------------------------
  // Names.

  /** The distinct names a scope's charged series carry. */
  ghost predicate NamesExact(c: Census, s: Scope) {
    forall n :: n in Names(c, s) <==> exists k :: k in Charged(c) && ScopeOf(k) == s && k.name == n
  }

  /** When a charged series leaves its last window, its name is forgotten even if another series
      still carries it: the remembered names stay exact if and only if no sibling does. */
  lemma ReleaseForgetsName(c: Census, k: SeriesKey, w: int)
    requires Consistent(c) && NamesExact(c, ScopeOf(k)) && k in Charged(c) && c.held[k] == {w}
    ensures NamesExact(Release(c, k, w), ScopeOf(k)) <==>
            !exists j :: j in Charged(c) && j != k && ScopeOf(j) == ScopeOf(k) && j.name == k.name
  {
    ChargedAfterRelease(c, k, w);
    var d, s := Release(c, k, w), ScopeOf(k);
    assert k.name in Names(c, s);
    assert Names(d, s) == Names(c, s) - {k.name};
    if j :| j in Charged(c) && j != k && ScopeOf(j) == s && j.name == k.name {
      assert j in Charged(d);
    } else {
      forall n ensures n in Names(d, s) <==> exists i :: i in Charged(d) && ScopeOf(i) == s && i.name == n {
        if i :| i in Charged(c) && ScopeOf(i) == s && i.name == n {
          if n != k.name { assert i in Charged(d); }
        }
      }
    }
  }
}
