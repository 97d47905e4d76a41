/**
 The limiter as it runs: presence pairs, per-series window counts and one counter per scope,
 updated in place. Valid ties every counter to the census it stands for.
 */
module Limiters {
  import opened Cardinality

  class Limiter {
    const cfg: Config
    var present: set<(SeriesKey, int)>
    var windows: map<SeriesKey, nat>
    var total: int
    var bySignal: map<Signal, int>
    var byService: map<Scope, int>
    var byTenant: map<nat, int>
    var names: map<Scope, set<nat>>
    var overflow: set<SeriesKey>
    var overflowBySignal: map<Signal, int>
    var overflowCounts: map<Reason, nat>

    /** The active series and the windows each is present in. */
    ghost var held: map<SeriesKey, set<int>>

    ghost function State(): Census
      reads `held, `overflow, `names
    {
      Census(held, overflow, names)
    }

    /** Presence and window counts agree with the census. */
    ghost predicate PresenceValid()
      reads `present, `windows, `held
    {
      PresenceMatches(present, windows, held)
    }

    /** Every counter is the number of charged series in its scope. */
    ghost predicate CountsValid()
      reads `total, `bySignal, `byService, `byTenant, `overflowBySignal, `held, `overflow, `names
    {
      Counting(Charged(State())) && SignalCounts(overflowBySignal, overflow)
    }

    ghost predicate Valid()
      reads this
    {
      PresenceValid() && CountsValid() && CensusInv(cfg, State())
    }

    constructor (cfg: Config)
      ensures Valid() && this.cfg == cfg && State() == EMPTY_CENSUS
    {
      this.cfg := cfg;
      present, windows, total := {}, map[], 0;
      bySignal, byService, byTenant := map[], map[], map[];
      names, overflow, overflowBySignal, overflowCounts := map[], {}, map[], map[];
      held := map[];
      new;
      CapsAlwaysHold(cfg, []);
      NothingCounted();
    }

    lemma PairPresent(k: SeriesKey, w: int)
      requires PresenceValid()
      ensures (k, w) in present <==> Present(State(), k, w)
      ensures Consistent(State()) ==> (k in windows && windows[k] > 0 <==> k in held)
    {
      IsPresent(present, windows, State(), k, w);
    }

    /** Evaluates a series against the budget for a window and returns the series to record
        under. */
    method Admit(k: SeriesKey, w: int) returns (a: Admission)
      requires Valid()
      modifies this
      ensures Valid() && State() == Cardinality.Admit(cfg, old(State()), k, w)
      ensures a == Route(cfg, old(State()), k, w)
      ensures KindOf(a.key) == KindOf(k) && (a.reason == NoOverflow ==> a.key == k)
      ensures a.reason != NoOverflow ==> Collapsed(cfg, a.key)
      ensures a.reason == NoOverflow ==> overflowCounts == old(overflowCounts)
      ensures a.reason != NoOverflow ==> overflowCounts == old(overflowCounts)[a.reason := old(Times(a.reason)) + 1]
    {
      hide CensusInv, OfSignal, OfScope, OfTenant, Check, AddSeries, PresenceMatches, Consistent, OverflowKey, Collapsed;
      hide SignalCounts, ServiceCounts, TenantCounts, Limiter.CountsValid, Limiter.PresenceValid, Limiter.Counting;
      AdmitKeepsInv(cfg, State(), k, w);
      InvParts(cfg, State());
      AdmissionRedirectsOnly(cfg, State(), k, w);
      PairPresent(k, w);
      PairPresent(OverflowKey(cfg, k), w);
      if (k, w) in present { return Admission(k, NoOverflow, false); }
      if k in windows && windows[k] > 0 {
        AddLocked(k, w, false);
        return Admission(k, NoOverflow, true);
      }
      var reason := CheckLocked(k);
      if reason != NoOverflow {
        overflowCounts := overflowCounts[reason := Times(reason) + 1];
        var other := OverflowKey(cfg, k);
        if (other, w) in present { return Admission(other, reason, false); }
        AddLocked(other, w, true);
        return Admission(other, reason, true);
      }
      AddLocked(k, w, false);
      return Admission(k, NoOverflow, true);
    }

    function Times(r: Reason): nat
      reads `overflowCounts
    {
      if r in overflowCounts then overflowCounts[r] else 0
    }

    /** The first cap the series would exceed. */
    method CheckLocked(k: SeriesKey) returns (r: Reason)
      requires Valid()
      ensures r == Check(cfg, State(), k)
    {
      hide CensusInv, OfSignal, OfScope, OfTenant, Charged;
      CountsOf(total, bySignal, byService, byTenant, Charged(State()), k);
      var scope := ScopeOf(k);
      var limit := TenantCap(cfg);
      if limit > 0 && CountOf(byTenant, k.tenant) >= limit { return TenantFull; }
      limit := NameCap(cfg, k.signal);
      if limit > 0 {
        var known := if scope in names then names[scope] else {};
        if |known| >= limit && k.name !in known { return ServiceNames; }
      }
      limit := SeriesCap(cfg, k.signal);
      if limit > 0 && CountOf(byService, scope) >= limit { return ServiceSeries; }
      limit := SignalCap(cfg, k.signal);
      if limit > 0 && CountOf(bySignal, k.signal) >= limit { return SignalFull; }
      if cfg.maxSeries > 0 && total >= cfg.maxSeries { return GlobalFull; }
      return NoOverflow;
    }

    /** The budget counters count exactly the given series. */
    ghost predicate Counting(keys: set<SeriesKey>)
      reads `total, `bySignal, `byService, `byTenant
    {
      total == |keys| && SignalCounts(bySignal, keys) && ServiceCounts(byService, keys) && TenantCounts(byTenant, keys)
    }

    /** Records presence and, on the first window of a series, charges it or records it in the
        reserve. */
    method AddLocked(k: SeriesKey, w: int, reserve: bool)
      requires PresenceValid() && CountsValid() && Consistent(State()) && (k, w) !in present
      modifies this`present, this`windows, this`total, this`bySignal, this`byService, this`byTenant
      modifies this`names, this`overflow, this`overflowBySignal, this`held
      ensures PresenceValid() && CountsValid() && State() == AddSeries(cfg, old(State()), k, w, reserve)
    {
      hide OfSignal, OfScope, OfTenant, PresenceMatches, SignalCounts, ServiceCounts, TenantCounts, Consistent, NameCap;
      hide Limiter.Counting, Limiter.PresenceValid;
      NewKey(State(), k, w);
      ghost var keys := Charged(State());
      AddPresence(k, w);
      assert held.Keys == old(held).Keys + {k};
      if windows[k] > 1 {
        assert Charged(State()) == keys;
        return;
      }
      if reserve {
        AddReserve(k);
        assert Charged(State()) == keys;
      } else {
        Charge(k, keys);
        assert Charged(State()) == keys + {k};
      }
    }

    method AddPresence(k: SeriesKey, w: int)
      requires PresenceValid() && (k, w) !in present
      modifies this`present, this`windows, this`held
      ensures PresenceValid() && held == old(held)[k := old(Windows(State(), k)) + {w}]
      ensures k in windows && windows[k] == old(|Windows(State(), k)|) + 1
    {
      hide PresenceMatches;
      PresenceGrows(present, windows, held, k, w);
      present := present + {(k, w)};
      windows := windows[k := CountOf(windows, k) + 1];
      held := held[k := (if k in held then held[k] else {}) + {w}];
    }

    method AddReserve(k: SeriesKey)
      requires SignalCounts(overflowBySignal, overflow) && k !in overflow
      modifies this`overflow, this`overflowBySignal
      ensures overflow == old(overflow) + {k} && SignalCounts(overflowBySignal, overflow)
    {
      SignalCountGrows(overflowBySignal, overflow, k);
      overflow := overflow + {k};
      overflowBySignal := overflowBySignal[k.signal := CountOf(overflowBySignal, k.signal) + 1];
    }

    method Charge(k: SeriesKey, ghost keys: set<SeriesKey>)
      requires Counting(keys) && k !in keys
      modifies this`total, this`bySignal, this`byService, this`byTenant, this`names
      ensures Counting(keys + {k})
      ensures names == if NameCap(cfg, k.signal) > 0
                       then old(names)[ScopeOf(k) := old(Names(State(), ScopeOf(k))) + {k.name}] else old(names)
    {
      hide SignalCounts, ServiceCounts, TenantCounts, NameCap;
      AllCountsGrow(bySignal, byService, byTenant, keys, k);
      total := total + 1;
      bySignal := bySignal[k.signal := CountOf(bySignal, k.signal) + 1];
      byService := byService[ScopeOf(k) := CountOf(byService, ScopeOf(k)) + 1];
      byTenant := byTenant[k.tenant := CountOf(byTenant, k.tenant) + 1];
      if NameCap(cfg, k.signal) > 0 {
        names := names[ScopeOf(k) := (if ScopeOf(k) in names then names[ScopeOf(k)] else {}) + {k.name}];
      }
    }

    /** Drops one presence; the last one of a series gives back what its first one charged. */
    method Release(k: SeriesKey, w: int)
      requires Valid()
      modifies this`present, this`windows, this`total, this`bySignal, this`byService, this`byTenant
      modifies this`names, this`overflow, this`overflowBySignal, this`held
      ensures Valid() && State() == Cardinality.Release(old(State()), k, w)
    {
      hide OfSignal, OfScope, OfTenant, PresenceMatches, SignalCounts, ServiceCounts, TenantCounts, CensusInv, DropName;
      hide Limiter.Counting;
      ReleaseKeepsInv(cfg, State(), k, w);
      IsPresent(present, windows, State(), k, w);
      if (k, w) !in present { return; }
      LastWindow(cfg, State(), k, w);
      ghost var keys := Charged(State());
      var left := DropPresence(k, w);
      if left > 0 {
        assert held.Keys == old(held).Keys;
        return;
      }
      assert held.Keys == old(held).Keys - {k};
      if k in overflow {
        DropReserve(k);
        assert Charged(State()) == keys;
      } else {
        Discharge(k, keys);
        assert Charged(State()) == keys - {k};
      }
    }

    method DropPresence(k: SeriesKey, w: int) returns (left: nat)
      requires PresenceValid() && (k, w) in present
      modifies this`present, this`windows, this`held
      ensures k in old(held) && (left == 0 <==> old(held)[k] - {w} == {})
      ensures PresenceValid()
      ensures held == if left > 0 then old(held)[k := old(held)[k] - {w}] else old(held) - {k}
    {
      hide PresenceMatches;
      PresenceShrinks(present, windows, held, k, w);
      present := present - {(k, w)};
      windows := windows[k := windows[k] - 1];
      left := windows[k];
      if left > 0 {
        held := held[k := held[k] - {w}];
        return;
      }
      assert old(windows)[k := old(windows)[k] - 1] - {k} == old(windows) - {k};
      windows := windows - {k};
      held := held - {k};
    }

    method DropReserve(k: SeriesKey)
      requires SignalCounts(overflowBySignal, overflow) && k in overflow
      modifies this`overflow, this`overflowBySignal
      ensures overflow == old(overflow) - {k} && SignalCounts(overflowBySignal, overflow)
    {
      hide Drop;
      SignalCountShrinks(overflowBySignal, overflow, k);
      overflow := overflow - {k};
      overflowBySignal := Drop(overflowBySignal, k.signal);
    }

    method Discharge(k: SeriesKey, ghost keys: set<SeriesKey>)
      requires Counting(keys) && k in keys
      modifies this`total, this`bySignal, this`byService, this`byTenant, this`names
      ensures Counting(keys - {k}) && names == DropName(old(names), ScopeOf(k), k.name)
    {
      hide SignalCounts, ServiceCounts, TenantCounts, Drop, DropName;
      AllCountsShrink(bySignal, byService, byTenant, keys, k);
      total := total - 1;
      bySignal := bySignal[k.signal := CountOf(bySignal, k.signal) - 1];
      byService := Drop(byService, ScopeOf(k));
      byTenant := Drop(byTenant, k.tenant);
      names := DropName(names, ScopeOf(k), k.name);
    }

    /** The identity an already applied delta is recorded under, without charging anything. */
    method AdmittedKey(k: SeriesKey, w: int) returns (other: SeriesKey, found: bool)
      requires Valid()
      ensures found <==> Present(State(), other, w)
      ensures other == if Present(State(), k, w) then k else OverflowKey(cfg, k)
    {
      if (k, w) in present { return k, true; }
      other := OverflowKey(cfg, k);
      found := (other, w) in present;
    }
  }

  // ---------------------------------------------------------------------------------------
  // Counters.

  function CountOf<K>(m: map<K, int>, k: K): int { if k in m then m[k] else 0 }

  /** One less, and forgotten at zero. */
  function Drop<K>(m: map<K, int>, k: K): map<K, int> {
    if CountOf(m, k) - 1 <= 0 then m - {k} else m[k := CountOf(m, k) - 1]
  }

  ghost predicate SignalCounts(m: map<Signal, int>, keys: set<SeriesKey>) {
    forall s :: CountOf(m, s) == |OfSignal(keys, s)|
  }

  ghost predicate ServiceCounts(m: map<Scope, int>, keys: set<SeriesKey>) {
    forall s :: CountOf(m, s) == |OfScope(keys, s)|
  }

  ghost predicate TenantCounts(m: map<nat, int>, keys: set<SeriesKey>) {
    forall t: nat :: CountOf(m, t) == |OfTenant(keys, t)|
  }

  ghost predicate PresenceMatches(present: set<(SeriesKey, int)>, windows: map<SeriesKey, nat>, held: map<SeriesKey,
                                  set<int>>) {
    && (forall k, w :: (k, w) in present <==> k in held && w in held[k])
    && windows.Keys == held.Keys
    && (forall k :: k in held ==> windows[k] == |held[k]|)
  }

  lemma CountsOf(total: int, bySignal: map<Signal, int>, byService: map<Scope, int>, byTenant: map<nat, int>,
                 keys: set<SeriesKey>, k: SeriesKey)
    requires SignalCounts(bySignal, keys) && ServiceCounts(byService, keys) && TenantCounts(byTenant, keys)
    ensures CountOf(bySignal, k.signal) == |OfSignal(keys, k.signal)|
    ensures CountOf(byService, ScopeOf(k)) == |OfScope(keys, ScopeOf(k))|
    ensures CountOf(byTenant, k.tenant) == |OfTenant(keys, k.tenant)|
  {
    hide OfSignal, OfScope, OfTenant;
  }

  lemma NothingCounted()
    ensures SignalCounts(map[], {}) && ServiceCounts(map[], {}) && TenantCounts(map[], {})
    ensures Charged(EMPTY_CENSUS) == {} && PresenceMatches({}, map[], map[])
  {
    assert forall s :: OfSignal({}, s) == {};
    assert forall s :: OfScope({}, s) == {};
    assert forall t :: OfTenant({}, t) == {};
  }

  lemma SignalCountGrows(m: map<Signal, int>, keys: set<SeriesKey>, k: SeriesKey)
    requires SignalCounts(m, keys) && k !in keys
    ensures SignalCounts(m[k.signal := CountOf(m, k.signal) + 1], keys + {k})
  {
    hide OfSignal;
    forall s ensures CountOf(m[k.signal := CountOf(m, k.signal) + 1], s) == |OfSignal(keys + {k}, s)| {
      SignalGrows(keys, k, s);
    }
  }

  lemma AllCountsGrow(bySignal: map<Signal, int>, byService: map<Scope, int>, byTenant: map<nat, int>,
                      keys: set<SeriesKey>, k: SeriesKey)
    requires SignalCounts(bySignal, keys) && ServiceCounts(byService, keys) && TenantCounts(byTenant, keys) && k !in keys
    ensures SignalCounts(bySignal[k.signal := CountOf(bySignal, k.signal) + 1], keys + {k})
    ensures ServiceCounts(byService[ScopeOf(k) := CountOf(byService, ScopeOf(k)) + 1], keys + {k})
    ensures TenantCounts(byTenant[k.tenant := CountOf(byTenant, k.tenant) + 1], keys + {k})
    ensures |keys + {k}| == |keys| + 1
  {
    hide OfSignal, OfScope, OfTenant;
    SignalCountGrows(bySignal, keys, k);
    forall s ensures CountOf(byService[ScopeOf(k) := CountOf(byService, ScopeOf(k)) + 1], s) == |OfScope(keys + {k}, s)| {
      ScopeGrows(keys, k, s);
    }
    forall t: nat ensures CountOf(byTenant[k.tenant := CountOf(byTenant, k.tenant) + 1], t) == |OfTenant(keys + {k}, t)| {
      TenantGrows(keys, k, t);
    }
  }

  lemma SignalCountShrinks(m: map<Signal, int>, keys: set<SeriesKey>, k: SeriesKey)
    requires SignalCounts(m, keys) && k in keys
    ensures SignalCounts(Drop(m, k.signal), keys - {k})
    ensures SignalCounts(m[k.signal := CountOf(m, k.signal) - 1], keys - {k})
  {
    hide OfSignal;
    assert keys == (keys - {k}) + {k};
    forall s ensures CountOf(Drop(m, k.signal), s) == CountOf(m[k.signal := CountOf(m, k.signal) - 1], s) == |OfSignal(keys - {k}, s)| {
      SignalGrows(keys - {k}, k, s);
    }
  }

  lemma AllCountsShrink(bySignal: map<Signal, int>, byService: map<Scope, int>, byTenant: map<nat, int>,
                        keys: set<SeriesKey>, k: SeriesKey)
    requires SignalCounts(bySignal, keys) && ServiceCounts(byService, keys) && TenantCounts(byTenant, keys) && k in keys
    ensures SignalCounts(bySignal[k.signal := CountOf(bySignal, k.signal) - 1], keys - {k})
    ensures ServiceCounts(Drop(byService, ScopeOf(k)), keys - {k}) && TenantCounts(Drop(byTenant, k.tenant), keys - {k})
    ensures |keys - {k}| == |keys| - 1
  {
    hide OfSignal, OfScope, OfTenant;
    SignalCountShrinks(bySignal, keys, k);
    assert keys == (keys - {k}) + {k};
    forall s ensures CountOf(Drop(byService, ScopeOf(k)), s) == |OfScope(keys - {k}, s)| {
      ScopeGrows(keys - {k}, k, s);
    }
    forall t: nat ensures CountOf(Drop(byTenant, k.tenant), t) == |OfTenant(keys - {k}, t)| {
      TenantGrows(keys - {k}, k, t);
    }
  }

  // ---------------------------------------------------------------------------------------
  // Presence.

  lemma PresenceGrows(present: set<(SeriesKey, int)>, windows: map<SeriesKey, nat>, held: map<SeriesKey, set<int>>,
                      k: SeriesKey, w: int)
    requires PresenceMatches(present, windows, held) && (k, w) !in present
    ensures var ws := if k in held then held[k] else {};
            && PresenceMatches(present + {(k, w)}, windows[k := CountOf(windows, k) + 1], held[k := ws + {w}])
            && CountOf(windows, k) == |ws| && (k in held <==> k in windows)
  {
  }

  lemma PresenceShrinks(present: set<(SeriesKey, int)>, windows: map<SeriesKey, nat>, held: map<SeriesKey, set<int>>,
                        k: SeriesKey, w: int)
    requires PresenceMatches(present, windows, held) && (k, w) in present
    ensures k in held && k in windows && w in held[k] && windows[k] == |held[k]| > 0
    ensures windows[k] == 1 <==> held[k] - {w} == {}
    ensures held[k] - {w} != {} ==>
              PresenceMatches(present - {(k, w)}, windows[k := windows[k] - 1], held[k := held[k] - {w}])
    ensures held[k] - {w} == {} ==> PresenceMatches(present - {(k, w)}, windows - {k}, held - {k})
  {
    assert |held[k] - {w}| == |held[k]| - 1;
  }

  lemma IsPresent(present: set<(SeriesKey, int)>, windows: map<SeriesKey, nat>, c: Census, k: SeriesKey, w: int)
    requires PresenceMatches(present, windows, c.held)
    ensures (k, w) in present <==> Present(c, k, w)
    ensures Consistent(c) ==> (k in windows && windows[k] > 0 <==> k in c.held)
  {
  }

  lemma InvParts(cfg: Config, c: Census)
    requires CensusInv(cfg, c)
    ensures Consistent(c)
  {
  }

  /** The first window of a series makes it active. */
  lemma NewKey(c: Census, k: SeriesKey, w: int)
    requires Consistent(c)
    ensures k in c.held <==> Windows(c, k) != {}
    ensures k in c.held ==> c.held.Keys == c.held.Keys + {k}
    ensures k !in c.held ==> k !in c.overflow && k !in Charged(c)
    ensures k !in c.held ==> c.held.Keys + {k} - c.overflow == Charged(c) + {k}
    ensures k !in c.held ==> c.held.Keys + {k} - (c.overflow + {k}) == Charged(c)
  {
  }

  /** The last window of a series takes it out of the charged set or the reserve. */
  lemma LastWindow(cfg: Config, c: Census, k: SeriesKey, w: int)
    requires CensusInv(cfg, c) && Present(c, k, w)
    ensures k !in c.overflow ==> k in Charged(c) && c.held.Keys - {k} - c.overflow == Charged(c) - {k}
    ensures k in c.overflow ==> c.held.Keys - {k} - (c.overflow - {k}) == Charged(c)
    ensures c.held.Keys + {k} == c.held.Keys
  {
    hide WithinCaps, NamesActive;
  }
}
