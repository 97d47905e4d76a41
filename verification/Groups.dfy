/**
 Totals by group: what rerouting a series to its reserve keeps. The rows of one group are those of
 one tenant, service, signal and status in one window.
 */
module Groups {
  import opened Cardinality
  import opened Tables

  /** What a reserve series keeps of the series it absorbs, in one window. */
  datatype Group = Group(tenant: nat, service: nat, signal: Signal, status: nat, window: int)

  function GroupOf(r: Row): Group { Group(r.key.tenant, r.key.service, r.key.signal, r.key.status, r.window) }

  function Part(r: Row, d: multiset<nat>, g: Group): multiset<nat> { if GroupOf(r) == g then d else multiset{} }

  ghost function SomeRow(t: Table): (r: Row)
    requires t != map[]
    ensures r in t
  {
    var r :| r in t;
    r
  }

  /** Everything in the rows of one group. */
  ghost function GroupTotal(t: Table, g: Group): multiset<nat>
    decreases |t|
  {
    if t == map[] then multiset{}
    else
      var r := SomeRow(t);
      Part(r, t[r], g) + GroupTotal(t - {r}, g)
  }

  lemma TotalStep(t: Table, g: Group)
    requires t != map[]
    ensures var r := SomeRow(t); GroupTotal(t, g) == Part(r, t[r], g) + GroupTotal(t - {r}, g)
  {
  }

  lemma {:induction false} TotalRemove(t: Table, r: Row, g: Group)
    requires r in t
    ensures GroupTotal(t, g) == Part(r, t[r], g) + GroupTotal(t - {r}, g)
    decreases |t|
  {
    hide GroupTotal, Part, SomeRow;
    var s := SomeRow(t);
    TotalStep(t, g);
    if s != r {
      TotalRemove(t - {s}, r, g);
      TotalRemove(t - {r}, s, g);
      assert t - {s} - {r} == t - {r} - {s};
      Swap(Part(s, t[s], g), Part(r, t[r], g), GroupTotal(t - {r} - {s}, g));
    }
  }

  lemma Swap(a: multiset<nat>, b: multiset<nat>, c: multiset<nat>)
    ensures a + (b + c) == b + (a + c)
  {
  }

  lemma TotalMerge(t: Table, r: Row, d: multiset<nat>, g: Group)
    ensures GroupTotal(Plus(t, map[r := d]), g) == GroupTotal(t, g) + Part(r, d, g)
  {
    hide GroupTotal, Part, Plus;
    var u := Plus(t, map[r := d]);
    PlusOne(t, r, d);
    TotalRemove(u, r, g);
    if r in t {
      TotalRemove(t, r, g);
      PartOfSum(r, t[r], d, g);
      Swap(Part(r, d, g), Part(r, t[r], g), GroupTotal(t - {r}, g));
    }
    Commute(Part(r, d, g), GroupTotal(t - {r}, g));
  }

  /** A group's total counts each row of its tenant, service, signal, status and window once, and no
      other: an empty table holds nothing, and what is merged into a row is what it gains. */
  lemma TotalCountsRows(t: Table, r: Row, d: multiset<nat>, g: Group)
    ensures GroupTotal(map[], g) == multiset{}
    ensures var mine := r.window == g.window && r.key.tenant == g.tenant && r.key.service == g.service
                        && r.key.signal == g.signal && r.key.status == g.status;
            GroupTotal(Plus(t, map[r := d]), g) == GroupTotal(t, g) + if mine then d else multiset{}
    ensures var u := Plus(t, map[r := d]);
            u.Keys == t.Keys + {r} && u[r] == (if r in t then t[r] else multiset{}) + d && forall s :: s in t && s != r ==> u[s] == t[s]
  {
    hide GroupTotal, Plus;
    NoTotal(g);
    TotalMerge(t, r, d, g);
    PlusOne(t, r, d);
    PlusKeys(t, r, d);
    assert multiset{} + d == d;
    forall s | s in t && s != r ensures Plus(t, map[r := d])[s] == t[s] { PlusElse(t, r, d, s); }
  }

  lemma PlusOne(t: Table, r: Row, d: multiset<nat>)
    ensures var u := Plus(t, map[r := d]);
            && r in u && u - {r} == t - {r}
            && (r in t ==> u[r] == t[r] + d) && (r !in t ==> u[r] == d && t - {r} == t)
  {
    hide Plus;
    var u := Plus(t, map[r := d]);
    PlusKeys(t, r, d);
    forall s | s in t && s != r ensures u[s] == t[s] {
      PlusElse(t, r, d, s);
    }
    PlusThere(t, r, d);
    assert (u - {r}).Keys == (t - {r}).Keys;
  }

  lemma PlusElse(t: Table, r: Row, d: multiset<nat>, s: Row)
    requires s in t && s != r
    ensures s in Plus(t, map[r := d]) && Plus(t, map[r := d])[s] == t[s]
  {
    assert t[s] + multiset{} == t[s];
  }

  lemma PlusThere(t: Table, r: Row, d: multiset<nat>)
    ensures r in Plus(t, map[r := d]) && Plus(t, map[r := d])[r] == if r in t then t[r] + d else d
  {
    assert multiset{} + d == d;
  }

  lemma PartOfSum(r: Row, a: multiset<nat>, b: multiset<nat>, g: Group)
    ensures Part(r, a + b, g) == Part(r, a, g) + Part(r, b, g)
  {
  }

  lemma PlusKeys(t: Table, r: Row, d: multiset<nat>)
    ensures Plus(t, map[r := d]).Keys == t.Keys + {r}
  {
  }

  lemma NoTotal(g: Group)
    ensures GroupTotal(map[], g) == multiset{}
  {
  }

  lemma Commute(a: multiset<nat>, b: multiset<nat>)
    ensures a + b == b + a
  {
  }

  // ---------------------------------------------------------------------------------------
  // Totals of whole tables.

  /** Only what the group's own rows hold counts, and rows that hold nothing do not. */
  lemma {:induction false} AtDecides(t: Table, u: Table, g: Group)
    requires forall r :: GroupOf(r) == g ==> At(t, r) == At(u, r)
    ensures GroupTotal(t, g) == GroupTotal(u, g)
    decreases |t| + |u|
  {
    hide GroupTotal, SomeRow;
    if t == map[] && u == map[] {
    } else {
      var r := if t != map[] then SomeRow(t) else SomeRow(u);
      assert r in t || r in u by { SomeRowIn(t); SomeRowIn(u); }
      AtDecides(t - {r}, u - {r}, g);
      Removed(t, r, g);
      Removed(u, r, g);
    }
  }

  lemma SomeRowIn(t: Table)
    ensures t != map[] ==> SomeRow(t) in t
  {
  }

  lemma Removed(t: Table, r: Row, g: Group)
    ensures GroupTotal(t, g) == Part(r, At(t, r), g) + GroupTotal(t - {r}, g)
  {
    hide GroupTotal;
    if r in t {
      TotalRemove(t, r, g);
    } else {
      assert t - {r} == t;
      assert multiset{} + GroupTotal(t, g) == GroupTotal(t, g);
    }
  }

  lemma PlusSplitAt(t: Table, u: Table, r: Row, s: Row)
    requires r in u
    ensures At(Plus(t, u), s) == At(Plus(Plus(t, u - {r}), map[r := u[r]]), s)
  {
    hide Plus;
    PlusAt(t, u, s);
    PlusAt(t, u - {r}, s);
    PlusAt(Plus(t, u - {r}), map[r := u[r]], s);
    NothingMore(At(t, s), At(u, s));
  }

  lemma PlusSplit(t: Table, u: Table, r: Row)
    requires r in u
    ensures Plus(t, u) == Plus(Plus(t, u - {r}), map[r := u[r]])
  {
    hide Plus;
    PlusKeysOf(t, u);
    PlusKeysOf(t, u - {r});
    PlusKeysOf(Plus(t, u - {r}), map[r := u[r]]);
    forall s ensures At(Plus(t, u), s) == At(Plus(Plus(t, u - {r}), map[r := u[r]]), s) { PlusSplitAt(t, u, r, s); }
    SameTable(Plus(t, u), Plus(Plus(t, u - {r}), map[r := u[r]]));
  }

  lemma NothingMore(a: multiset<nat>, b: multiset<nat>)
    ensures a + multiset{} + b == a + b && a + b + multiset{} == a + b
  {
  }

  /** Merging tables adds their totals. */
  lemma {:induction false} PlusTotal(t: Table, u: Table, g: Group)
    ensures GroupTotal(Plus(t, u), g) == GroupTotal(t, g) + GroupTotal(u, g)
    decreases |u|
  {
    hide GroupTotal, SomeRow, Plus;
    if u == map[] {
      PlusNone(t);
      NoTotal(g);
    } else {
      SomeRowIn(u);
      var r := SomeRow(u);
      PlusSplit(t, u, r);
      PlusTotal(t, u - {r}, g);
      TotalMerge(Plus(t, u - {r}), r, u[r], g);
      TotalRemove(u, r, g);
      Regroup(GroupTotal(t, g), GroupTotal(u - {r}, g), Part(r, u[r], g));
    }
  }

  lemma PlusNone(t: Table)
    ensures Plus(t, map[]) == t
  {
    forall r | r in t ensures Plus(t, map[])[r] == t[r] {
      assert t[r] + multiset{} == t[r];
    }
  }

  lemma Regroup(a: multiset<nat>, b: multiset<nat>, c: multiset<nat>)
    ensures a + b + c == a + (c + b)
  {
  }

  /** Filters on windows keep a group's total or leave nothing of it. */
  lemma FilteredTotals(t: Table, ws: set<int>, cutoff: int, g: Group)
    ensures GroupTotal(Except(t, ws), g) == if g.window in ws then multiset{} else GroupTotal(t, g)
    ensures GroupTotal(Above(t, cutoff), g) == if g.window > cutoff then GroupTotal(t, g) else multiset{}
  {
    hide GroupTotal;
    NoTotal(g);
    AtDecides(Except(t, ws), if g.window in ws then map[] else t, g);
    AtDecides(Above(t, cutoff), if g.window > cutoff then t else map[], g);
  }

  /** A group with a total has a row, in a window of the table. */
  lemma TotalHasRow(t: Table, g: Group)
    ensures GroupTotal(t, g) != multiset{} ==> exists r :: GroupOf(r) == g && At(t, r) != multiset{}
    ensures GroupTotal(t, g) != multiset{} ==> g.window in WindowsOf(t)
  {
    hide GroupTotal;
    NoTotal(g);
    if forall r :: GroupOf(r) == g ==> At(t, r) == multiset{} {
      AtDecides(t, map[], g);
    }
  }

  /** A group's total holds what each of its rows does. */
  lemma RowInTotal(t: Table, r: Row)
    ensures At(t, r) <= GroupTotal(t, GroupOf(r))
  {
    Removed(t, r, GroupOf(r));
  }

  /** What a group's rows hold in two tables together is what they hold in the sum. */
  lemma TotalsAdd(t: Table, u: Table, v: Table, g: Group)
    requires forall r :: At(t, r) + At(u, r) == At(v, r)
    ensures GroupTotal(t, g) + GroupTotal(u, g) == GroupTotal(v, g)
  {
    hide GroupTotal;
    PlusTotal(t, u, g);
    forall r ensures At(Plus(t, u), r) == At(v, r) { PlusAt(t, u, r); }
    AtDecides(Plus(t, u), v, g);
  }

  /** Rows admitted anew: whatever keys they were given, windows and group totals are the same. */
  ghost predicate Readmits(resolved: Table, rows: Table) {
    WindowsOf(resolved) == WindowsOf(rows) && forall g :: GroupTotal(resolved, g) == GroupTotal(rows, g)
  }
}
