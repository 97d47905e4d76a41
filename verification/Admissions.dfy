/**
 Planning a batch against the census: every unexpired delta is recorded under its own series or
 a reserve series, and the plan remembers exactly the presence it created so that a failed
 commit can give it back.
 */
module Admissions {
  import opened Cardinality
  import opened Groups
  import opened Sets
  import opened Tables

  /** A batch being planned: the census so far, the rows to write and the presence created. */
  datatype Plan = Plan(census: Census, resolved: Table, reserved: seq<Row>)

  /** One delta admitted and merged under the identity it was given. */
  function PlanOne(cfg: Config, p: Plan, cutoff: int, r: Row, d: multiset<nat>): Plan {
    if r.window <= cutoff then p
    else
      var a := Route(cfg, p.census, r.key, r.window);
      var target := Row(r.window, a.key);
      Plan(Admit(cfg, p.census, r.key, r.window), Plus(p.resolved, map[target := d]),
           if a.reserved then p.reserved + [target] else p.reserved)
  }

  /** The deltas of a batch planned in the given order. */
  function PlanAll(cfg: Config, c: Census, cutoff: int, batch: Table, order: seq<Row>): Plan {
    if order == [] then Plan(c, map[], [])
    else
      var last := order[|order| - 1];
      PlanOne(cfg, PlanAll(cfg, c, cutoff, batch, order[..|order| - 1]), cutoff, last, At(batch, last))
  }

  function ReleaseAll(c: Census, rows: seq<Row>): Census {
    if rows == [] then c
    else
      var last := rows[|rows| - 1];
      Release(ReleaseAll(c, rows[..|rows| - 1]), last.key, last.window)
  }

  predicate IsPresent(c: Census, r: Row) { Present(c, r.key, r.window) }

  predicate Distinct(rows: seq<Row>) { forall i, j :: 0 <= i < j < |rows| ==> rows[i] != rows[j] }

  // ---------------------------------------------------------------------------------------
  // What a plan records.

  lemma AdmitPresence(cfg: Config, c: Census, k: SeriesKey, w: int, q: Row)
    requires Consistent(c)
    ensures var a := Route(cfg, c, k, w);
            && IsPresent(Admit(cfg, c, k, w), Row(w, a.key))
            && (a.reserved <==> !IsPresent(c, Row(w, a.key)))
            && (IsPresent(Admit(cfg, c, k, w), q) <==> IsPresent(c, q) || q == Row(w, a.key))
  {
    hide Check, OverflowKey;
  }

  lemma AdmitOverflow(cfg: Config, c: Census, k: SeriesKey, w: int)
    requires Consistent(c)
    ensures var d := Admit(cfg, c, k, w);
            c.overflow <= d.overflow && forall j :: j in d.overflow && j !in c.overflow ==> j !in c.held
  {
    hide Check, OverflowKey;
  }

  ghost predicate AddsReserved(c: Census, p: Plan) {
    forall q {:trigger IsPresent(p.census, q)} :: IsPresent(p.census, q) <==> IsPresent(c, q) || q in p.reserved
  }

  ghost predicate ReservesNew(c: Census, p: Plan) {
    Distinct(p.reserved) && forall q :: q in p.reserved ==> !IsPresent(c, q) && q in p.resolved
  }

  ghost predicate ResolvesPresent(p: Plan) { forall q :: q in p.resolved ==> IsPresent(p.census, q) }

  ghost predicate NewReserve(c: Census, p: Plan) {
    c.overflow <= p.census.overflow && forall k :: k in p.census.overflow && k !in c.overflow ==> k !in c.held
  }

  /** What one plan adds to the census it started from. */
  ghost predicate Extends(c: Census, p: Plan) {
    Consistent(p.census) && AddsReserved(c, p) && ReservesNew(c, p) && ResolvesPresent(p) && NewReserve(c, p)
  }

  lemma HeldIfPresent(c: Census, k: SeriesKey)
    requires Consistent(c)
    ensures k in c.held <==> exists w :: IsPresent(c, Row(w, k))
  {
    if k in c.held {
      var ws := c.held[k];
      assert |ws| > 0;
      var w := Pick(ws);
      assert IsPresent(c, Row(w, k));
    }
  }

  lemma PlanOneExtends(cfg: Config, c: Census, p: Plan, cutoff: int, r: Row, d: multiset<nat>)
    requires Consistent(c) && Extends(c, p)
    ensures Extends(c, PlanOne(cfg, p, cutoff, r, d))
  {
    hide AddsReserved, ReservesNew, ResolvesPresent, NewReserve, Consistent, Route, Admit, Plus;
    if r.window > cutoff {
      ChargedAfterAdmit(cfg, p.census, r.key, r.window);
      PresenceAfterOne(cfg, c, p, cutoff, r, d);
      ReserveAfterOne(cfg, c, p, cutoff, r, d);
    }
  }

  lemma PresenceAfterOne(cfg: Config, c: Census, p: Plan, cutoff: int, r: Row, d: multiset<nat>)
    requires Consistent(p.census) && AddsReserved(c, p) && ReservesNew(c, p) && ResolvesPresent(p) && r.window > cutoff
    ensures var v := PlanOne(cfg, p, cutoff, r, d); AddsReserved(c, v) && ReservesNew(c, v) && ResolvesPresent(v)
  {
    hide Check, OverflowKey, Admit, Route, Consistent, IsPresent, Plus, AddsReserved, ReservesNew, ResolvesPresent;
    var v := PlanOne(cfg, p, cutoff, r, d);
    var a := Route(cfg, p.census, r.key, r.window);
    var target := Row(r.window, a.key);
    AdmitPresence(cfg, p.census, r.key, r.window, target);
    forall q {:trigger IsPresent(v.census, q)}
      ensures IsPresent(v.census, q) <==> IsPresent(p.census, q) || q == target
    {
      AdmitPresence(cfg, p.census, r.key, r.window, q);
    }
    PlusKeys(p.resolved, target, d);
    TargetAdded(c, p, v, target, a.reserved);
  }

  lemma TargetAdded(c: Census, p: Plan, v: Plan, target: Row, reserved: bool)
    requires AddsReserved(c, p) && ReservesNew(c, p) && ResolvesPresent(p)
    requires forall q {:trigger IsPresent(v.census, q)} :: IsPresent(v.census, q) <==> IsPresent(p.census, q) || q == target
    requires reserved <==> !IsPresent(p.census, target)
    requires v.resolved.Keys == p.resolved.Keys + {target}
    requires v.reserved == if reserved then p.reserved + [target] else p.reserved
    ensures AddsReserved(c, v) && ReservesNew(c, v) && ResolvesPresent(v)
  {
    hide IsPresent;
    forall q {:trigger IsPresent(v.census, q)} ensures IsPresent(v.census, q) <==> IsPresent(c, q) || q in v.reserved {
      assert IsPresent(p.census, q) <==> IsPresent(c, q) || q in p.reserved;
      assert q in v.reserved <==> q in p.reserved || (reserved && q == target);
    }
    assert IsPresent(p.census, target) <==> IsPresent(c, target) || target in p.reserved;
  }

  lemma ReserveAfterOne(cfg: Config, c: Census, p: Plan, cutoff: int, r: Row, d: multiset<nat>)
    requires Consistent(c) && Consistent(p.census) && AddsReserved(c, p) && NewReserve(c, p) && r.window > cutoff
    ensures NewReserve(c, PlanOne(cfg, p, cutoff, r, d))
  {
    hide Admit, Route, Consistent, IsPresent, Plus;
    var v := PlanOne(cfg, p, cutoff, r, d);
    AdmitOverflow(cfg, p.census, r.key, r.window);
    forall k | k in v.census.overflow && k !in c.overflow ensures k !in c.held {
      if k !in p.census.overflow && k in c.held { StillHeld(c, p, k); }
    }
  }

  lemma StillHeld(c: Census, p: Plan, k: SeriesKey)
    requires Consistent(c) && Consistent(p.census) && AddsReserved(c, p) && k in c.held
    ensures k in p.census.held
  {
    HeldIfPresent(c, k);
    var w :| IsPresent(c, Row(w, k));
    assert IsPresent(p.census, Row(w, k));
  }

  lemma {:induction false} PlanExtends(cfg: Config, c: Census, cutoff: int, batch: Table, order: seq<Row>)
    requires Consistent(c)
    ensures Extends(c, PlanAll(cfg, c, cutoff, batch, order))
  {
    if order != [] {
      hide Extends, PlanOne, Consistent;
      PlanExtends(cfg, c, cutoff, batch, order[..|order| - 1]);
      PlanOneExtends(cfg, c, PlanAll(cfg, c, cutoff, batch, order[..|order| - 1]), cutoff, order[|order| - 1], At(batch, order[|order| - 1]));
    }
  }

  // ---------------------------------------------------------------------------------------
  // Undoing a plan.

  lemma ReleasePresence(c: Census, r: Row, q: Row)
    requires Consistent(c)
    ensures var d := Release(c, r.key, r.window);
            && Consistent(d) && (IsPresent(d, q) <==> IsPresent(c, q) && q != r)
            && d.overflow == c.overflow * d.held.Keys
  {
    hide DropName;
    if IsPresent(c, r) && c.held[r.key] - {r.window} == {} {
      LastPresence(c, r, q);
    } else {
      OtherPresence(c, r, q);
    }
  }

  lemma LastPresence(c: Census, r: Row, q: Row)
    requires Consistent(c) && IsPresent(c, r) && c.held[r.key] - {r.window} == {}
    ensures var d := Release(c, r.key, r.window);
            && Consistent(d) && (IsPresent(d, q) <==> IsPresent(c, q) && q != r)
            && d.overflow == c.overflow * d.held.Keys
  {
    hide DropName;
    var d := Release(c, r.key, r.window);
    assert d.held == c.held - {r.key};
    assert c.held[r.key] == {r.window};
    assert q.key == r.key && IsPresent(c, q) ==> q == r;
  }

  lemma OtherPresence(c: Census, r: Row, q: Row)
    requires Consistent(c) && !(IsPresent(c, r) && c.held[r.key] - {r.window} == {})
    ensures var d := Release(c, r.key, r.window);
            && Consistent(d) && (IsPresent(d, q) <==> IsPresent(c, q) && q != r)
            && d.overflow == c.overflow * d.held.Keys
  {
    hide DropName;
    var d := Release(c, r.key, r.window);
    assert d.held.Keys == c.held.Keys;
    assert q.key == r.key ==> (q == r <==> q.window == r.window);
  }

  lemma {:induction false} ReleaseAllPresence(c: Census, rows: seq<Row>)
    requires Consistent(c)
    ensures var d := ReleaseAll(c, rows);
            && Consistent(d)
            && (forall q {:trigger IsPresent(d, q)} :: IsPresent(d, q) <==> IsPresent(c, q) && q !in rows)
            && d.overflow == c.overflow * d.held.Keys && d.held.Keys <= c.held.Keys
  {
    hide Release, Consistent;
    if rows == [] {
      ReserveIsHeld(c);
    } else {
      var init, last := rows[..|rows| - 1], rows[|rows| - 1];
      assert rows == init + [last];
      ReleaseAllPresence(c, init);
      var e := ReleaseAll(c, init);
      var d := Release(e, last.key, last.window);
      forall q {:trigger IsPresent(d, q)} ensures IsPresent(d, q) <==> IsPresent(c, q) && q !in rows {
        ReleasePresence(e, last, q);
      }
      ReleasePresence(e, last, last);
      ReleaseShrinks(e, last);
    }
  }

  lemma ReserveIsHeld(c: Census)
    requires Consistent(c)
    ensures c.overflow == c.overflow * c.held.Keys
  {
  }

  lemma ReleaseShrinks(c: Census, r: Row)
    ensures Release(c, r.key, r.window).held.Keys <= c.held.Keys
  {
  }

  lemma SameHeld(c: Census, d: Census)
    requires Consistent(c) && Consistent(d)
    requires forall q {:trigger IsPresent(d, q)} :: IsPresent(d, q) <==> IsPresent(c, q)
    ensures c.held == d.held
  {
    forall k ensures k in c.held <==> k in d.held {
      HeldIfPresent(c, k);
      HeldIfPresent(d, k);
      if k in c.held {
        var w :| IsPresent(c, Row(w, k));
        assert IsPresent(d, Row(w, k));
      }
      if k in d.held {
        var w :| IsPresent(d, Row(w, k));
        assert IsPresent(c, Row(w, k));
      }
    }
    forall k | k in c.held ensures c.held[k] == d.held[k] {
      forall w ensures w in c.held[k] <==> w in d.held[k] {
        assert IsPresent(d, Row(w, k)) <==> IsPresent(c, Row(w, k));
      }
    }
  }

  /** Rolling a plan back after a failed commit restores every presence and, with it, the charged
      set and the reserve: each counter the caps are compared with is what it was. */
  lemma RollbackRestores(cfg: Config, c: Census, cutoff: int, batch: Table, order: seq<Row>)
    requires Consistent(c)
    ensures var p := PlanAll(cfg, c, cutoff, batch, order);
            var d := ReleaseAll(p.census, p.reserved);
            d.held == c.held && d.overflow == c.overflow && Charged(d) == Charged(c)
  {
    hide PlanAll, ReleaseAll;
    var p := PlanAll(cfg, c, cutoff, batch, order);
    var d := ReleaseAll(p.census, p.reserved);
    PlanExtends(cfg, c, cutoff, batch, order);
    ReleaseAllPresence(p.census, p.reserved);
    assert forall q {:trigger IsPresent(d, q)} :: IsPresent(d, q) <==> IsPresent(c, q);
    SameHeld(c, d);
    forall k ensures k in d.overflow <==> k in c.overflow {}
  }

  // ---------------------------------------------------------------------------------------
  // What overflow routing preserves.

  /** Everything a batch holds for one group in windows above the cutoff. */
  function BatchTotal(batch: Table, order: seq<Row>, cutoff: int, g: Group): multiset<nat> {
    if order == [] then multiset{}
    else
      var last := order[|order| - 1];
      BatchTotal(batch, order[..|order| - 1], cutoff, g)
      + if last.window > cutoff then Part(last, At(batch, last), g) else multiset{}
  }

  lemma PlanOneTotal(cfg: Config, p: Plan, cutoff: int, r: Row, d: multiset<nat>, g: Group)
    ensures GroupTotal(PlanOne(cfg, p, cutoff, r, d).resolved, g)
         == GroupTotal(p.resolved, g) + if r.window > cutoff then Part(r, d, g) else multiset{}
  {
    hide GroupTotal, Check, Admit, Plus;
    if r.window > cutoff {
      var target := Row(r.window, Route(cfg, p.census, r.key, r.window).key);
      TotalMerge(p.resolved, target, d, g);
      assert GroupOf(target) == GroupOf(r);
    }
  }

  /** However many series a plan reroutes to the reserve, each (tenant, service, signal, status,
      window) keeps exactly the contributions of its unexpired deltas. */
  lemma {:induction false} PlanPreservesGroups(cfg: Config, c: Census, cutoff: int, batch: Table, order: seq<Row>,
                                               g: Group)
    ensures GroupTotal(PlanAll(cfg, c, cutoff, batch, order).resolved, g) == BatchTotal(batch, order, cutoff, g)
  {
    hide GroupTotal, PlanOne;
    if order == [] {
      NoTotal(g);
    } else {
      var init, last := order[..|order| - 1], order[|order| - 1];
      PlanPreservesGroups(cfg, c, cutoff, batch, init, g);
      PlanOneTotal(cfg, PlanAll(cfg, c, cutoff, batch, init), cutoff, last, At(batch, last), g);
    }
  }

  /** Taken in any order that lists each row once, a batch's total is the total of its rows. */
  lemma {:induction false} BatchTotalIs(batch: Table, order: seq<Row>, cutoff: int, g: Group)
    requires Lists(order, batch)
    ensures BatchTotal(batch, order, cutoff, g) == GroupTotal(Above(batch, cutoff), g)
  {
    hide GroupTotal, Part, Lists, Above;
    if order == [] {
      NothingListed(batch, cutoff);
      NoTotal(g);
    } else {
      var init, last := order[..|order| - 1], order[|order| - 1];
      var rest := batch - {last};
      ListsInit(order, batch, cutoff);
      BatchTotalIs(rest, init, cutoff, g);
      SameBatchTotal(batch, rest, init, cutoff, g);
      if last.window > cutoff {
        TotalRemove(Above(batch, cutoff), last, g);
        Commute(Part(last, batch[last], g), GroupTotal(Above(rest, cutoff), g));
      } else {
        assert BatchTotal(batch, init, cutoff, g) + multiset{} == BatchTotal(batch, init, cutoff, g);
      }
    }
  }

  /** order lists each row of the batch once. */
  ghost predicate Lists(order: seq<Row>, batch: Table) { Distinct(order) && forall r :: r in order <==> r in batch }

  lemma NothingListed(batch: Table, cutoff: int)
    requires Lists([], batch)
    ensures Above(batch, cutoff) == map[]
  {
    assert forall r :: r in batch ==> r in [];
  }

  lemma ListsInit(order: seq<Row>, batch: Table, cutoff: int)
    requires Lists(order, batch) && order != []
    ensures var init, last := order[..|order| - 1], order[|order| - 1];
            && last in batch && Lists(init, batch - {last})
            && (forall r :: r in init ==> At(batch, r) == At(batch - {last}, r))
            && (last.window > cutoff ==> last in Above(batch, cutoff) && Above(batch, cutoff)[last] == batch[last]
                                         && Above(batch, cutoff) - {last} == Above(batch - {last}, cutoff))
            && (last.window <= cutoff ==> Above(batch, cutoff) == Above(batch - {last}, cutoff))
  {
    var init, last := order[..|order| - 1], order[|order| - 1];
    assert order == init + [last];
    assert forall r :: r in order <==> r in init || r == last;
  }

  lemma {:induction false} SameBatchTotal(a: Table, b: Table, order: seq<Row>, cutoff: int, g: Group)
    requires forall r :: r in order ==> At(a, r) == At(b, r)
    ensures BatchTotal(a, order, cutoff, g) == BatchTotal(b, order, cutoff, g)
  {
    if order != [] { SameBatchTotal(a, b, order[..|order| - 1], cutoff, g); }
  }

  /** Admission is conservative: whatever the caps and the order, the planned rows hold for each
      group exactly what the batch's unexpired rows held. */
  lemma AdmissionIsConservative(cfg: Config, c: Census, cutoff: int, batch: Table, order: seq<Row>, g: Group)
    requires Lists(order, batch)
    ensures GroupTotal(PlanAll(cfg, c, cutoff, batch, order).resolved, g) == GroupTotal(Above(batch, cutoff), g)
  {
    PlanPreservesGroups(cfg, c, cutoff, batch, order, g);
    BatchTotalIs(batch, order, cutoff, g);
  }

  // ---------------------------------------------------------------------------------------
  // Admitting logged rows anew.

  lemma {:induction false} PlannedWindows(cfg: Config, c: Census, cutoff: int, batch: Table, order: seq<Row>)
    ensures forall w :: w in WindowsOf(PlanAll(cfg, c, cutoff, batch, order).resolved)
                   <==> exists r :: r in order && r.window == w && w > cutoff
  {
    if order != [] {
      hide Route, Admit, Plus, WindowsOf;
      var init, last := order[..|order| - 1], order[|order| - 1];
      var p := PlanAll(cfg, c, cutoff, batch, init);
      PlannedWindows(cfg, c, cutoff, batch, init);
      assert forall r :: r in order <==> r in init || r == last;
      if last.window > cutoff {
        var target := Row(last.window, Route(cfg, p.census, last.key, last.window).key);
        PlusWindows(p.resolved, map[target := At(batch, last)]);
        OneWindow(target, At(batch, last));
      }
    }
  }

  lemma OneWindow(r: Row, d: multiset<nat>)
    ensures WindowsOf(map[r := d]) == {r.window}
  {
    assert r in map[r := d];
  }

  /** Whatever the caps and the order, admitting rows anew keeps their windows and the total of each
      group. */
  lemma AdmissionReadmits(cfg: Config, c: Census, cutoff: int, batch: Table, order: seq<Row>)
    requires Lists(order, batch)
    ensures Readmits(PlanAll(cfg, c, cutoff, batch, order).resolved, Above(batch, cutoff))
  {
    hide PlanAll, GroupTotal;
    PlannedWindows(cfg, c, cutoff, batch, order);
    forall g ensures GroupTotal(PlanAll(cfg, c, cutoff, batch, order).resolved, g) == GroupTotal(Above(batch, cutoff), g) {
      AdmissionIsConservative(cfg, c, cutoff, batch, order, g);
    }
  }

  /** A row keeps its key: its series is active, has room under every cap, or is its own reserve. */
  predicate Settles(cfg: Config, c: Census, k: SeriesKey) {
    k in c.held || Check(cfg, c, k) == NoOverflow || OverflowKey(cfg, k) == k
  }

  /** Every unexpired row of the order keeps its key when its turn comes. */
  ghost predicate AllSettle(cfg: Config, c: Census, cutoff: int, batch: Table, order: seq<Row>) {
    forall i :: 0 <= i < |order| ==> SettlesAt(cfg, c, cutoff, batch, order, i)
  }

  predicate SettlesAt(cfg: Config, c: Census, cutoff: int, batch: Table, order: seq<Row>, i: int)
    requires 0 <= i < |order|
  {
    order[i].window > cutoff ==> Settles(cfg, PlanAll(cfg, c, cutoff, batch, order[..i]).census, order[i].key)
  }

  lemma RouteSettles(cfg: Config, c: Census, k: SeriesKey, w: int)
    ensures Route(cfg, c, k, w).key == k <==> Settles(cfg, c, k)
    ensures Route(cfg, c, k, w).key == k || Route(cfg, c, k, w).key == OverflowKey(cfg, k)
  {
    hide Check, OverflowKey;
  }

  lemma ReserveOfReserve(cfg: Config, k: SeriesKey)
    ensures OverflowKey(cfg, OverflowKey(cfg, k)) == OverflowKey(cfg, k)
  {
  }

  lemma SettlesInit(cfg: Config, c: Census, cutoff: int, batch: Table, order: seq<Row>)
    requires order != [] && AllSettle(cfg, c, cutoff, batch, order)
    ensures AllSettle(cfg, c, cutoff, batch, order[..|order| - 1])
    ensures SettlesAt(cfg, c, cutoff, batch, order, |order| - 1)
  {
    hide PlanAll, Settles;
    var init := order[..|order| - 1];
    forall i | 0 <= i < |init| ensures SettlesAt(cfg, c, cutoff, batch, init, i) {
      assert SettlesAt(cfg, c, cutoff, batch, order, i);
      assert init[..i] == order[..i];
    }
  }

  /** The unexpired rows of an order. */
  function Listed(batch: Table, order: seq<Row>, cutoff: int): Table {
    map r | r in order && r.window > cutoff :: At(batch, r)
  }

  lemma ListedLast(batch: Table, order: seq<Row>, cutoff: int)
    requires order != [] && Distinct(order)
    ensures var init, last := order[..|order| - 1], order[|order| - 1];
            Listed(batch, order, cutoff)
            == if last.window > cutoff then Plus(Listed(batch, init, cutoff), map[last := At(batch, last)])
               else Listed(batch, init, cutoff)
  {
    hide Plus, At;
    var init, last := order[..|order| - 1], order[|order| - 1];
    var t := Listed(batch, init, cutoff);
    assert order == init + [last];
    assert forall r :: r in order <==> r in init || r == last;
    PlusOne(t, last, At(batch, last));
    if last.window > cutoff {
      var u := Plus(t, map[last := At(batch, last)]);
      assert u == (u - {last})[last := u[last]];
    }
  }

  lemma ListedAll(batch: Table, order: seq<Row>, cutoff: int)
    requires Lists(order, batch)
    ensures Listed(batch, order, cutoff) == Above(batch, cutoff)
  {
  }

  /** Rows that all settle are planned as they are. */
  lemma {:induction false} SettledRows(cfg: Config, c: Census, cutoff: int, batch: Table, order: seq<Row>)
    requires Distinct(order) && AllSettle(cfg, c, cutoff, batch, order)
    ensures PlanAll(cfg, c, cutoff, batch, order).resolved == Listed(batch, order, cutoff)
  {
    if order != [] {
      hide Route, Admit, Plus, Settles, AllSettle, Listed;
      var init, last := order[..|order| - 1], order[|order| - 1];
      SettlesInit(cfg, c, cutoff, batch, order);
      SettledRows(cfg, c, cutoff, batch, init);
      ListedLast(batch, order, cutoff);
      if last.window > cutoff {
        RouteSettles(cfg, PlanAll(cfg, c, cutoff, batch, init).census, last.key, last.window);
      }
    } else {
      assert Listed(batch, order, cutoff) == map[];
    }
  }

  /** Where each planned row came from. */
  lemma {:induction false} TargetOf(cfg: Config, c: Census, cutoff: int, batch: Table, order: seq<Row>, r: Row) returns (i: int)
    requires r in PlanAll(cfg, c, cutoff, batch, order).resolved
    ensures 0 <= i < |order| && order[i].window == r.window > cutoff
    ensures r.key == Route(cfg, PlanAll(cfg, c, cutoff, batch, order[..i]).census, order[i].key, order[i].window).key
  {
    hide Route, Admit, Plus;
    var init, last := order[..|order| - 1], order[|order| - 1];
    var p := PlanAll(cfg, c, cutoff, batch, init);
    if r in p.resolved {
      i := TargetOf(cfg, c, cutoff, batch, init, r);
      assert init[..i] == order[..i];
    } else {
      i := |order| - 1;
      PlusKeys(p.resolved, Row(last.window, Route(cfg, p.census, last.key, last.window).key), At(batch, last));
    }
  }

  /** Admitting logged rows anew leaves them as they are exactly when every row keeps its key when its
      turn comes. */
  lemma ReadmissionKeepsRowsExactly(cfg: Config, c: Census, cutoff: int, batch: Table, order: seq<Row>)
    requires Lists(order, batch)
    ensures PlanAll(cfg, c, cutoff, batch, order).resolved == Above(batch, cutoff)
       <==> AllSettle(cfg, c, cutoff, batch, order)
  {
    hide PlanAll, Settles, OverflowKey, Route, Listed;
    if AllSettle(cfg, c, cutoff, batch, order) {
      SettledRows(cfg, c, cutoff, batch, order);
      ListedAll(batch, order, cutoff);
    } else {
      var i :| 0 <= i < |order| && !SettlesAt(cfg, c, cutoff, batch, order, i);
      assert order[i] in Above(batch, cutoff);
      if order[i] in PlanAll(cfg, c, cutoff, batch, order).resolved {
        var j := TargetOf(cfg, c, cutoff, batch, order, order[i]);
        NoneComesBack(cfg, c, cutoff, batch, order, i, j);
      }
    }
  }

  /** No row of the order is planned under the key of one that does not settle. */
  lemma NoneComesBack(cfg: Config, c: Census, cutoff: int, batch: Table, order: seq<Row>, i: int, j: int)
    requires Distinct(order) && 0 <= i < |order| && 0 <= j < |order| && order[j].window == order[i].window
    requires !SettlesAt(cfg, c, cutoff, batch, order, i)
    ensures order[i].key != Route(cfg, PlanAll(cfg, c, cutoff, batch, order[..j]).census, order[j].key, order[j].window).key
  {
    hide PlanAll, Settles, OverflowKey, Route;
    RouteSettles(cfg, PlanAll(cfg, c, cutoff, batch, order[..j]).census, order[j].key, order[j].window);
    RouteSettles(cfg, PlanAll(cfg, c, cutoff, batch, order[..i]).census, order[i].key, order[i].window);
    ReserveOfReserve(cfg, order[j].key);
    NotItsOwnReserve(cfg, PlanAll(cfg, c, cutoff, batch, order[..i]).census, order[i].key);
    if order[j].key == order[i].key { assert order[j] == order[i]; }
  }

  lemma NotItsOwnReserve(cfg: Config, c: Census, k: SeriesKey)
    requires !Settles(cfg, c, k)
    ensures OverflowKey(cfg, k) != k
  {
  }

  /** A log with a series and its reserve, replayed reserve first under a budget of one series: the
      reserve row takes the budget and the series comes back under the reserve. */
  lemma ReadmissionReroutes(cfg: Config, a: SeriesKey, w: int, d: multiset<nat>, e: multiset<nat>)
    requires cfg.maxSeries == 1 && cfg.tenantFraction == 0.0
    requires NameCap(cfg, a.signal) == 0 && SeriesCap(cfg, a.signal) == 0 && SignalCap(cfg, a.signal) == 0
    requires OverflowKey(cfg, a) != a
    ensures var o := OverflowKey(cfg, a);
            PlanAll(cfg, EMPTY_CENSUS, w - 1, map[Row(w, a) := d, Row(w, o) := e], [Row(w, o), Row(w, a)]).resolved
            == map[Row(w, o) := e + d]
  {
    hide PlanAll, Plus, Route, OverflowKey;
    var o := OverflowKey(cfg, a);
    var first, second := Row(w, o), Row(w, a);
    var batch: Table := map[second := d, first := e];
    ReserveOfReserve(cfg, a);
    ReserveShape(cfg, a);
    FirstTakesBudget(cfg, o, w);
    NoBudgetLeft(cfg, Admit(cfg, EMPTY_CENSUS, o, w), a, w);
    PlanOfTwo(cfg, w - 1, batch, first, second);
    JustOne(first, e);
    OneAgain(first, e, d);
  }

  lemma ReserveShape(cfg: Config, a: SeriesKey)
    ensures OverflowKey(cfg, a).signal == a.signal
  {
  }

  lemma JustOne(r: Row, d: multiset<nat>)
    ensures Plus(map[], map[r := d]) == map[r := d]
  {
    assert multiset{} + d == d;
  }

  lemma OneAgain(r: Row, d: multiset<nat>, e: multiset<nat>)
    ensures Plus(map[r := d], map[r := e]) == map[r := d + e]
  {
  }

  lemma PlanOfTwo(cfg: Config, cutoff: int, batch: Table, r: Row, s: Row)
    requires r.window > cutoff && s.window > cutoff
    ensures
      var c := Admit(cfg, EMPTY_CENSUS, r.key, r.window);
      PlanAll(cfg, EMPTY_CENSUS, cutoff, batch, [r, s]).resolved
      == Plus(Plus(map[], map[Row(r.window, Route(cfg, EMPTY_CENSUS, r.key, r.window).key) := At(batch, r)]),
              map[Row(s.window, Route(cfg, c, s.key, s.window).key) := At(batch, s)])
  {
    hide Plus, Route, Admit;
    var none, one := PlanAll(cfg, EMPTY_CENSUS, cutoff, batch, []), PlanAll(cfg, EMPTY_CENSUS, cutoff, batch, [r]);
    assert none == Plan(EMPTY_CENSUS, map[], []);
    assert [r][..0] == [];
    assert one == PlanOne(cfg, none, cutoff, r, At(batch, r));
    assert [r, s][..1] == [r];
    assert PlanAll(cfg, EMPTY_CENSUS, cutoff, batch, [r, s]) == PlanOne(cfg, one, cutoff, s, At(batch, s));
  }

  lemma NoBudgetLeft(cfg: Config, c: Census, a: SeriesKey, w: int)
    requires cfg.maxSeries == 1 && cfg.tenantFraction == 0.0
    requires NameCap(cfg, a.signal) == 0 && SeriesCap(cfg, a.signal) == 0 && SignalCap(cfg, a.signal) == 0
    requires |Charged(c)| == 1 && a !in c.held
    ensures Route(cfg, c, a, w).key == OverflowKey(cfg, a)
  {
  }

  lemma FirstTakesBudget(cfg: Config, o: SeriesKey, w: int)
    requires cfg.maxSeries == 1 && cfg.tenantFraction == 0.0
    requires NameCap(cfg, o.signal) == 0 && SeriesCap(cfg, o.signal) == 0 && SignalCap(cfg, o.signal) == 0
    ensures Route(cfg, EMPTY_CENSUS, o, w).key == o
    ensures |Charged(Admit(cfg, EMPTY_CENSUS, o, w))| == 1 && Admit(cfg, EMPTY_CENSUS, o, w).held.Keys == {o}
  {
    assert Charged(EMPTY_CENSUS) == {};
    assert Charged(Admit(cfg, EMPTY_CENSUS, o, w)) == {o};
  }

  // ---------------------------------------------------------------------------------------
  // Presence is what the shards hold.

  ghost predicate InStep(c: Census, shards: Table) {
    Consistent(c) && forall r {:trigger IsPresent(c, r)} :: IsPresent(c, r) <==> r in shards
  }

  /** A committed plan leaves presence and shards in step. */
  lemma CommitStaysInStep(cfg: Config, c: Census, shards: Table, cutoff: int, batch: Table, order: seq<Row>)
    requires InStep(c, shards)
    ensures var p := PlanAll(cfg, c, cutoff, batch, order);
            InStep(p.census, Plus(shards, p.resolved))
  {
    PlanExtends(cfg, c, cutoff, batch, order);
  }

  /** A rolled-back plan does too, with the shards unchanged. */
  lemma RollbackStaysInStep(cfg: Config, c: Census, shards: Table, cutoff: int, batch: Table, order: seq<Row>)
    requires InStep(c, shards)
    ensures var p := PlanAll(cfg, c, cutoff, batch, order);
            InStep(ReleaseAll(p.census, p.reserved), shards)
  {
    hide PlanAll, ReleaseAll;
    var p := PlanAll(cfg, c, cutoff, batch, order);
    PlanExtends(cfg, c, cutoff, batch, order);
    ReleaseAllPresence(p.census, p.reserved);
  }

  /** Evicting whole windows and releasing exactly their rows keeps them in step. */
  lemma EvictStaysInStep(c: Census, shards: Table, windows: set<int>, rows: seq<Row>)
    requires InStep(c, shards) && forall r :: r in rows <==> r in shards && r.window in windows
    ensures InStep(ReleaseAll(c, rows), Except(shards, windows))
  {
    hide ReleaseAll;
    ReleaseAllPresence(c, rows);
  }
}
