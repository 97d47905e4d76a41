/**
 Tables of rows by window and series, and what a range of one holds. A range is summed window by
 window; the theorems say what that gives row by row, whatever the order of the rows.
 */
module CellTables {

  /** A row: a window (or an hour) and a series. */
  datatype Cell = Cell(window: int, series: nat)

  type Cells = map<Cell, multiset<nat>>

  function At(t: Cells, c: Cell): multiset<nat> { if c in t then t[c] else multiset{} }

  /** Everything one series has in the windows of a range. */
  function SumRange(t: Cells, s: nat, lo: int, hi: int): multiset<nat>
    decreases hi - lo
  {
    if lo >= hi then multiset{} else At(t, Cell(lo, s)) + SumRange(t, s, lo + 1, hi)
  }

  predicate HasRow(t: Cells, s: nat, lo: int, hi: int) { exists c :: c in t && c.series == s && lo <= c.window < hi }

  // ---------------------------------------------------------------------------------------
  // Splitting a range.

  lemma {:induction false} SumSplits(t: Cells, s: nat, lo: int, mid: int, hi: int)
    requires lo <= mid <= hi
    ensures SumRange(t, s, lo, hi) == SumRange(t, s, lo, mid) + SumRange(t, s, mid, hi)
    decreases mid - lo
  {
    if lo == mid {
      assert SumRange(t, s, mid, mid) == multiset{};
      assert multiset{} + SumRange(t, s, mid, hi) == SumRange(t, s, mid, hi);
    } else {
      SumSplits(t, s, lo + 1, mid, hi);
      assert At(t, Cell(lo, s)) + (SumRange(t, s, lo + 1, mid) + SumRange(t, s, mid, hi))
          == At(t, Cell(lo, s)) + SumRange(t, s, lo + 1, mid) + SumRange(t, s, mid, hi);
    }
  }

  lemma RowCounts(t: Cells, s: nat, lo: int, hi: int)
    requires lo < hi
    ensures Cell(lo, s) in t ==> HasRow(t, s, lo, hi)
  {
    assert Cell(lo, s).series == s;
  }

  lemma {:induction false} NoRowNoSum(t: Cells, s: nat, lo: int, hi: int)
    requires !HasRow(t, s, lo, hi)
    ensures SumRange(t, s, lo, hi) == multiset{}
    decreases hi - lo
  {
    if lo < hi {
      RowCounts(t, s, lo, hi);
      assert !HasRow(t, s, lo + 1, hi);
      NoRowNoSum(t, s, lo + 1, hi);
    }
  }

  // ---------------------------------------------------------------------------------------
  // Row by row.

  ghost function SomeCell(t: Cells): (c: Cell)
    requires t != map[]
    ensures c in t
  {
    var c :| c in t;
    c
  }

  /** What the rows of a table that satisfy f hold, each row counted once. */
  ghost function Rows(t: Cells, f: Cell -> bool): multiset<nat>
    decreases |t|
  {
    if t == map[] then multiset{}
    else
      var c := SomeCell(t);
      (if f(c) then t[c] else multiset{}) + Rows(t - {c}, f)
  }

  /** The rows of one series in a range of windows. */
  function OfSeries(s: nat, lo: int, hi: int): Cell -> bool { (c: Cell) => c.series == s && lo <= c.window < hi }

  lemma NoRows(f: Cell -> bool)
    ensures Rows(map[], f) == multiset{}
  {
  }

  lemma RowsStep(t: Cells, f: Cell -> bool)
    requires t != map[]
    ensures var c := SomeCell(t); c in t && Rows(t, f) == (if f(c) then t[c] else multiset{}) + Rows(t - {c}, f)
  {
  }

  /** Taking any row out of a table takes exactly what it holds out of the sum, if it is one of those
      summed. */
  lemma {:induction false} RowsRemove(t: Cells, c: Cell, f: Cell -> bool)
    requires c in t
    ensures Rows(t, f) == (if f(c) then t[c] else multiset{}) + Rows(t - {c}, f)
    decreases |t|
  {
    hide Rows, SomeCell;
    RowsStep(t, f);
    var d := SomeCell(t);
    if d != c {
      RowsRemove(t - {d}, c, f);
      RowsRemove(t - {c}, d, f);
      assert t - {d} - {c} == t - {c} - {d};
      Exchange(if f(d) then t[d] else multiset{}, if f(c) then t[c] else multiset{}, Rows(t - {c} - {d}, f));
    }
  }

  lemma Exchange(a: multiset<nat>, b: multiset<nat>, c: multiset<nat>)
    ensures a + (b + c) == b + (a + c)
  {
  }

  lemma Nothing(a: multiset<nat>)
    ensures a + multiset{} == a && multiset{} + a == a
  {
  }

  /** The same with a row that need not be there. */
  lemma RowsWithout(t: Cells, c: Cell, f: Cell -> bool)
    ensures Rows(t, f) == (if f(c) then At(t, c) else multiset{}) + Rows(t - {c}, f)
  {
    hide Rows;
    if c in t {
      RowsRemove(t, c, f);
    } else {
      assert t - {c} == t;
      Nothing(Rows(t, f));
    }
  }

  /** Putting one more row into a table raises a range's sum by exactly that row, or by nothing if it
      lies elsewhere. */
  lemma RowsPut(t: Cells, c: Cell, d: multiset<nat>, f: Cell -> bool)
    requires c !in t
    ensures Rows(t[c := d], f) == (if f(c) then d else multiset{}) + Rows(t, f)
  {
    hide Rows;
    RowsRemove(t[c := d], c, f);
    assert t[c := d] - {c} == t;
  }

  /** Only the rows that satisfy f decide, and rows that hold nothing do not. */
  lemma {:induction false} RowsAgree(t: Cells, u: Cells, f: Cell -> bool, h: Cell -> bool)
    requires forall c: Cell :: (if f(c) then At(t, c) else multiset{}) == if h(c) then At(u, c) else multiset{}
    ensures Rows(t, f) == Rows(u, h)
    decreases |t| + |u|
  {
    hide Rows, SomeCell;
    if t == map[] && u == map[] {
      NoRows(f);
      NoRows(h);
    } else {
      var c := if t != map[] then SomeCell(t) else SomeCell(u);
      if t != map[] { RowsStep(t, f); } else { RowsStep(u, h); }
      assert c in t || c in u;
      forall d: Cell
        ensures (if f(d) then At(t - {c}, d) else multiset{}) == if h(d) then At(u - {c}, d) else multiset{}
      {
        assert (if f(d) then At(t, d) else multiset{}) == if h(d) then At(u, d) else multiset{};
      }
      RowsAgree(t - {c}, u - {c}, f, h);
      RowsWithout(t, c, f);
      RowsWithout(u, c, h);
    }
  }

  /** Rows of one kind and of another, when no row is of both. */
  lemma {:induction false} RowsSplit(t: Cells, f: Cell -> bool, a: Cell -> bool, b: Cell -> bool)
    requires forall c: Cell :: (f(c) <==> a(c) || b(c)) && !(a(c) && b(c))
    ensures Rows(t, f) == Rows(t, a) + Rows(t, b)
    decreases |t|
  {
    hide Rows, SomeCell;
    if t == map[] {
      NoRows(f);
      NoRows(a);
      NoRows(b);
    } else {
      RowsStep(t, f);
      var c := SomeCell(t);
      RowsSplit(t - {c}, f, a, b);
      RowsRemove(t, c, a);
      RowsRemove(t, c, b);
      assert f(c) <==> a(c) || b(c);
    }
  }

  lemma RowsOfOne(t: Cells, x: Cell)
    ensures Rows(t, (c: Cell) => c == x) == At(t, x)
  {
    hide Rows;
    var f := (c: Cell) => c == x;
    RowsWithout(t, x, f);
    RowsAgree(t - {x}, map[], f, f);
    NoRows(f);
    Nothing(At(t, x));
  }

  /** The sum of a range is what its rows hold, each row counted once. */
  lemma {:induction false} SumIsRows(t: Cells, s: nat, lo: int, hi: int)
    ensures SumRange(t, s, lo, hi) == Rows(t, OfSeries(s, lo, hi))
    decreases hi - lo
  {
    hide Rows;
    if lo >= hi {
      RowsAgree(t, map[], OfSeries(s, lo, hi), OfSeries(s, lo, hi));
      NoRows(OfSeries(s, lo, hi));
    } else {
      SumIsRows(t, s, lo + 1, hi);
      RowsSplit(t, OfSeries(s, lo, hi), (c: Cell) => c == Cell(lo, s), OfSeries(s, lo + 1, hi));
      RowsOfOne(t, Cell(lo, s));
    }
  }

  /** One row of a range, and nothing else in it: the sum is that row. */
  lemma OneRow(t: Cells, c: Cell, lo: int, hi: int)
    requires c in t && lo <= c.window < hi
    requires forall d :: d in t && d.series == c.series && lo <= d.window < hi ==> d == c
    ensures SumRange(t, c.series, lo, hi) == t[c]
  {
    hide Rows;
    SumIsRows(t, c.series, lo, hi);
    RowsAgree(t, t, OfSeries(c.series, lo, hi), (d: Cell) => d == c);
    RowsOfOne(t, c);
  }
}
