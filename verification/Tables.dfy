/**
 Keyed rows of merged contributions. A row's value is the multiset of the contributions merged
 into it, so merging is the union that counts each contribution, and any additive measure of a
 delta (its count, its errors, its requests) is a sum over it.
 */
module Tables {
  import opened Cardinality

  datatype Row = Row(window: int, key: SeriesKey)

  type Table = map<Row, multiset<nat>>

  function At(t: Table, r: Row): multiset<nat> { if r in t then t[r] else multiset{} }

  /** Every row of u merged into t. */
  function Plus(t: Table, u: Table): Table { map r | r in t.Keys + u.Keys :: At(t, r) + At(u, r) }

  function WindowsOf(t: Table): set<int> { set r | r in t :: r.window }

  function Only(t: Table, ws: set<int>): Table { map r | r in t && r.window in ws :: t[r] }

  function Except(t: Table, ws: set<int>): Table { map r | r in t && r.window !in ws :: t[r] }

  function Above(t: Table, cutoff: int): Table { map r | r in t && r.window > cutoff :: t[r] }

  function UpToCutoff(t: Table, cutoff: int): Table { map r | r in t && r.window <= cutoff :: t[r] }

  lemma PlusAt(t: Table, u: Table, r: Row)
    ensures At(Plus(t, u), r) == At(t, r) + At(u, r)
  {
  }

  lemma AboveAt(t: Table, cutoff: int, r: Row)
    ensures At(Above(t, cutoff), r) == if r.window > cutoff then At(t, r) else multiset{}
    ensures forall x :: x in WindowsOf(Above(t, cutoff)) ==> x > cutoff
  {
    AboveWindows(t, cutoff);
  }

  lemma AboveWindows(t: Table, cutoff: int)
    ensures forall x :: x in WindowsOf(Above(t, cutoff)) ==> x > cutoff
  {
  }

  lemma WindowOf(t: Table, r: Row)
    ensures r in t ==> r.window in WindowsOf(t)
    ensures At(t, r) != multiset{} ==> r.window in WindowsOf(t)
  {
  }

  lemma PlusWindows(t: Table, u: Table)
    ensures WindowsOf(Plus(t, u)) == WindowsOf(t) + WindowsOf(u)
  {
    KeysDecideWindows(t.Keys, u.Keys, Plus(t, u).Keys);
    SameWindows(t);
    SameWindows(u);
    SameWindows(Plus(t, u));
  }

  function WindowsOfKeys(keys: set<Row>): set<int> { set r | r in keys :: r.window }

  lemma SameWindows(t: Table)
    ensures WindowsOf(t) == WindowsOfKeys(t.Keys)
  {
  }

  lemma KeysDecideWindows(a: set<Row>, b: set<Row>, c: set<Row>)
    requires c == a + b
    ensures WindowsOfKeys(c) == WindowsOfKeys(a) + WindowsOfKeys(b)
  {
  }

  lemma PlusKeysOf(t: Table, u: Table)
    ensures Plus(t, u).Keys == t.Keys + u.Keys
  {
  }

  lemma SameTable(t: Table, u: Table)
    requires t.Keys == u.Keys && forall r :: At(t, r) == At(u, r)
    ensures t == u
  {
    forall r | r in t ensures t[r] == u[r] {
      assert At(t, r) == At(u, r);
    }
  }
}
