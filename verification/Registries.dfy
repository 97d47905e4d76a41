/**
 Identity maps that stage what they mint: values to IDs, IDs to values, the staged rows, and the
 IDs handed out since the last sweep. The dictionary registrar and the series registry are two
 instances of the same pattern. A table is the durable half: its rows, its persisted
 high-watermark, and, as history, every row it ever held.
 */
module Registries {
  import opened Sets

  datatype Registry<K> = Registry(ids: map<K, nat>, keys: map<nat, K>, pending: set<nat>, touched: set<nat>, next: nat)

  datatype Table<K> = Table(rows: map<nat, K>, mark: nat, ever: map<nat, K>)

  /** The two maps undo each other. */
  ghost predicate Inverses<K(!new)>(ids: map<K, nat>, keys: map<nat, K>) {
    && (forall k :: k in ids ==> ids[k] in keys && keys[ids[k]] == k)
    && (forall id :: id in keys ==> keys[id] in ids && ids[keys[id]] == id)
  }

  /** The maps hold the durable rows and the staged ones and nothing else. */
  ghost predicate InStep<K(!new)>(t: Table<K>, r: Registry<K>) {
    && Inverses(r.ids, r.keys)
    && r.keys.Keys == t.rows.Keys + r.pending
    && r.pending !! t.rows.Keys
    && (forall id :: id in t.rows ==> id in r.keys && t.rows[id] == r.keys[id])
    && r.touched <= r.keys.Keys
  }

  /** No ID is ever durable for two things: the watermark is past every ID the table ever held,
      and the counter is at or past the watermark and past every ID in the maps. */
  ghost predicate Fresh<K(!new)>(t: Table<K>, r: Registry<K>) {
    && (forall id :: id in t.rows ==> id in t.ever && t.ever[id] == t.rows[id])
    && (forall id :: id in t.ever ==> id < t.mark)
    && t.mark <= r.next && 0 < r.next
    && (forall id :: id in r.keys ==> 0 < id < r.next)
    && (forall id :: id in r.pending ==> id !in t.ever)
  }

  ghost predicate Sound<K(!new)>(t: Table<K>, r: Registry<K>) { InStep(t, r) && Fresh(t, r) }

  // ---------------------------------------------------------------------------------------
  // The operations.

  function HandedOut<K>(r: Registry<K>, id: nat): Registry<K> {
    Registry(r.ids, r.keys, r.pending, r.touched + {id}, r.next)
  }

  /** A new ID for a key: staged, and handed out. */
  function Minted<K(==)>(r: Registry<K>, k: K): Registry<K> {
    Registry(r.ids[k := r.next], r.keys[r.next := k], r.pending + {r.next}, r.touched + {r.next}, r.next + 1)
  }

  /** The staged rows. */
  function Staged<K>(r: Registry<K>): map<nat, K> { map id | id in r.pending && id in r.keys :: r.keys[id] }

  /** The staged rows become durable, and the watermark covers them. */
  ghost function Landed<K>(t: Table<K>, r: Registry<K>): Table<K> {
    Table(t.rows + Staged(r), Over(Staged(r).Keys, t.mark), t.ever + Staged(r))
  }

  function Drained<K>(r: Registry<K>): Registry<K> { Registry(r.ids, r.keys, {}, r.touched, r.next) }

  function Deleted<K>(t: Table<K>, gone: set<nat>): Table<K> { Table(t.rows - gone, t.mark, t.ever) }

  function Forgotten<K(==)>(r: Registry<K>, gone: set<nat>): Registry<K> {
    Registry(Without(r.ids, gone), r.keys - gone, r.pending, {}, r.next)
  }

  function Without<K(==)>(m: map<K, nat>, gone: set<nat>): map<K, nat> { map k | k in m && m[k] !in gone :: m[k] }

  /** A new process reads its maps back, and counts on from the rows and the watermark. */
  ghost function Warmed<K(!new)>(t: Table<K>): Registry<K> {
    Registry(ReadBack(t.rows), t.rows, {}, {}, Over(t.rows.Keys, if t.mark > 1 then t.mark else 1))
  }

  ghost function ReadBack<K(!new)>(rows: map<nat, K>): map<K, nat> { map k | k in rows.Values :: IdOf(rows, k) }

  ghost function IdOf<K(!new)>(rows: map<nat, K>, k: K): (id: nat)
    requires k in rows.Values
    ensures id in rows && rows[id] == k
  {
    var id :| id in rows && rows[id] == k;
    id
  }

  /** The least number at or above a mark and above every ID. */
  ghost function Over(ids: set<nat>, mark: nat): (m: nat)
    ensures m >= mark && forall id :: id in ids ==> id < m
    ensures m == mark || m - 1 in ids
  {
    if ids == {} then mark
    else
      var top := Greatest(ids);
      if top < mark then mark else top + 1
  }

  ghost function Greatest(ids: set<nat>): (m: nat)
    requires ids != {}
    ensures m in ids && forall id :: id in ids ==> id <= m
  {
    GreatestExists(ids);
    var m :| m in ids && forall id :: id in ids ==> id <= m;
    m
  }

  lemma {:induction false} GreatestExists(ids: set<nat>)
    requires ids != {}
    ensures exists m :: m in ids && forall id :: id in ids ==> id <= m
  {
    var x := Pick(ids);
    var rest := ids - {x};
    assert ids == rest + {x};
    if rest == {} {
      assert x in ids && forall y :: y in ids ==> y <= x;
    } else {
      GreatestExists(rest);
      var m :| m in rest && forall y :: y in rest ==> y <= m;
      var top := if m > x then m else x;
      assert top in ids && forall y :: y in ids ==> y <= top;
    }
  }

  // ---------------------------------------------------------------------------------------
  // Each keeps the maps sound.

  lemma HandOutKeeps<K(!new)>(t: Table<K>, r: Registry<K>, id: nat)
    requires Sound(t, r) && id in r.keys
    ensures Sound(t, HandedOut(r, id))
  {
  }

  lemma MintKeeps<K(!new)>(t: Table<K>, r: Registry<K>, k: K)
    requires Sound(t, r) && k !in r.ids
    ensures Sound(t, Minted(r, k))
  {
    var m := Minted(r, k);
    assert m.keys.Keys == r.keys.Keys + {r.next};
  }

  /** Minting keeps the maps inverse exactly when the key has no ID yet. A second ID for a key is
      what an ordinary value spelled like the overflow sentinel would get. */
  lemma MintIsSafeExactly<K(!new)>(t: Table<K>, r: Registry<K>, k: K)
    requires Sound(t, r)
    ensures Inverses(Minted(r, k).ids, Minted(r, k).keys) <==> k !in r.ids
  {
    if k in r.ids {
      assert r.ids[k] in Minted(r, k).keys && Minted(r, k).keys[r.ids[k]] == k;
    }
  }

  lemma LandKeeps<K(!new)>(t: Table<K>, r: Registry<K>)
    requires Sound(t, r)
    ensures Sound(Landed(t, r), Drained(r))
    ensures Landed(t, r).rows.Keys == r.keys.Keys
    ensures forall id :: id in t.ever ==> id in Landed(t, r).ever && Landed(t, r).ever[id] == t.ever[id]
  {
    assert Staged(r).Keys == r.pending;
  }

  lemma ForgetKeeps<K(!new)>(t: Table<K>, r: Registry<K>, gone: set<nat>)
    requires Sound(t, r) && gone !! r.pending
    ensures Sound(Deleted(t, gone), Forgotten(r, gone))
  {
  }

  lemma WarmKeeps<K(!new)>(t: Table<K>, r: Registry<K>)
    requires Sound(t, r)
    ensures Sound(t, Warmed(t))
  {
    forall id | id in t.rows
      ensures t.rows[id] in t.rows.Values && ReadBack(t.rows)[t.rows[id]] == id
    {
      var k := t.rows[id];
      assert k in t.rows.Values;
      var other := IdOf(t.rows, k);
      assert r.keys[other] == k && r.keys[id] == k;
    }
  }
}
