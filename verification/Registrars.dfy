/**
 The dictionary registrar: value to ID and back, staged rows, the overflow sentinel of each
 namespace, the counts its caps are checked against, and the fence of a sweep under way.

 Text lengths are counted in characters. Values other than sentinels are assumed to differ from
 the sentinel's text.
 */
module Registrars {
  import opened Registries
  import opened Sets

  const OTHER: string := "__other__"
  const TENANT_KIND: nat := 1
  const MAX_ID: nat := 0xFFFF_FFFF

  datatype Namespace = Namespace(tenant: nat, kind: nat)

  datatype Entry = Entry(space: Namespace, text: string)

  /** A missing cap is no cap. */
  datatype Bounds = Bounds(maxText: nat, maxTenantText: nat, maxTenants: nat, perSpace: map<nat, nat>, perKind: map<nat, nat>)

  function Count<K>(m: map<K, nat>, k: K): nat { if k in m then m[k] else 0 }

  /** The entries of a namespace, and of a kind, that count against its cap. */
  function InSpace(keys: map<nat, Entry>, space: Namespace): set<nat> {
    set id | id in keys && keys[id].space == space && keys[id].text != OTHER
  }

  function OfKind(keys: map<nat, Entry>, kind: nat): set<nat> {
    set id | id in keys && keys[id].space.kind == kind && keys[id].text != OTHER
  }

  ghost predicate CountsOk(counts: map<Namespace, nat>, kindCounts: map<nat, nat>, tenants: nat, keys: map<nat,
                           Entry>) {
    && (forall space :: Count(counts, space) == |InSpace(keys, space)|)
    && (forall kind :: Count(kindCounts, kind) == |OfKind(keys, kind)|)
    && tenants == |OfKind(keys, TENANT_KIND)|
  }

  ghost predicate OthersOk(other: map<Namespace, nat>, keys: map<nat, Entry>) {
    && (forall space :: space in other ==> other[space] in keys && keys[other[space]] == Entry(space, OTHER))
    && (forall id :: id in keys && keys[id].text == OTHER ==> keys[id].space in other && other[keys[id].space] == id)
  }

  function Raised<K>(m: map<K, nat>, k: K): map<K, nat> { m[k := Count(m, k) + 1] }

  function Lowered<K(==)>(m: map<K, nat>, k: K): map<K, nat> {
    if Count(m, k) == 0 then m else m[k := m[k] - 1]
  }

  /** Drops a count that reached zero. */
  function Trimmed<K(==)>(m: map<K, nat>, k: K): map<K, nat> { if k in m && m[k] == 0 then m - {k} else m }

  lemma SpaceAfterMint(keys: map<nat, Entry>, id: nat, e: Entry, space: Namespace)
    requires id !in keys && e.text != OTHER
    ensures |InSpace(keys[id := e], space)| == |InSpace(keys, space)| + if space == e.space then 1 else 0
  {
    assert InSpace(keys[id := e], space) == InSpace(keys, space) + if space == e.space then {id} else {};
  }

  lemma KindAfterMint(keys: map<nat, Entry>, id: nat, e: Entry, kind: nat)
    requires id !in keys && e.text != OTHER
    ensures |OfKind(keys[id := e], kind)| == |OfKind(keys, kind)| + if kind == e.space.kind then 1 else 0
  {
    assert OfKind(keys[id := e], kind) == OfKind(keys, kind) + if kind == e.space.kind then {id} else {};
  }

  lemma CountsAfterMint(counts: map<Namespace, nat>, kindCounts: map<nat, nat>, tenants: nat, keys: map<nat, Entry>,
                        id: nat, e: Entry)
    requires CountsOk(counts, kindCounts, tenants, keys) && id !in keys && e.text != OTHER
    ensures CountsOk(Raised(counts, e.space), Raised(kindCounts, e.space.kind),
                     if e.space.kind == TENANT_KIND then tenants + 1 else tenants, keys[id := e])
  {
    hide InSpace, OfKind;
    forall space ensures Count(Raised(counts, e.space), space) == |InSpace(keys[id := e], space)| {
      SpaceAfterMint(keys, id, e, space);
    }
    forall kind ensures Count(Raised(kindCounts, e.space.kind), kind) == |OfKind(keys[id := e], kind)| {
      KindAfterMint(keys, id, e, kind);
    }
    KindAfterMint(keys, id, e, TENANT_KIND);
  }

  lemma CountsAfterOther(counts: map<Namespace, nat>, kindCounts: map<nat, nat>, tenants: nat, keys: map<nat, Entry>,
                         id: nat, space: Namespace)
    requires CountsOk(counts, kindCounts, tenants, keys) && id !in keys
    ensures CountsOk(counts, kindCounts, tenants, keys[id := Entry(space, OTHER)])
  {
    var n := keys[id := Entry(space, OTHER)];
    forall s ensures InSpace(n, s) == InSpace(keys, s) { }
    forall kind ensures OfKind(n, kind) == OfKind(keys, kind) { }
  }

  /** The counts of what a forgotten entry leaves, whether a count that reached zero is kept or
      dropped. */
  lemma CountsAfterForget(counts: map<Namespace, nat>, kindCounts: map<nat, nat>, tenants: nat, keys: map<nat, Entry>,
                          id: nat, lowered: map<Namespace, nat>)
    requires CountsOk(counts, kindCounts, tenants, keys) && id in keys && keys[id].text != OTHER
    requires forall space :: Count(lowered, space) == Count(Lowered(counts, keys[id].space), space)
    ensures tenants > 0 || keys[id].space.kind != TENANT_KIND
    ensures CountsOk(lowered, Lowered(kindCounts, keys[id].space.kind),
                     if keys[id].space.kind == TENANT_KIND then tenants - 1 else tenants, keys - {id})
  {
    hide InSpace, OfKind;
    var e, n := keys[id], keys - {id};
    assert n[id := e] == keys;
    forall space ensures Count(lowered, space) == |InSpace(n, space)| {
      SpaceAfterMint(n, id, e, space);
    }
    forall kind ensures Count(Lowered(kindCounts, e.space.kind), kind) == |OfKind(n, kind)| {
      KindAfterMint(n, id, e, kind);
    }
    KindAfterMint(n, id, e, TENANT_KIND);
  }

  /** Some cap leaves no room for one more entry of a namespace. */
  predicate Full(b: Bounds, counts: map<Namespace, nat>, kindCounts: map<nat, nat>, tenants: nat, space: Namespace) {
    || (space.kind == TENANT_KIND && tenants >= b.maxTenants)
    || (space.kind in b.perSpace && Count(counts, space) >= b.perSpace[space.kind])
    || (space.kind in b.perKind && Count(kindCounts, space.kind) >= b.perKind[space.kind])
  }

  ghost predicate WithinCaps(b: Bounds, keys: map<nat, Entry>) {
    && |OfKind(keys, TENANT_KIND)| <= b.maxTenants
    && (forall s: Namespace :: s.kind in b.perSpace ==> |InSpace(keys, s)| <= b.perSpace[s.kind])
    && (forall kind :: kind in b.perKind ==> |OfKind(keys, kind)| <= b.perKind[kind])
  }

  lemma MintStaysWithinCaps(b: Bounds, counts: map<Namespace, nat>, kindCounts: map<nat, nat>, tenants: nat,
                            keys: map<nat, Entry>, id: nat, e: Entry)
    requires CountsOk(counts, kindCounts, tenants, keys) && id !in keys && e.text != OTHER
    requires WithinCaps(b, keys) && !Full(b, counts, kindCounts, tenants, e.space)
    ensures WithinCaps(b, keys[id := e])
  {
    hide InSpace, OfKind;
    KindAfterMint(keys, id, e, TENANT_KIND);
    forall s: Namespace | s.kind in b.perSpace ensures |InSpace(keys[id := e], s)| <= b.perSpace[s.kind] {
      SpaceAfterMint(keys, id, e, s);
    }
    forall kind | kind in b.perKind ensures |OfKind(keys[id := e], kind)| <= b.perKind[kind] {
      KindAfterMint(keys, id, e, kind);
    }
  }

  lemma OtherStaysWithinCaps(b: Bounds, keys: map<nat, Entry>, id: nat, space: Namespace)
    requires id !in keys && WithinCaps(b, keys)
    ensures WithinCaps(b, keys[id := Entry(space, OTHER)])
  {
    var n := keys[id := Entry(space, OTHER)];
    forall s ensures InSpace(n, s) == InSpace(keys, s) { }
    forall kind ensures OfKind(n, kind) == OfKind(keys, kind) { }
  }

  lemma OthersAfterMint(other: map<Namespace, nat>, keys: map<nat, Entry>, id: nat, e: Entry)
    requires OthersOk(other, keys) && id !in keys && e.text != OTHER
    ensures OthersOk(other, keys[id := e])
  {
  }

  lemma OthersAfterOther(other: map<Namespace, nat>, keys: map<nat, Entry>, id: nat, space: Namespace)
    requires OthersOk(other, keys) && id !in keys && space !in other
    ensures OthersOk(other[space := id], keys[id := Entry(space, OTHER)])
  {
  }

  lemma OthersAfterForget(other: map<Namespace, nat>, keys: map<nat, Entry>, id: nat)
    requires OthersOk(other, keys) && id in keys && id !in other.Values
    ensures OthersOk(other, keys - {id}) && keys[id].text != OTHER
  {
    forall space | space in other ensures other[space] != id {
      assert other[space] in other.Values;
    }
  }

  lemma NoOtherYet(other: map<Namespace, nat>, ids: map<Entry, nat>, keys: map<nat, Entry>, space: Namespace)
    requires OthersOk(other, keys) && Inverses(ids, keys) && space !in other
    ensures Entry(space, OTHER) !in ids
  {
  }

  lemma KnownEntry<K(!new)>(ids: map<K, nat>, keys: map<nat, K>)
    requires Inverses(ids, keys)
    ensures forall k :: k in ids ==> ids[k] in keys && keys[ids[k]] == k
  {
  }

  lemma InversesAfterMint<K(!new)>(ids: map<K, nat>, keys: map<nat, K>, id: nat, k: K)
    requires Inverses(ids, keys) && id !in keys && k !in ids
    ensures Inverses(ids[k := id], keys[id := k])
  {
  }

  lemma InversesAfterForget<K(!new)>(ids: map<K, nat>, keys: map<nat, K>, id: nat)
    requires Inverses(ids, keys) && id in keys
    ensures Inverses(ids - {keys[id]}, keys - {id}) && ids - {keys[id]} == Without(ids, {id})
  {
  }

  lemma WithoutOneMore<K(!new)>(ids: map<K, nat>, keys: map<nat, K>, done: set<nat>, id: nat)
    requires Inverses(ids, keys)
    ensures Without(Without(ids, done), {id}) == Without(ids, done + {id})
    ensures id !in keys ==> Without(ids, done + {id}) == Without(ids, done)
    ensures Without(ids, {}) == ids
  {
  }

  class Registrar {
    const bounds: Bounds
    var ids: map<Entry, nat>
    var byID: map<nat, Entry>
    var pending: set<nat>
    var touched: set<nat>
    var next: nat
    var other: map<Namespace, nat>
    var counts: map<Namespace, nat>
    var kindCounts: map<nat, nat>
    var tenants: nat
    var fenced: set<nat>

    ghost predicate Valid()
      reads this
    {
      && Inverses(ids, byID)
      && pending <= byID.Keys && touched <= byID.Keys
      && (forall id :: id in byID ==> 0 < id < next)
      && 0 < next <= MAX_ID
      && OthersOk(other, byID)
      && CountsOk(counts, kindCounts, tenants, byID)
    }

    function View(): Registry<Entry>
      reads this
    {
      Registry(ids, byID, pending, touched, next)
    }

    constructor (b: Bounds)
      ensures Valid() && bounds == b && View() == Registry(map[], map[], {}, {}, 1) && fenced == {}
    {
      bounds := b;
      ids, byID, pending, touched, next := map[], map[], {}, {}, 1;
      other, counts, kindCounts, tenants, fenced := map[], map[], map[], 0, {};
    }

    function TextCap(kind: nat): nat { if kind == TENANT_KIND then bounds.maxTenantText else bounds.maxText }

    /** A value gets no ID: it cannot be stored, its ID is fenced, or it is new and there is no
        room. */
    predicate Refuses(space: Namespace, text: string)
      reads this
    {
      var e := Entry(space, text);
      text == "" || |text| > TextCap(space.kind)
      || if e in ids then ids[e] in fenced else Full(bounds, counts, kindCounts, tenants, space) || next == MAX_ID
    }

    method Register(space: Namespace, text: string) returns (id: nat)
      requires Valid() && text != OTHER
      modifies this
      ensures Valid() && fenced == old(fenced) && other == old(other)
      ensures id == 0 <==> old(Refuses(space, text))
      ensures id == 0 ==> View() == old(View())
      ensures id != 0 && Entry(space, text) in old(ids) ==> View() == HandedOut(old(View()), id)
      ensures id != 0 && Entry(space, text) !in old(ids) ==> View() == Minted(old(View()), Entry(space, text))
      ensures id != 0 ==> id in byID && byID[id] == Entry(space, text)
      ensures WithinCaps(bounds, old(byID)) ==> WithinCaps(bounds, byID)
    {
      hide CountsOk, OthersOk, Count, Full, WithinCaps, Inverses;
      KnownEntry(ids, byID);
      var e := Entry(space, text);
      if text == "" || |text| > TextCap(space.kind) { return 0; }
      if e in ids {
        if ids[e] in fenced { return 0; }
        touched := touched + {ids[e]};
        return ids[e];
      }
      if Full(bounds, counts, kindCounts, tenants, space) || next == MAX_ID { return 0; }
      CountsAfterMint(counts, kindCounts, tenants, byID, next, e);
      if WithinCaps(bounds, byID) { MintStaysWithinCaps(bounds, counts, kindCounts, tenants, byID, next, e); }
      OthersAfterMint(other, byID, next, e);
      InversesAfterMint(ids, byID, next, e);
      id := Mint(e);
      counts := Raised(counts, space);
      kindCounts := Raised(kindCounts, space.kind);
      if space.kind == TENANT_KIND { tenants := tenants + 1; }
    }

    /** Allocates an ID and stages its row. */
    method Mint(e: Entry) returns (id: nat)
      modifies `ids, `byID, `pending, `touched, `next
      ensures id == old(next) && View() == Minted(old(View()), e)
    {
      id := next;
      next := next + 1;
      ids := ids[e := id];
      pending, byID, touched := pending + {id}, byID[id := e], touched + {id};
    }

    /** The overflow ID of a namespace, outside every cap; there is none for tenants. */
    method OtherID(space: Namespace) returns (id: nat)
      requires Valid()
      modifies this
      ensures Valid() && fenced == old(fenced)
      ensures id == 0 <==> space.kind == TENANT_KIND || (space !in old(other) && old(next) == MAX_ID)
      ensures id == 0 ==> View() == old(View()) && other == old(other)
      ensures id != 0 && space in old(other) ==> View() == HandedOut(old(View()), id) && other == old(other)
      ensures id != 0 && space !in old(other) ==>
        View() == Minted(old(View()), Entry(space, OTHER)) && other == old(other)[space := id]
      ensures id != 0 ==> id in byID && byID[id] == Entry(space, OTHER)
      ensures WithinCaps(bounds, old(byID)) ==> WithinCaps(bounds, byID)
    {
      hide CountsOk, Count, WithinCaps;
      if space.kind == TENANT_KIND { return 0; }
      if space in other {
        id := other[space];
        touched := touched + {id};
        return;
      }
      if next == MAX_ID { return 0; }
      CountsAfterOther(counts, kindCounts, tenants, byID, next, space);
      if WithinCaps(bounds, byID) { OtherStaysWithinCaps(bounds, byID, next, space); }
      OthersAfterOther(other, byID, next, space);
      NoOtherYet(other, ids, byID, space);
      InversesAfterMint(ids, byID, next, Entry(space, OTHER));
      id := Mint(Entry(space, OTHER));
      other := other[space := id];
    }

    /** The staged rows, which stay staged until they are reported durable. */
    method DrainPending() returns (rows: map<nat, Entry>)
      requires Valid()
      ensures rows == Staged(View())
    {
      rows := map[];
      var rest := pending;
      while rest != {}
        invariant rest <= pending && rows.Keys == pending - rest
        invariant forall id :: id in rows ==> rows[id] == byID[id]
      {
        var id := PickOne(rest);
        rows := rows[id := byID[id]];
        rest := rest - {id};
      }
    }

    method Committed(rows: set<nat>)
      requires Valid()
      modifies `pending
      ensures Valid() && pending == old(pending) - rows
    {
      var rest := rows;
      while rest != {}
        invariant rest <= rows && pending == old(pending) - (rows - rest)
      {
        var id := PickOne(rest);
        pending := pending - {id};
        rest := rest - {id};
      }
    }

    method Fence(doomed: set<nat>)
      requires Valid()
      modifies `fenced
      ensures Valid() && fenced == old(fenced) + doomed
    {
      fenced := fenced + doomed;
    }

    method Unfence()
      requires Valid()
      modifies `fenced
      ensures Valid() && fenced == {}
    {
      fenced := {};
    }

    /** The candidates that can no longer be handed out. */
    method Revalidate(candidates: set<nat>) returns (kept: set<nat>)
      requires Valid()
      ensures kept == candidates - pending - touched - other.Values
    {
      kept := candidates;
      var rest := candidates;
      while rest != {}
        invariant rest <= candidates
        invariant kept == candidates - ((candidates - rest) * (pending + touched))
      {
        var id := PickOne(rest);
        if id in pending || id in touched { kept := kept - {id}; }
        rest := rest - {id};
      }
      var spaces := other.Keys;
      while spaces != {}
        invariant spaces <= other.Keys
        invariant kept == candidates - pending - touched - (set s | s in other.Keys - spaces :: other[s])
      {
        var s := PickOne(spaces);
        kept := kept - {other[s]};
        spaces := spaces - {s};
      }
      assert other.Values == set s | s in other.Keys - spaces :: other[s];
    }

    /** The rows are gone: the maps and the counts forget them. */
    method Forget(gone: set<nat>)
      requires Valid() && gone !! pending && gone !! other.Values
      modifies this
      ensures Valid() && View() == Forgotten(old(View()), gone) && fenced == {} && other == old(other)
    {
      hide CountsOk, OthersOk, Inverses, Without;
      var rest := gone;
      ghost var done := {};
      touched := {};
      WithoutOneMore(ids, byID, {}, 0);
      while rest != {}
        invariant rest <= gone && done == gone - rest && Valid() && touched == {}
        invariant pending == old(pending) && next == old(next) && other == old(other)
        invariant byID == old(byID) - done && ids == Without(old(ids), done)
      {
        var id := PickOne(rest);
        WithoutOneMore(old(ids), old(byID), done, id);
        if id in byID { ForgetOne(id); }
        rest, done := rest - {id}, done + {id};
      }
      assert done == gone;
      fenced := {};
    }

    method ForgetOne(id: nat)
      requires Valid() && id in byID && id !in pending && id !in touched && id !in other.Values
      modifies `ids, `byID, `counts, `kindCounts, `tenants
      ensures Valid() && byID == old(byID) - {id} && ids == Without(old(ids), {id})
    {
      hide CountsOk, OthersOk, Inverses, Without;
      var e := byID[id];
      InversesAfterForget(ids, byID, id);
      OthersAfterForget(other, byID, id);
      CountsAfterForget(counts, kindCounts, tenants, byID, id, Trimmed(Lowered(counts, e.space), e.space));
      ids := ids - {e};
      byID := byID - {id};
      counts := Trimmed(Lowered(counts, e.space), e.space);
      kindCounts := Lowered(kindCounts, e.space.kind);
      if e.space.kind == TENANT_KIND && tenants > 0 { tenants := tenants - 1; }
    }
  }
}
