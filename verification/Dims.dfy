/**
 Dimension tuples: the canonical byte form of a set of (key ID, value ID) pairs, which is the
 value a tuple is interned under, and the IDs the collector reads back out of it.
 */
module Dims {
  import opened Wire

  type ID = n: nat | n < 0x1_0000_0000

  datatype Pair = Pair(key: ID, value: ID)

  predicate Before(a: Pair, b: Pair) { a.key < b.key || (a.key == b.key && a.value <= b.value) }

  predicate Ordered(ps: seq<Pair>) { forall i, j :: 0 <= i < j < |ps| ==> Before(ps[i], ps[j]) }

  function Encoded(ps: seq<Pair>): seq<Byte> {
    if ps == [] then [] else UvarintBytes(ps[0].key) + (UvarintBytes(ps[0].value) + Encoded(ps[1..]))
  }

  /** The IDs a tuple names; zero names nothing. */
  function IDs(ps: seq<Pair>): set<nat> { (set p | p in ps :: p.key) + (set p | p in ps :: p.value) - {0} }

  /** What the collector reads out of a tuple: pair by pair until the first that does not parse,
      leaving out what is no ID. */
  function Components(enc: seq<Byte>): set<nat>
    decreases |enc|
  {
    var key := ReadUvarint(enc);
    if key.Err? then {}
    else
      var value := ReadUvarint(key.value.rest);
      if value.Err? then {}
      else Marked(key.value.value, value.value.value) + Components(value.value.rest)
  }

  function Marked(key: nat, value: nat): set<nat> {
    (if 0 < key < 0x1_0000_0000 then {key} else {}) + if 0 < value < 0x1_0000_0000 then {value} else {}
  }

  // ---------------------------------------------------------------------------------------

  lemma PairReadsBack(p: Pair, rest: seq<Byte>)
    ensures
      var enc := UvarintBytes(p.key) + (UvarintBytes(p.value) + rest);
      && ReadUvarint(enc) == Ok(Read(p.key, UvarintBytes(p.value) + rest))
      && ReadUvarint(UvarintBytes(p.value) + rest) == Ok(Read(p.value, rest))
  {
    hide ReadUvarint, UvarintBytes;
    VarintReadsBack(p.key, UvarintBytes(p.value) + rest);
    VarintReadsBack(p.value, rest);
  }

  /** Every ID of a tuple is marked, and nothing else: collecting a tuple's parts is exact. */
  lemma {:induction false} ComponentsOfEncoded(ps: seq<Pair>)
    ensures Components(Encoded(ps)) == IDs(ps)
  {
    hide ReadUvarint, UvarintBytes;
    if ps == [] {
      EmptyHasNone();
    } else {
      PairReadsBack(ps[0], Encoded(ps[1..]));
      ComponentsOfEncoded(ps[1..]);
      assert ps == [ps[0]] + ps[1..];
    }
  }

  lemma EmptyHasNone()
    ensures Components([]) == {} && Encoded([]) == [] && IDs([]) == {}
  {
  }

  /** The bytes determine the pairs. */
  lemma {:induction false} EncodedDetermines(ps: seq<Pair>, qs: seq<Pair>)
    requires Encoded(ps) == Encoded(qs)
    ensures ps == qs
  {
    hide ReadUvarint;
    if ps != [] && qs != [] {
      PairReadsBack(ps[0], Encoded(ps[1..]));
      PairReadsBack(qs[0], Encoded(qs[1..]));
      EncodedDetermines(ps[1..], qs[1..]);
      assert ps == [ps[0]] + ps[1..] && qs == [qs[0]] + qs[1..];
    }
  }

  lemma SameHead(ps: seq<Pair>, qs: seq<Pair>)
    requires ps != [] && Ordered(ps) && Ordered(qs) && multiset(ps) == multiset(qs)
    ensures qs != [] && ps[0] == qs[0]
  {
    assert ps[0] in multiset(qs);
    assert qs[0] in multiset(ps);
    assert Before(ps[0], qs[0]) && Before(qs[0], ps[0]);
  }

  lemma TailCounts(ps: seq<Pair>)
    requires ps != []
    ensures multiset(ps[1..]) == multiset(ps) - multiset{ps[0]}
  {
    assert ps == [ps[0]] + ps[1..];
  }

  /** The order puts equal collections of pairs in one way. */
  lemma {:induction false} OneOrder(ps: seq<Pair>, qs: seq<Pair>)
    requires Ordered(ps) && Ordered(qs) && multiset(ps) == multiset(qs)
    ensures ps == qs
  {
    if ps == [] {
      assert |multiset(qs)| == 0;
    } else {
      SameHead(ps, qs);
      TailCounts(ps);
      TailCounts(qs);
      OneOrder(ps[1..], qs[1..]);
      assert ps == [ps[0]] + ps[1..] && qs == [qs[0]] + qs[1..];
    }
  }

  /** Two sets of dimensions are interned as the same tuple exactly when they hold the same pairs,
      in whatever order they were given. */
  lemma SameTupleExactly(ps: seq<Pair>, qs: seq<Pair>, sortedPs: seq<Pair>, sortedQs: seq<Pair>)
    requires Ordered(sortedPs) && multiset(sortedPs) == multiset(ps)
    requires Ordered(sortedQs) && multiset(sortedQs) == multiset(qs)
    ensures Encoded(sortedPs) == Encoded(sortedQs) <==> multiset(ps) == multiset(qs)
  {
    if multiset(ps) == multiset(qs) { OneOrder(sortedPs, sortedQs); }
    if Encoded(sortedPs) == Encoded(sortedQs) { EncodedDetermines(sortedPs, sortedQs); }
  }

  // ---------------------------------------------------------------------------------------

  /** Sorts the pairs where they are and appends their encoding. */
  method AppendCanonicalDims(dst: seq<Byte>, pairs: array<Pair>) returns (out: seq<Byte>)
    modifies pairs
    ensures Ordered(pairs[..]) && multiset(pairs[..]) == multiset(old(pairs[..]))
    ensures out == dst + Encoded(pairs[..])
  {
    SortPairs(pairs);
    out := dst;
    var i := 0;
    while i < pairs.Length
      invariant i <= pairs.Length
      invariant out + Encoded(pairs[i..]) == dst + Encoded(pairs[..])
    {
      assert pairs[i..][0] == pairs[i] && pairs[i..][1..] == pairs[i + 1..];
      ghost var was := out;
      out := out + UvarintBytes(pairs[i].key) + UvarintBytes(pairs[i].value);
      assert out + Encoded(pairs[i + 1..])
          == was + (UvarintBytes(pairs[i].key) + (UvarintBytes(pairs[i].value) + Encoded(pairs[i + 1..])));
      i := i + 1;
    }
    assert pairs[i..] == [];
    assert out + [] == out;
  }

  ghost predicate SortedTo(pairs: array<Pair>, n: int)
    requires 0 <= n <= pairs.Length
    reads pairs
  {
    forall a, b :: 0 <= a < b < n ==> Before(pairs[a], pairs[b])
  }

  lemma BeforeIsTransitive(x: Pair, y: Pair, z: Pair)
    requires Before(x, y) && Before(y, z)
    ensures Before(x, z)
  {
  }

  lemma BeforeIsTotal(x: Pair, y: Pair)
    ensures Before(x, y) || Before(y, x)
  {
  }

  method SortPairs(pairs: array<Pair>)
    modifies pairs
    ensures Ordered(pairs[..]) && multiset(pairs[..]) == multiset(old(pairs[..]))
  {
    hide Before;
    var n := 0;
    while n < pairs.Length
      invariant 0 <= n <= pairs.Length && SortedTo(pairs, n)
      invariant multiset(pairs[..]) == multiset(old(pairs[..]))
    {
      Sink(pairs, n);
      n := n + 1;
    }
  }

  /** The place is found: everything below the pair at i comes before it. */
  lemma Settled(pairs: array<Pair>, i: nat, n: nat)
    requires i <= n < pairs.Length && (i == 0 || Before(pairs[i - 1], pairs[i]))
    requires forall a, b :: 0 <= a < b <= n && b != i ==> Before(pairs[a], pairs[b])
    requires forall b :: i < b <= n ==> Before(pairs[i], pairs[b])
    ensures SortedTo(pairs, n + 1)
  {
    hide Before;
    forall a | 0 <= a < i ensures Before(pairs[a], pairs[i]) {
      if a < i - 1 { BeforeIsTransitive(pairs[a], pairs[i - 1], pairs[i]); }
    }
  }

  method SwapDown(pairs: array<Pair>, i: nat)
    requires 0 < i < pairs.Length
    modifies pairs
    ensures multiset(pairs[..]) == multiset(old(pairs[..]))
    ensures pairs[i] == old(pairs[i - 1]) && pairs[i - 1] == old(pairs[i])
    ensures forall k :: 0 <= k < pairs.Length && k != i && k != i - 1 ==> pairs[k] == old(pairs[k])
  {
    pairs[i - 1], pairs[i] := pairs[i], pairs[i - 1];
  }

  /** Moves the pair at n down to its place among those below it. */
  method Sink(pairs: array<Pair>, n: nat)
    requires n < pairs.Length && SortedTo(pairs, n)
    modifies pairs
    ensures SortedTo(pairs, n + 1) && multiset(pairs[..]) == multiset(old(pairs[..]))
  {
    hide Before;
    var i := n;
    while i > 0 && !Before(pairs[i - 1], pairs[i])
      invariant 0 <= i <= n
      invariant multiset(pairs[..]) == multiset(old(pairs[..]))
      invariant forall a, b :: 0 <= a < b <= n && b != i ==> Before(pairs[a], pairs[b])
      invariant forall b :: i < b <= n ==> Before(pairs[i], pairs[b])
    {
      BeforeIsTotal(pairs[i - 1], pairs[i]);
      SwapDown(pairs, i);
      i := i - 1;
    }
    Settled(pairs, i, n);
  }

  method MarkDimComponents(enc: seq<Byte>, live: set<nat>) returns (marked: set<nat>)
    ensures marked == live + Components(enc)
  {
    marked := live;
    var rest := enc;
    while rest != []
      invariant marked + Components(rest) == live + Components(enc)
      decreases |rest|
    {
      var key := ReadUvarint(rest);
      if key.Err? { return; }
      var value := ReadUvarint(key.value.rest);
      if value.Err? { return; }
      if 0 < key.value.value < 0x1_0000_0000 { marked := marked + {key.value.value}; }
      if 0 < value.value.value < 0x1_0000_0000 { marked := marked + {value.value.value}; }
      rest := value.value.rest;
    }
  }
}
