/**
 The serialized sketch: a pure encoder and decoder, and what the format promises.

 Sums are carried as the 64 bits of an IEEE 754 double, so the round trips here are about bytes
 and never about rounding. Decode says what the bytes say; the program keeps the last index in 32
 bits and walks over the bins in 32 bits, and Reencoded says what comes of encoding a decoded sketch.
 */
module Codec {
  import opened Int32
  import opened Options
  import opened SketchSpec
  import opened SketchMoves
  import opened Wire

  const VERSION: Byte := 1
  const MAX_SCALE: nat := 20
  const MAX_SERIALIZED_BINS: nat := 256

  /** The part of a sketch that is serialized. sum holds the bits of the floating-point sum. */
  datatype Packed = Packed(scale: nat, zeroCount: nat, count: nat, sum: nat, view: View)

  /** Neither infinite nor not-a-number: the 11 exponent bits are not all ones. */
  predicate Finite(bits: nat) { (bits / 0x10_0000_0000_0000) % 0x800 != 0x7FF }

  /** A sketch as its methods leave it. */
  predicate WellFormed(p: Packed) {
    && p.scale <= MAX_SCALE
    && p.zeroCount < TWO_64 && p.count < TWO_64 && p.sum < TWO_64
    && p.view.Valid() && MIN_INT32 <= p.view.lo && Walkable(p.view)
    && p.zeroCount + Population(p.view) <= p.count
  }

  // ---------------------------------------------------------------------------------------
  // Encoding.

  /** The bin block: each populated bucket as its distance from the one before and its count. */
  function BinBytes(h: seq<Obs>, prev: int): seq<Byte>
    requires Ascending(h) && (h != [] ==> prev <= h[0].index)
  {
    if h == [] then []
    else UvarintBytes(h[0].index - prev) + (UvarintBytes(h[0].n) + BinBytes(h[1..], h[0].index))
  }

  predicate Ascending(h: seq<Obs>) { forall i, j :: 0 <= i < j < |h| ==> h[i].index < h[j].index }

  function FirstIndex(h: seq<Obs>): int { if h == [] then 0 else h[0].index }

  function FlagByte(collapsed: bool): Byte { if collapsed then 1 else 0 }

  function Header(p: Packed): seq<Byte>
    requires p.scale < 256
  {
    [VERSION, p.scale, FlagByte(p.view.collapsed)]
  }

  /** Everything after the header, for a window given as its populated cells. */
  function Body(p: Packed, h: seq<Obs>): seq<Byte>
    requires Ascending(h)
  {
    UvarintBytes(p.zeroCount)
    + (UvarintBytes(p.count)
       + (WordBytes(p.sum, 8)
          + (UvarintBytes(|h|) + (VarintBytes(FirstIndex(h)) + BinBytes(h, FirstIndex(h))))))
  }

  /** The sketch with its lowest bins folded to the serialized bin cap. */
  function CappedPack(p: Packed): Packed { p.(view := Capped(p.view, MAX_SERIALIZED_BINS)) }

  function CellsOf(v: View): (h: seq<Obs>)
    ensures Ascending(h)
  {
    CellsAscend(v, |v.cells|);
    Cells(v, |v.cells|)
  }

  function Encode(p: Packed): seq<Byte>
    requires p.scale < 256
  {
    var c := CappedPack(p);
    Header(c) + Body(c, CellsOf(c.view))
  }

  // ---------------------------------------------------------------------------------------
  // Decoding.

  /** The window with the given populated cells and nothing else. */
  function Window(h: seq<Obs>, collapsed: bool): View {
    if h == [] then View(0, [], collapsed)
    else
      var span := Max(0, h[|h| - 1].index - h[0].index + 1);
      View(h[0].index, seq<nat>(span, (j: nat) => CountAt(h, h[0].index + j)), collapsed)
  }

  /** n more bins; prev is the bucket before them, and start says none has been read yet. */
  function ReadBins(s: seq<Byte>, n: nat, start: bool, prev: int, first: int): Result<Read<seq<Obs>>>
    decreases n
  {
    if n == 0 then Ok(Read([], s))
    else
      var d :- ReadUvarint(s);
      if start != (d.value == 0) || d.value >= MAX_BINS then Err(Corrupt)
      else if prev + d.value - first >= MAX_BINS then Err(Corrupt)
      else
        var c :- ReadUvarint(d.rest);
        if c.value == 0 || c.value > MAX_COUNT then Err(Corrupt)
        else
          var more :- ReadBins(c.rest, n - 1, false, prev + d.value, first);
          Ok(Read([Obs(prev + d.value, c.value)] + more.value, more.rest))
  }

  function ReadBinBlock(s: seq<Byte>, n: nat, first: int): Result<Read<seq<Obs>>> {
    if n == 0 then
      if first != 0 then Err(Corrupt) else Ok(Read([], s))
    else if first < MIN_INT32 || first > MAX_INT32 then Err(Corrupt)
    else ReadBins(s, n, true, first, first)
  }

  datatype Fields = Fields(zeroCount: nat, count: nat, sum: nat, bins: seq<Obs>)

  function ReadBody(s: seq<Byte>): Result<Read<Fields>> {
    var zero :- ReadUvarint(s);
    var count :- ReadUvarint(zero.rest);
    var sum :- ReadWord(count.rest);
    if !Finite(sum.value) then Err(Corrupt)
    else
      var bins :- ReadCells(sum.rest);
      Ok(Read(Fields(zero.value, count.value, sum.value, bins.value), bins.rest))
  }

  function ReadCells(s: seq<Byte>): Result<Read<seq<Obs>>> {
    var n :- ReadUvarint(s);
    if n.value > MAX_SERIALIZED_BINS then Err(Corrupt)
    else
      var first :- ReadVarint(n.rest);
      ReadBinBlock(first.rest, n.value, first.value)
  }

  function Decode(data: seq<Byte>): Result<Packed> {
    if |data| < 3 then Err(Truncated)
    else if data[0] != VERSION then Err(BadVersion)
    else if data[1] > MAX_SCALE then Err(BadScale)
    else if data[2] > 1 then Err(Corrupt)
    else
      var body :- ReadBody(data[3..]);
      var f := body.value;
      var view := Window(f.bins, data[2] == 1);
      if body.rest != [] then Err(Corrupt)
      else if f.count < f.zeroCount || f.count - f.zeroCount < Population(view) then Err(Corrupt)
      else Ok(Packed(data[1], f.zeroCount, f.count, f.sum, view))
  }

  // ---------------------------------------------------------------------------------------
  // Walking over the bins in 32 bits.

  /** No bins, or a last bucket below the greatest 32-bit index. */
  predicate Walkable(v: View) { v.cells != [] ==> v.Hi() < MAX_INT32 }

  /** The last bucket is the greatest 32-bit index: every index is within it. */
  predicate RunsOff(v: View) { v.cells != [] && v.Hi() == MAX_INT32 }

  /** The last bucket does not fit 32 bits. */
  predicate Wraps(v: View) { v.cells != [] && v.Hi() > MAX_INT32 }

  /** Whether the walk over a decoded window goes on to a bin after k others. */
  predicate Visits(v: View, k: nat) { Narrow(v.lo + k) <= Narrow(v.Hi()) }

  /** The walk visits n bins and stops. */
  ghost predicate StopsAfter(v: View, n: nat) { (forall k: nat :: k < n ==> Visits(v, k)) && !Visits(v, n) }

  /** Where in the array the walk looks after k steps. */
  function Position(v: View, k: nat): int { Narrow(Narrow(v.lo + k) - v.lo) }

  /** Of the three kinds of window the walk visits exactly the bins, or goes on to the place after
      the last of the array, or visits none. */
  lemma WalkExactly(v: View)
    requires v.cells != [] && |v.cells| <= MAX_BINS && IsInt32(v.lo)
    ensures Walkable(v) <==> StopsAfter(v, |v.cells|)
    ensures RunsOff(v) <==> forall k: nat :: k <= MAX_BINS ==> Visits(v, k)
    ensures Wraps(v) <==> StopsAfter(v, 0)
    ensures forall k: nat :: k <= MAX_BINS ==> Position(v, k) == k
  {
    hide Narrow;
    var n := |v.cells|;
    forall k: nat | k <= MAX_BINS
      ensures Position(v, k) == k
      ensures Walkable(v) && k <= n ==> (Visits(v, k) <==> k < n)
      ensures RunsOff(v) ==> Visits(v, k)
      ensures Wraps(v) && k == 0 ==> !Visits(v, k)
    {
      WalkOn(v.lo, k);
      WalkEnds(v.lo, n, k);
    }
    assert Wraps(v) ==> !Visits(v, 0);
    assert Walkable(v) ==> !Visits(v, n);
  }

  /** What a decoded sketch shows of itself when its last index wrapped: a walk over its bins sees
      none. */
  function Kept(p: Packed): Packed { if Wraps(p.view) then p.(view := View(0, [], p.view.collapsed)) else p }

  /** What encoding a decoded sketch gives: nothing when counting its bins runs off their array. */
  function Reencoded(p: Packed): Option<seq<Byte>>
    requires p.scale < 256
  {
    if RunsOff(p.view) then None else Some(Encode(Kept(p)))
  }

  // ---------------------------------------------------------------------------------------
  // Windows and their cells.

  lemma {:induction false} CellsAscend(v: View, n: nat)
    requires n <= |v.cells|
    ensures Ascending(Cells(v, n))
  {
    if n > 0 {
      CellsAscend(v, n - 1);
      CellsIndexes(v, n - 1);
    }
  }

  /** The cells a decoder may be given: ascending, in span, neither empty nor beyond 32 bits. */
  predicate GoodCells(h: seq<Obs>) {
    && Ascending(h) && (h != [] ==> h[|h| - 1].index - h[0].index < MAX_BINS)
    && forall j :: 0 <= j < |h| ==> 0 < h[j].n <= MAX_COUNT
  }

  lemma {:induction false} CountOfAscending(h: seq<Obs>, k: int)
    requires Ascending(h)
    ensures forall j :: 0 <= j < |h| && h[j].index == k ==> CountAt(h, k) == h[j].n
    ensures (forall j :: 0 <= j < |h| ==> h[j].index != k) ==> CountAt(h, k) == 0
  {
    if h != [] { CountOfAscending(h[..|h| - 1], k); }
  }

  lemma {:induction false} BelowOfAscending(h: seq<Obs>, i: int)
    requires GoodCells(h)
    ensures Below(h, i) == if CountAt(h, i - 1) == 0 then Below(h, i - 1)
                           else Below(h, i - 1) + [Obs(i - 1, CountAt(h, i - 1))]
  {
    hide Below, CountAt, GoodCells, Ascending;
    if h == [] {
      BelowEmpty(i);
    } else {
      var g, o := h[..|h| - 1], h[|h| - 1];
      assert h == g + [o];
      LastIsAbove(g, o, i - 1);
      BelowOfAscending(g, i);
      BelowAppend(g, o, i);
      BelowAppend(g, o, i - 1);
      CountAppend(g, o, i - 1);
    }
  }

  lemma BelowEmpty(i: int)
    ensures Below([], i) == [] == Below([], i - 1) && CountAt([], i - 1) == 0
  {
  }

  lemma BelowAppend(g: seq<Obs>, o: Obs, i: int)
    ensures Below(g + [o], i) == if o.index < i then Below(g, i) + [o] else Below(g, i)
  {
    assert (g + [o])[..|g|] == g;
  }

  lemma LastIsAbove(g: seq<Obs>, o: Obs, k: int)
    requires GoodCells(g + [o])
    ensures GoodCells(g) && o.n > 0 && (o.index <= k ==> CountAt(g, k) == 0)
  {
    hide CountAt;
    var h := g + [o];
    assert forall j :: 0 <= j < |g| ==> h[j] == g[j];
    assert h[|g|] == o;
    CountOfAscending(g, k);
  }

  lemma {:induction false} CellsFromBelow(h: seq<Obs>, c: bool, n: nat, i: int)
    requires GoodCells(h) && h != [] && n <= |Window(h, c).cells| && i == h[0].index + n
    ensures Cells(Window(h, c), n) == Below(h, i)
  {
    hide Below, CountAt, GoodCells;
    if n == 0 {
      NothingBelowFirst(h);
    } else {
      CellsFromBelow(h, c, n - 1, i - 1);
      BelowOfAscending(h, i);
    }
  }

  lemma NothingBelowFirst(h: seq<Obs>)
    requires GoodCells(h) && h != []
    ensures Below(h, h[0].index) == []
  {
    BelowNothing(h, h[0].index);
  }

  /** A window built from cells is valid and has exactly those cells. */
  lemma WindowOfCells(h: seq<Obs>, c: bool)
    requires GoodCells(h)
    ensures Window(h, c).Valid() && Window(h, c).collapsed == c && CellsOf(Window(h, c)) == h
  {
    hide CountAt, Below, View.Valid, GoodCells, Window;
    WindowValid(h, c);
    if h != [] {
      var v := Window(h, c);
      WindowSpan(h, c);
      CellsFromBelow(h, c, |v.cells|, v.Hi() + 1);
      AllBelow(h);
    }
  }

  lemma WindowSpan(h: seq<Obs>, c: bool)
    requires GoodCells(h) && h != []
    ensures Window(h, c).lo == h[0].index && Window(h, c).Hi() == h[|h| - 1].index
  {
    hide CountAt;
  }

  lemma AllBelow(h: seq<Obs>)
    requires GoodCells(h) && h != []
    ensures Below(h, h[|h| - 1].index + 1) == h
  {
    BelowAll(h, h[|h| - 1].index + 1);
  }

  lemma WindowValid(h: seq<Obs>, c: bool)
    requires GoodCells(h)
    ensures Window(h, c).Valid() && Window(h, c).collapsed == c && (h == [] ==> Window(h, c).cells == [])
  {
    hide CountAt;
    if h != [] {
      CountOfAscending(h, h[0].index);
      CountOfAscending(h, h[|h| - 1].index);
      var v := Window(h, c);
      forall j | 0 <= j < |v.cells| ensures v.cells[j] <= MAX_COUNT {
        CountOfAscending(h, h[0].index + j);
      }
    }
  }

  /** A valid window is the window of its cells. */
  lemma CellsOfWindow(v: View)
    requires v.Valid()
    ensures GoodCells(CellsOf(v)) && Window(CellsOf(v), v.collapsed) == v
    ensures |CellsOf(v)| == Populated(v.cells) && FirstIndex(CellsOf(v)) == v.lo
  {
    hide Cells, CountAt, Populated, GoodCells;
    var h := CellsOf(v);
    CellsAreGood(v);
    CellsPopulated(v, |v.cells|);
    assert v.cells[..|v.cells|] == v.cells;
    if v.cells != [] {
      forall j | 0 <= j < |v.cells| ensures v.cells[j] == CountAt(h, v.lo + j) {
        CellsAt(v, |v.cells|, v.lo + j);
      }
      assert Window(h, v.collapsed).cells == v.cells;
    }
  }

  lemma CellsAreGood(v: View)
    requires v.Valid()
    ensures GoodCells(CellsOf(v)) && (v.cells == [] <==> CellsOf(v) == [])
    ensures v.cells != [] ==> CellsOf(v)[0].index == v.lo && CellsOf(v)[|CellsOf(v)| - 1].index == v.Hi()
  {
    hide Cells;
    CellsIndexes(v, |v.cells|);
    CellsInRange(v, |v.cells|);
    if v.cells == [] {
      CellsNone(v);
    } else {
      CellsEnds(v);
      AscendingEnds(CellsOf(v));
    }
  }

  lemma CellsNone(v: View)
    ensures Cells(v, 0) == []
  {
  }

  lemma {:induction false} CellsInRange(v: View, n: nat)
    requires v.Valid() && n <= |v.cells|
    ensures forall j :: 0 <= j < |Cells(v, n)| ==> Cells(v, n)[j].n <= MAX_COUNT
  {
    if n > 0 { CellsInRange(v, n - 1); }
  }

  lemma {:induction false} CellsPopulated(v: View, n: nat)
    requires n <= |v.cells|
    ensures |Cells(v, n)| == Populated(v.cells[..n])
  {
    if n > 0 {
      CellsPopulated(v, n - 1);
      assert v.cells[..n][..n - 1] == v.cells[..n - 1];
    }
  }

  lemma AscendingEnds(h: seq<Obs>)
    requires Ascending(h) && h != []
    ensures MinIndex(h) == h[0].index && MaxIndex(h) == h[|h| - 1].index
  {
    IndexBounds(h);
    var a :| 0 <= a < |h| && h[a].index == MaxIndex(h);
    var b :| 0 <= b < |h| && h[b].index == MinIndex(h);
  }

  // ---------------------------------------------------------------------------------------
  // Round trips.

  /** A well-formed bin block reads back as the cells it was written for. */
  lemma {:induction false} BinsReadBack(h: seq<Obs>, start: bool, prev: int, first: int, rest: seq<Byte>)
    requires GoodCells(h)
    requires h != [] ==> first <= prev <= h[0].index && (start <==> prev == h[0].index)
    requires h != [] ==> h[|h| - 1].index - first < MAX_BINS
    ensures ReadBins(BinBytes(h, prev) + rest, |h|, start, prev, first) == Ok(Read(h, rest))
  {
    hide ReadUvarint, UvarintBytes, BinBytes, ReadBins, Ascending;
    if h == [] {
      EmptyBlock(rest, start, prev, first);
      assert BinBytes(h, prev) + rest == rest by { NoBins(prev, rest); }
    } else {
      var d, n, tail := h[0].index - prev, h[0].n, h[1..];
      TailGood(h);
      assert h == [h[0]] + tail;
      BlockStep(prev, h[0].index, n, tail, rest);
      var s2 := BinBytes(tail, h[0].index) + rest;
      VarintReadsBack(d, UvarintBytes(n) + s2);
      VarintReadsBack(n, s2);
      BinsReadBack(tail, false, h[0].index, first, rest);
      BinsUnfold(BinBytes(h, prev) + rest, |h|, start, prev, first);
    }
  }

  lemma TailGood(h: seq<Obs>)
    requires GoodCells(h) && h != []
    ensures GoodCells(h[1..]) && Ascending(h[1..])
    ensures |h| > 1 ==> h[0].index < h[1..][0].index && h[1..][|h| - 2] == h[|h| - 1]
  {
  }

  lemma BodyReadsBack(p: Packed, h: seq<Obs>, rest: seq<Byte>)
    requires p.zeroCount < TWO_64 && p.count < TWO_64 && p.sum < TWO_64
    requires GoodCells(h) && |h| <= MAX_SERIALIZED_BINS && MIN_INT32 <= FirstIndex(h) <= MAX_INT32
    ensures ReadBody(Body(p, h) + rest)
         == if Finite(p.sum) then Ok(Read(Fields(p.zeroCount, p.count, p.sum, h), rest)) else Err(Corrupt)
  {
    hide BinBytes, ReadBins, UvarintBytes, WordBytes, VarintBytes, ReadUvarint, ReadVarint, ReadWord, Finite;
    var first := FirstIndex(h);
    var s5 := BinBytes(h, first) + rest;
    var s4 := VarintBytes(first) + s5;
    var s3 := UvarintBytes(|h|) + s4;
    var s2 := WordBytes(p.sum, 8) + s3;
    var s1 := UvarintBytes(p.count) + s2;
    assert Body(p, h) + rest == UvarintBytes(p.zeroCount) + s1;
    VarintReadsBack(p.zeroCount, s1);
    VarintReadsBack(p.count, s2);
    WordReadsBack(p.sum, s3);
    VarintReadsBack(|h|, s4);
    SignedReadsBack(first, s5);
    BinsReadBack(h, true, first, first, rest);
    NoBins(0, rest);
  }

  lemma NoBins(prev: int, rest: seq<Byte>)
    ensures BinBytes([], prev) + rest == rest
  {
  }

  /** What a well-formed sketch serializes as reads back as the sketch with its lowest bins
      folded to the bin cap, unless its sum overflowed to an infinity; anything after the
      encoding is refused. */
  lemma DecodeOfEncode(p: Packed, rest: seq<Byte>)
    requires WellFormed(p)
    ensures Decode(Encode(p) + rest)
         == if Finite(p.sum) && rest == [] then Ok(CappedPack(p)) else Err(Corrupt)
  {
    var c := CappedPack(p);
    var h := CellsOf(c.view);
    hide Capped, View.Valid, Body, ReadBody, Window, Population, Finite, CellsOf, Populated, GoodCells;
    CappedBounds(p.view, MAX_SERIALIZED_BINS);
    CellsOfWindow(c.view);
    var data := Encode(p) + rest;
    assert data[3..] == Body(c, h) + rest;
    BodyReadsBack(c, h, rest);
  }

  lemma CappedBounds(v: View, limit: nat)
    requires v.Valid() && limit > 0
    ensures Population(Capped(v, limit)) <= Population(v)
    ensures Capped(v, limit).Valid() && v.lo <= Capped(v, limit).lo && Capped(v, limit).Hi() == v.Hi()
    ensures Populated(Capped(v, limit).cells) <= limit && Capped(Capped(v, limit), limit) == Capped(v, limit)
  {
    CappedFits(v, limit);
    if limit < Populated(v.cells) {
      FloorNotLowest(v.cells, limit);
      FoldedCounts(v, v.lo + FloorPosition(v.cells, limit));
    }
  }

  /** Decoding and encoding again gives the bytes of the first encoding. */
  lemma EncodeDecodeEncode(p: Packed)
    requires WellFormed(p) && Finite(p.sum)
    ensures Decode(Encode(p)).Ok? && Decode(Encode(p)).value.scale == p.scale
    ensures Reencoded(Decode(Encode(p)).value) == Some(Encode(p))
  {
    hide Capped, Cells, Finite, Decode, Body;
    CappedTwice(p);
    CappedBounds(p.view, MAX_SERIALIZED_BINS);
    DecodeOfEncode(p, []);
    assert Encode(p) + [] == Encode(p);
  }

  lemma CappedTwice(p: Packed)
    requires WellFormed(p)
    ensures CappedPack(CappedPack(p)) == CappedPack(p)
  {
    CappedFits(p.view, MAX_SERIALIZED_BINS);
  }

  /** A sketch within the bin cap comes back as it was. */
  lemma SmallSketchSurvives(p: Packed)
    requires WellFormed(p) && Finite(p.sum) && Populated(p.view.cells) <= MAX_SERIALIZED_BINS
    ensures Decode(Encode(p)) == Ok(p)
  {
    DecodeOfEncode(p, []);
    assert Encode(p) + [] == Encode(p);
  }

  // ---------------------------------------------------------------------------------------
  // Which inputs re-encode to themselves.

  lemma {:induction false} BinsAreGood(s: seq<Byte>, n: nat, start: bool, prev: int, first: int)
    requires ReadBins(s, n, start, prev, first).Ok?
    requires prev - first < MAX_BINS && (start ==> prev == first) && prev >= first
    ensures var h := ReadBins(s, n, start, prev, first).value.value;
            && GoodCells(h) && Ascending(h) && |h| == n
            && (h != [] ==> first <= prev <= h[0].index && (start <==> prev == h[0].index))
            && (h != [] ==> h[|h| - 1].index - first < MAX_BINS)
    decreases n
  {
    if n > 0 {
      var d := ReadUvarint(s).value;
      var c := ReadUvarint(d.rest).value;
      BinsAreGood(c.rest, n - 1, false, prev + d.value, first);
    }
  }

  /** Every varint of a bin block is minimal. */
  predicate MinimalBins(s: seq<Byte>, n: nat)
    decreases n
  {
    n == 0
    || (&& ReadUvarint(s).Ok? && MinimalVarint(s)
        && ReadUvarint(ReadUvarint(s).value.rest).Ok? && MinimalVarint(ReadUvarint(s).value.rest)
        && MinimalBins(ReadUvarint(ReadUvarint(s).value.rest).value.rest, n - 1))
  }

  lemma {:induction false} BinsExact(s: seq<Byte>, n: nat, start: bool, prev: int, first: int)
    requires ReadBins(s, n, start, prev, first).Ok?
    requires prev - first < MAX_BINS && (start ==> prev == first) && prev >= first
    ensures var r := ReadBins(s, n, start, prev, first).value;
            && Ascending(r.value) && (r.value != [] ==> prev <= r.value[0].index)
            && (MinimalBins(s, n) <==> s == BinBytes(r.value, prev) + r.rest)
    decreases n
  {
    hide ReadUvarint, MinimalVarint, UvarintBytes, BinBytes, ReadBins, MinimalBins, GoodCells, Ascending;
    BinsAreGood(s, n, start, prev, first);
    if n == 0 {
      EmptyBlock(s, start, prev, first);
    } else {
      var d, c, tail := BinsStep(s, n, start, prev, first);
      BinsExact(c.rest, n - 1, false, prev + d.value, first);
      BlockStep(prev, prev + d.value, c.value, tail.value, tail.rest);
      PairExact(s, BinBytes(tail.value, prev + d.value) + tail.rest);
    }
  }

  lemma EmptyBlock(s: seq<Byte>, start: bool, prev: int, first: int)
    ensures ReadBins(s, 0, start, prev, first) == Ok(Read([], s))
    ensures MinimalBins(s, 0) && s == BinBytes([], prev) + s
  {
  }

  /** The first bin of a block that was accepted. */
  lemma BinsStep(s: seq<Byte>, n: nat, start: bool, prev: int, first: int)
    returns (d: Read<nat>, c: Read<nat>, tail: Read<seq<Obs>>)
    requires n > 0 && ReadBins(s, n, start, prev, first).Ok?
    ensures ReadUvarint(s) == Ok(d) && ReadUvarint(d.rest) == Ok(c)
    ensures prev + d.value - first < MAX_BINS
    ensures ReadBins(c.rest, n - 1, false, prev + d.value, first) == Ok(tail)
    ensures ReadBins(s, n, start, prev, first).value
         == Read([Obs(prev + d.value, c.value)] + tail.value, tail.rest)
    ensures MinimalBins(s, n) <==> MinimalVarint(s) && MinimalVarint(d.rest) && MinimalBins(c.rest, n - 1)
  {
    hide ReadUvarint, MinimalVarint;
    d := ReadUvarint(s).value;
    c := ReadUvarint(d.rest).value;
    tail := ReadBins(c.rest, n - 1, false, prev + d.value, first).value;
  }

  lemma BlockStep(prev: int, index: int, n: nat, tail: seq<Obs>, rest: seq<Byte>)
    requires Ascending([Obs(index, n)] + tail) && Ascending(tail) && prev <= index
    requires tail != [] ==> index <= tail[0].index
    ensures BinBytes([Obs(index, n)] + tail, prev) + rest
         == UvarintBytes(index - prev) + (UvarintBytes(n) + (BinBytes(tail, index) + rest))
  {
    hide UvarintBytes, Ascending;
    assert ([Obs(index, n)] + tail)[1..] == tail;
  }

  /** Two varints and a block are byte for byte what would be written for them exactly when the
      varints are minimal and the block is. */
  lemma PairExact(s: seq<Byte>, block: seq<Byte>)
    requires ReadUvarint(s).Ok? && ReadUvarint(ReadUvarint(s).value.rest).Ok?
    ensures var d := ReadUvarint(s).value;
            var c := ReadUvarint(d.rest).value;
            MinimalVarint(s) && MinimalVarint(d.rest) && c.rest == block
            <==> s == UvarintBytes(d.value) + (UvarintBytes(c.value) + block)
  {
    hide ReadUvarint, MinimalVarint, UvarintBytes;
    var d := ReadUvarint(s).value;
    var c := ReadUvarint(d.rest).value;
    VarintExact(s);
    VarintExact(d.rest);
    VarintInRange(s);
    VarintInRange(d.rest);
    VarintReadsBack(d.value, UvarintBytes(c.value) + block);
    VarintReadsBack(c.value, block);
  }

  /** Every varint of a body is minimal. */
  predicate MinimalBody(s: seq<Byte>)
    requires ReadBody(s).Ok?
  {
    var s1 := ReadUvarint(s).value.rest;
    var s3 := ReadWord(ReadUvarint(s1).value.rest).value.rest;
    var n := ReadUvarint(s3).value;
    && MinimalVarint(s) && MinimalVarint(s1) && MinimalVarint(s3) && MinimalVarint(n.rest)
    && MinimalBins(ReadVarint(n.rest).value.rest, n.value)
  }

  /** Every varint of a serialized sketch is minimal. */
  predicate Minimal(data: seq<Byte>)
    requires Decode(data).Ok?
  {
    MinimalBody(data[3..])
  }

  lemma BodyExact(s: seq<Byte>, scale: nat, view: View)
    requires ReadBody(s).Ok?
    ensures var r := ReadBody(s).value;
            var p := Packed(scale, r.value.zeroCount, r.value.count, r.value.sum, view);
            && GoodCells(r.value.bins) && |r.value.bins| <= MAX_SERIALIZED_BINS
            && p.zeroCount < TWO_64 && p.count < TWO_64 && p.sum < TWO_64 && Finite(p.sum)
            && MIN_INT32 <= FirstIndex(r.value.bins) <= MAX_INT32
            && (MinimalBody(s) <==> s == Body(p, r.value.bins) + r.rest)
  {
    hide BinBytes, ReadBins, UvarintBytes, WordBytes, VarintBytes, ReadUvarint, ReadVarint, ReadWord, Finite;
    hide MinimalVarint, MinimalBins, GoodCells;
    var zero := ReadUvarint(s).value;
    var count := ReadUvarint(zero.rest).value;
    var sum := ReadWord(count.rest).value;
    var n := ReadUvarint(sum.rest).value;
    var first := ReadVarint(n.rest).value;
    var r := ReadBody(s).value;
    var h := r.value.bins;
    VarintInRange(s);
    VarintInRange(zero.rest);
    BlockExact(first.rest, n.value, first.value);
    VarintExact(s);
    VarintExact(zero.rest);
    WordExact(count.rest);
    VarintExact(sum.rest);
    SignedExact(n.rest);
    var s5 := BinBytes(h, first.value) + r.rest;
    var s4 := VarintBytes(first.value) + s5;
    var s3 := UvarintBytes(|h|) + s4;
    var s2 := WordBytes(sum.value, 8) + s3;
    var s1 := UvarintBytes(count.value) + s2;
    var p := Packed(scale, zero.value, count.value, sum.value, view);
    assert Body(p, h) + r.rest == UvarintBytes(zero.value) + s1;
    VarintReadsBack(zero.value, s1);
    VarintReadsBack(count.value, s2);
    WordReadsBack(sum.value, s3);
    VarintReadsBack(|h|, s4);
    SignedReadsBack(first.value, s5);
  }

  lemma BlockExact(s: seq<Byte>, n: nat, first: int)
    requires ReadBinBlock(s, n, first).Ok?
    ensures var r := ReadBinBlock(s, n, first).value;
            && GoodCells(r.value) && |r.value| == n && FirstIndex(r.value) == first
            && MIN_INT32 <= first <= MAX_INT32
            && (MinimalBins(s, n) <==> s == BinBytes(r.value, first) + r.rest)
  {
    var r := ReadBinBlock(s, n, first).value;
    if n == 0 {
      assert BinBytes([], first) + r.rest == r.rest;
    } else {
      BinsAreGood(s, n, true, first, first);
      BinsExact(s, n, true, first, first);
    }
  }

  /** An accepted input decodes to a sketch within the cap and re-encodes to exactly the same
      bytes if and only if each of its varints is minimal and its last index is below the greatest
      32-bit one. */
  lemma ReencodesExactly(data: seq<Byte>)
    requires Decode(data).Ok?
    ensures var p := Decode(data).value;
            && p.scale <= MAX_SCALE && p.view.Valid() && Finite(p.sum)
            && Populated(p.view.cells) <= MAX_SERIALIZED_BINS
            && p.zeroCount + Population(p.view) <= p.count
            && (Reencoded(p) == Some(data) <==> Minimal(data) && Walkable(p.view))
  {
    hide Decode, Encode, Minimal;
    BytesExact(data);
    var p := Decode(data).value;
    if Wraps(p.view) { WrappedDiffers(data); }
  }

  /** A sketch that shows no bins encodes as an empty one, which is not what was decoded. */
  lemma WrappedDiffers(data: seq<Byte>)
    requires Decode(data).Ok? && Wraps(Decode(data).value.view)
    ensures Encode(Kept(Decode(data).value)) != data
  {
    hide ReadBody, Body, Finite, Capped, Decode;
    BytesExact(data);
    var k := Kept(Decode(data).value);
    NothingStored(k.view);
    SmallSketchSurvives(k);
  }

  lemma NothingStored(v: View)
    requires v == View(0, [], v.collapsed)
    ensures v.Valid() && Population(v) == 0 && Populated(v.cells) == 0
  {
  }

  /** Byte by byte, before any narrowing. */
  lemma BytesExact(data: seq<Byte>)
    requires Decode(data).Ok?
    ensures var p := Decode(data).value;
            && p.scale <= MAX_SCALE && p.view.Valid() && Finite(p.sum)
            && p.zeroCount < TWO_64 && p.count < TWO_64 && p.sum < TWO_64
            && Populated(p.view.cells) <= MAX_SERIALIZED_BINS
            && p.zeroCount + Population(p.view) <= p.count
            && (Encode(p) == data <==> Minimal(data))
  {
    hide ReadBody, MinimalBody, Body, Window, GoodCells, Finite, Population, Populated, View.Valid, Cells;
    var p := Decode(data).value;
    var h := ReadBody(data[3..]).value.value.bins;
    BodyExact(data[3..], p.scale, p.view);
    WindowOfCells(h, data[2] == 1);
    CellsOfWindow(p.view);
    assert data == data[..3] + data[3..];
    assert data[..3] == [data[0], data[1], data[2]];
    assert Body(p, h) + [] == Body(p, h);
    assert CappedPack(p) == p;
    assert Encode(p)[3..] == Body(p, h) && Encode(p)[..3] == data[..3];
  }

  /** The encoding of any sketch within the cap is accepted and all its varints are minimal, wherever
      its window ends. */
  lemma AcceptedAnywhere(p: Packed)
    requires p.scale <= MAX_SCALE && p.zeroCount < TWO_64 && p.count < TWO_64 && p.sum < TWO_64 && Finite(p.sum)
    requires p.view.Valid() && p.zeroCount + Population(p.view) <= p.count
    requires IsInt32(p.view.lo) && Populated(p.view.cells) <= MAX_SERIALIZED_BINS
    ensures Decode(Encode(p)) == Ok(p) && Minimal(Encode(p))
  {
    hide ReadBody, Body, Finite, Populated, Population, CellsOf, Window, View.Valid, MinimalBody, GoodCells;
    var h := CellsOf(p.view);
    var data := Encode(p);
    CellsOfWindow(p.view);
    BodyReadsBack(p, h, []);
    assert CappedPack(p) == p;
    assert data[3..] == Body(p, h) && Body(p, h) + [] == Body(p, h);
    assert Decode(data) == Ok(p);
    BytesExact(data);
  }

  /** Every sketch whose window runs past the last 32-bit index: its encoding is accepted, all its
      varints are minimal, and decoding and encoding it again gives other bytes. */
  lemma WrappedIndexIsAccepted(p: Packed)
    requires p.scale <= MAX_SCALE && p.zeroCount < TWO_64 && p.count < TWO_64 && p.sum < TWO_64 && Finite(p.sum)
    requires p.view.Valid() && p.zeroCount + Population(p.view) <= p.count
    requires IsInt32(p.view.lo) && Wraps(p.view) && Populated(p.view.cells) <= MAX_SERIALIZED_BINS
    ensures Decode(Encode(p)) == Ok(p) && Minimal(Encode(p))
    ensures Reencoded(p).Some? && Reencoded(p).value != Encode(p)
  {
    hide Decode, Encode, Minimal, Population, Populated, View.Valid, Finite;
    AcceptedAnywhere(p);
    ReencodesExactly(Encode(p));
  }

  /** Every sketch whose window ends at the last 32-bit index: its encoding is accepted, all its
      varints are minimal, and the decoded sketch cannot be encoded. */
  lemma LastIndexRunsOff(p: Packed)
    requires p.scale <= MAX_SCALE && p.zeroCount < TWO_64 && p.count < TWO_64 && p.sum < TWO_64 && Finite(p.sum)
    requires p.view.Valid() && p.zeroCount + Population(p.view) <= p.count
    requires IsInt32(p.view.lo) && RunsOff(p.view) && Populated(p.view.cells) <= MAX_SERIALIZED_BINS
    ensures Decode(Encode(p)) == Ok(p) && Minimal(Encode(p)) && Reencoded(p) == None
    ensures forall k: nat :: k <= MAX_BINS ==> Visits(p.view, k) && Position(p.view, k) == k
  {
    hide Decode, Encode, Minimal, Population, Populated, Finite, Visits, Position;
    AcceptedAnywhere(p);
    WalkExactly(p.view);
  }

  /** Two bins at the last 32-bit index and the one after it. */
  lemma TwoBinsWrap()
    ensures var p := Packed(4, 0, 2, 0, View(MAX_INT32, [1, 1], false));
            Decode(Encode(p)) == Ok(p) && Minimal(Encode(p)) && Reencoded(p).Some? && Reencoded(p).value != Encode(p)
  {
    hide Decode, Encode, Minimal;
    var v := View(MAX_INT32, [1, 1], false);
    assert Total(v.cells, 2) == Total(v.cells, 1) + 1 && Total(v.cells, 1) == Total(v.cells, 0) + 1;
    assert v.cells[..1] == [1] && v.cells[..1][..0] == [];
    WrappedIndexIsAccepted(Packed(4, 0, 2, 0, v));
  }

  /** One bin at the last 32-bit index. */
  lemma OneBinRunsOff()
    ensures var p := Packed(4, 0, 1, 0, View(MAX_INT32, [1], false));
            Decode(Encode(p)) == Ok(p) && Minimal(Encode(p)) && Reencoded(p) == None
  {
    hide Decode, Encode, Minimal;
    var v := View(MAX_INT32, [1], false);
    assert Total(v.cells, 1) == Total(v.cells, 0) + 1;
    assert v.cells[..0] == [];
    LastIndexRunsOff(Packed(4, 0, 1, 0, v));
  }

  /** One sketch byte by byte: version, scale, flag, zero count, count, the sum low byte first, the
      number of bins, the first index in zigzag, and each bin as its step and its count. */
  lemma BytesOfOneSketch()
    ensures Encode(Packed(4, 2, 303, 0x3FF0_0000_0000_0000, View(-3, [300, 0, 1], true)))
         == [1, 4, 1, 2, 0xAF, 2, 0, 0, 0, 0, 0, 0, 0xF0, 0x3F, 2, 5, 0, 0xAC, 2, 2, 1]
  {
    hide UvarintBytes, WordBytes, Cells, Populated, BinBytes;
    var v := View(-3, [300, 0, 1], true);
    CellsOfOne();
    OneSum();
    OneByteVarints();
    TwoByteVarint(303);
    BinsOfOne();
    assert Capped(v, MAX_SERIALIZED_BINS) == v;
    assert CellsOf(v) == [Obs(-3, 300), Obs(-1, 1)];
  }

  lemma BinsOfOne()
    ensures BinBytes([Obs(-3, 300), Obs(-1, 1)], -3) == [0, 0xAC, 2, 2, 1]
  {
    hide UvarintBytes;
    OneByteVarints();
    TwoByteVarint(300);
    var h := [Obs(-3, 300), Obs(-1, 1)];
    assert h[1..] == [Obs(-1, 1)] && h[1..][1..] == [];
    assert BinBytes(h[1..], -3) == [2, 1];
  }

  lemma CellsOfOne()
    ensures Cells(View(-3, [300, 0, 1], true), 3) == [Obs(-3, 300), Obs(-1, 1)] && Populated([300, 0, 1]) == 2
  {
    var v := View(-3, [300, 0, 1], true);
    assert Cells(v, 0) == [] && Cells(v, 1) == [Obs(-3, 300)] && Cells(v, 2) == [Obs(-3, 300)];
    assert v.cells[..2] == [300, 0] && v.cells[..2][..1] == [300] && [300][..0] == [];
    assert Populated([300]) == 1 && Populated([300, 0]) == 1;
  }

  lemma OneSum()
    ensures WordBytes(0x3FF0_0000_0000_0000, 8) == [0, 0, 0, 0, 0, 0, 0xF0, 0x3F]
  {
    assert WordBytes(0x3FF0, 2) == [0xF0, 0x3F];
    assert WordBytes(0x3FF0_0000, 4) == [0, 0, 0xF0, 0x3F];
    assert WordBytes(0x3FF0_0000_0000, 6) == [0, 0, 0, 0, 0xF0, 0x3F];
  }

  lemma OneByteVarints()
    ensures forall x: nat :: x < 128 ==> UvarintBytes(x) == [x]
  {
  }

  lemma TwoByteVarint(x: nat)
    requires 128 <= x < 128 * 128
    ensures UvarintBytes(x) == [128 + x % 128, x / 128]
  {
    OneByteVarints();
  }

  /** The format's own comment says a decoded sketch always re-encodes to its input. An empty
      sketch whose zero count is written in two bytes is accepted and does not. */
  lemma OverlongZeroIsAccepted()
    ensures var data := [1, 4, 0, 0x80, 0, 0, 0, 0, 0, 0, 0, 0, 0, 0, 0, 0];
            Decode(data) == Ok(Packed(4, 0, 0, 0, EMPTY)) && Encode(Packed(4, 0, 0, 0, EMPTY)) != data
  {
    hide ReadBody, Body, Finite, UvarintBytes, WordBytes, Capped, MinimalVarint;
    var data: seq<Byte> := [1, 4, 0, 0x80, 0, 0, 0, 0, 0, 0, 0, 0, 0, 0, 0, 0];
    var p := Packed(4, 0, 0, 0, EMPTY);
    OverlongBody(data[3..]);
    ReencodesExactly(data);
    assert Decode(data) == Ok(p);
  }

  lemma OverlongBody(s: seq<Byte>)
    requires s == [0x80, 0, 0, 0, 0, 0, 0, 0, 0, 0, 0, 0, 0]
    ensures ReadBody(s) == Ok(Read(Fields(0, 0, 0, []), [])) && !MinimalVarint(s)
  {
    hide ReadWord, ReadUvarint, MinimalVarint;
    TwoByteZero(s);
    OneByteZero(s[2..]);
    ZeroWord(s[3..]);
    assert s[2..][1..] == s[3..] && s[3..][8..] == s[11..];
    OneByteZero(s[11..]);
    OneByteZero(s[12..]);
    assert s[11..][1..] == s[12..] && s[12..][1..] == [];
    assert Finite(0);
  }

  lemma OneByteZero(s: seq<Byte>)
    requires s != [] && s[0] == 0
    ensures ReadUvarint(s) == Ok(Read(0, s[1..]))
  {
  }

  lemma TwoByteZero(s: seq<Byte>)
    requires |s| >= 2 && s[0] == 0x80 && s[1] == 0
    ensures ReadUvarint(s) == Ok(Read(0, s[2..])) && !MinimalVarint(s)
  {
    assert ReadUvarintFrom(s[1..], 1) == Ok(Read(0, s[1..][1..])) && s[1..][1..] == s[2..];
  }

  lemma ZeroWord(s: seq<Byte>)
    requires |s| >= 8 && forall i :: 0 <= i < 8 ==> s[i] == 0
    ensures ReadWord(s) == Ok(Read(0, s[8..]))
  {
    ZeroValue(s[..8]);
  }

  lemma {:induction false} ZeroValue(s: seq<Byte>)
    requires forall i :: 0 <= i < |s| ==> s[i] == 0
    ensures WordValue(s) == 0
  {
    if s != [] { ZeroValue(s[1..]); }
  }

  // ---------------------------------------------------------------------------------------
  // Cut input.

  lemma {:induction false} BinsCut(s: seq<Byte>, n: nat, start: bool, prev: int, first: int, k: nat)
    requires k <= |s| && ReadBins(s, n, start, prev, first).Ok?
    ensures Cut(s, k, ReadBins(s, n, start, prev, first), ReadBins(s[..k], n, start, prev, first))
    decreases n
  {
    hide ReadUvarint, ReadUvarintFrom, ReadBins, Suffix;
    if n == 0 {
      WholeSuffix(s);
      EmptyBlock(s, start, prev, first);
      EmptyBlock(s[..k], start, prev, first);
    } else {
      var d, c, tail := BinsStep(s, n, start, prev, first);
      UvarintCut(s, k);
      UvarintCut(d.rest, After(s, d.rest, k));
      var k2 := After(d.rest, c.rest, After(s, d.rest, k));
      BinsCut(c.rest, n - 1, false, prev + d.value, first, k2);
      BinsUnfold(s, n, start, prev, first);
      BinsUnfold(s[..k], n, start, prev, first);
      SuffixOfSuffix(c.rest, d.rest, s);
      SuffixOfSuffix(tail.rest, c.rest, s);
    }
  }

  lemma BinsUnfold(s: seq<Byte>, n: nat, start: bool, prev: int, first: int)
    requires n > 0
    ensures var d := ReadUvarint(s);
            var r := ReadBins(s, n, start, prev, first);
            if d.Err? then r == Err(d.error)
            else if start == (d.value.value == 0) && d.value.value < MAX_BINS
                    && prev + d.value.value - first < MAX_BINS then
              var c := ReadUvarint(d.value.rest);
              if c.Err? then r == Err(c.error)
              else if 0 < c.value.value <= MAX_COUNT then
                var t := ReadBins(c.value.rest, n - 1, false, prev + d.value.value, first);
                r == if t.Err? then Err(t.error)
                     else Ok(Read([Obs(prev + d.value.value, c.value.value)] + t.value.value, t.value.rest))
              else r == Err(Corrupt)
            else r == Err(Corrupt)
  {
    hide ReadUvarint;
  }

  lemma WholeSuffix(s: seq<Byte>)
    ensures Suffix(s, s)
  {
  }

  lemma BlockCut(s: seq<Byte>, n: nat, first: int, k: nat)
    requires k <= |s| && ReadBinBlock(s, n, first).Ok?
    ensures Cut(s, k, ReadBinBlock(s, n, first), ReadBinBlock(s[..k], n, first))
  {
    if n > 0 { BinsCut(s, n, true, first, first, k); }
  }

  lemma BodyCut(s: seq<Byte>, k: nat)
    requires k <= |s| && ReadBody(s).Ok?
    ensures Cut(s, k, ReadBody(s), ReadBody(s[..k]))
  {
    hide ReadUvarint, ReadVarint, ReadWord, ReadBinBlock, Finite, Suffix;
    var zero := ReadUvarint(s).value;
    var count := ReadUvarint(zero.rest).value;
    var sum := ReadWord(count.rest).value;
    var n := ReadUvarint(sum.rest).value;
    var first := ReadVarint(n.rest).value;
    UvarintCut(s, k);
    var k1 := After(s, zero.rest, k);
    UvarintCut(zero.rest, k1);
    var k2 := After(zero.rest, count.rest, k1);
    WordCut(count.rest, k2);
    var k3 := After(count.rest, sum.rest, k2);
    UvarintCut(sum.rest, k3);
    var k4 := After(sum.rest, n.rest, k3);
    SignedCut(n.rest, k4);
    var k5 := After(n.rest, first.rest, k4);
    BlockCut(first.rest, n.value, first.value, k5);
    SuffixOfSuffix(count.rest, zero.rest, s);
    SuffixOfSuffix(sum.rest, count.rest, s);
    SuffixOfSuffix(n.rest, sum.rest, s);
    SuffixOfSuffix(first.rest, n.rest, s);
    SuffixOfSuffix(ReadBody(s).value.rest, first.rest, s);
  }

  /** Where a cut at k of s falls in what is left after a field. */
  function After(s: seq<Byte>, rest: seq<Byte>, k: nat): nat
    requires |rest| <= |s|
  {
    if k < |s| - |rest| then 0 else k - (|s| - |rest|)
  }

  /** No accepted encoding is a prefix of another: cut short, it is refused as truncated. */
  lemma PrefixIsTruncated(data: seq<Byte>, k: nat)
    requires Decode(data).Ok? && k < |data|
    ensures Decode(data[..k]) == Err(Truncated)
  {
    hide ReadBody, Window, Population;
    if k >= 3 {
      BodyCut(data[3..], k - 3);
      assert data[..k][3..] == data[3..][..k - 3];
    }
  }
}
