/**
 The encoder and decoder as they run: a buffer that is appended to, a cursor that advances over
 the input, and a sketch whose bins are filled in place. Both are proved against Codec.
 */
module SketchCodec {
  import opened Int32
  import opened Options
  import opened SketchSpec
  import opened SketchMoves
  import opened Sketches
  import opened Wire
  import opened Codec

  /** A cursor over encoded input. */
  class Reader {
    const buf: seq<Byte>
    var pos: nat

    ghost predicate Valid()
      reads this
    {
      pos <= |buf|
    }

    function Rest(): seq<Byte>
      reads this
      requires Valid()
    {
      buf[pos..]
    }

    constructor (buf: seq<Byte>, pos: nat)
      requires pos <= |buf|
      ensures Valid() && Rest() == buf[pos..]
    {
      this.buf, this.pos := buf, pos;
    }

    method Uvarint() returns (r: Result<nat>)
      requires Valid()
      modifies this
      ensures Valid() && r.Ok? == old(ReadUvarint(Rest())).Ok?
      ensures r.Ok? ==> old(ReadUvarint(Rest())) == Ok(Read(r.value, Rest()))
      ensures r.Err? ==> old(ReadUvarint(Rest())) == Err(r.error)
    {
      if ReadUvarint(Rest()).Ok? { UvarintCut(Rest(), 0); }
      var read :- ReadUvarint(Rest());
      pos := |buf| - |read.rest|;
      r := Ok(read.value);
    }

    method Varint() returns (r: Result<int>)
      requires Valid()
      modifies this
      ensures Valid() && r.Ok? == old(ReadVarint(Rest())).Ok?
      ensures r.Ok? ==> old(ReadVarint(Rest())) == Ok(Read(r.value, Rest()))
      ensures r.Err? ==> old(ReadVarint(Rest())) == Err(r.error)
    {
      var u :- Uvarint();
      r := Ok(Unzigzag(u));
    }

    method Word() returns (r: Result<nat>)
      requires Valid()
      modifies this
      ensures Valid() && r.Ok? == old(ReadWord(Rest())).Ok?
      ensures r.Ok? ==> old(ReadWord(Rest())) == Ok(Read(r.value, Rest()))
      ensures r.Err? ==> old(ReadWord(Rest())) == Err(r.error)
    {
      if |buf| - pos < 8 { return Err(Truncated); }
      r := Ok(WordValue(buf[pos..][..8]));
      pos := pos + 8;
    }
  }

  // ---------------------------------------------------------------------------------------
  // Decoding in place.

  /** What the rest of a bin block gives once the cells h have been read from it. */
  ghost function After(h: seq<Obs>, r: Result<Read<seq<Obs>>>): Result<Read<seq<Obs>>> {
    if r.Err? then r else Ok(Read(h + r.value.value, r.value.rest))
  }

  /** The array a of a sketch holds the cells h, counted up from the bucket first. */
  ghost predicate Filled(a: seq<nat>, h: seq<Obs>, first: int) {
    |a| == MAX_BINS && forall j :: 0 <= j < MAX_BINS ==> a[j] == CountAt(h, first + j)
  }

  /** The cells read so far: they start at first, end at index, and are good. */
  ghost predicate SoFar(h: seq<Obs>, first: int, index: int) {
    && GoodCells(h) && first <= index < first + MAX_BINS
    && (if h == [] then index == first else h[0].index == first && h[|h| - 1].index == index)
  }

  /** The fields of a sketch store a window, its last index as 32 bits keep it. */
  ghost predicate Stored(s: Sketch, v: View)
    reads s, s.bins
  {
    && v.Valid() && |s.bins[..]| == MAX_BINS && s.bins[..][..|v.cells|] == v.cells && Padded(s.bins[..], |v.cells|)
    && s.collapsed == v.collapsed && s.binTotal == Population(v) && (s.hasBins <==> v.cells != [])
    && (v.cells != [] ==> s.minIdx == v.lo && s.maxIdx == Narrow(v.Hi()) && IsInt32(v.lo))
  }

  /** A sketch whose last index fits is the window; otherwise it shows no bins. Whether a walk over
      its bins ends is a matter of the last index. */
  lemma StoredIs(s: Sketch, v: View)
    requires Stored(s, v)
    ensures !Wraps(v) ==> s.Shaped() && s.Indexed() && s.Window() == v && s.binTotal == Population(s.Window())
    ensures Wraps(v) <==> s.Narrowed()
    ensures RunsOff(v) <==> !s.Walks()
    ensures s.Clearable()
  {
    hide Population, Narrow;
    if v.cells != [] {
      NarrowIs(v.Hi());
      NarrowIs(s.maxIdx - s.minIdx);
      NarrowIs(Narrow(s.maxIdx - s.minIdx) + 1);
    }
  }

  lemma FillStart(a: seq<nat>, first: int, index: int)
    requires Padded(a, 0) && index == first
    ensures Filled(a, [], first) && SoFar([], first, index) && Total(a, MAX_BINS) == 0
  {
    TotalOfZeros(a, MAX_BINS);
  }

  lemma FillStep(a: seq<nat>, h: seq<Obs>, first: int, index: int, next: int, n: nat)
    requires Filled(a, h, first) && SoFar(h, first, index)
    requires 0 < n <= MAX_COUNT && next - first < MAX_BINS
    requires if h == [] then next == index else next > index
    ensures var b := a[next - first := n];
            && Filled(b, h + [Obs(next, n)], first) && SoFar(h + [Obs(next, n)], first, next)
            && Total(b, MAX_BINS) == Total(a, MAX_BINS) + n
  {
    hide CountAt, Total;
    MoreCells(h, first, index, next, n);
    NoneAt(h, first, index, next);
    TotalUpdate(a, next - first, n, MAX_BINS);
    forall k ensures CountAt(h + [Obs(next, n)], k) == CountAt(h, k) + if k == next then n else 0 {
      CountAppend(h, Obs(next, n), k);
    }
  }

  lemma NoneAt(h: seq<Obs>, first: int, index: int, next: int)
    requires SoFar(h, first, index) && if h == [] then next == index else next > index
    ensures CountAt(h, next) == 0
  {
    hide CountAt;
    CountOfAscending(h, next);
  }

  lemma MoreCells(h: seq<Obs>, first: int, index: int, next: int, n: nat)
    requires SoFar(h, first, index) && 0 < n <= MAX_COUNT && next - first < MAX_BINS
    requires if h == [] then next == index else next > index
    ensures SoFar(h + [Obs(next, n)], first, next)
  {
    var g := h + [Obs(next, n)];
    assert forall j :: 0 <= j < |h| ==> g[j] == h[j];
  }

  lemma FillEnd(a: seq<nat>, h: seq<Obs>, first: int, index: int, c: bool)
    requires Filled(a, h, first) && SoFar(h, first, index) && h != []
    ensures 0 < index - first + 1 <= MAX_BINS && Padded(a, index - first + 1)
    ensures Window(h, c) == View(first, a[..index - first + 1], c) && Window(h, c).Valid()
    ensures Population(Window(h, c)) == Total(a, MAX_BINS)
  {
    hide CountAt, Total, View.UpTo;
    WindowValid(h, c);
    forall j | 0 <= j < MAX_BINS
      ensures a[j] <= MAX_COUNT && (index - first < j ==> a[j] == 0)
    {
      CountOfAscending(h, first + j);
    }
    assert Window(h, c).cells == a[..index - first + 1];
    TotalOfPadded(a, index - first + 1, MAX_BINS);
    BeyondHi(Window(h, c), index);
  }

  lemma NoWindow(c: bool)
    ensures Window([], c) == View(0, [], c) && Window([], c).Valid() && Population(Window([], c)) == 0
  {
  }

  /** Reads a block of at least one bin into an empty sketch. */
  method DecodeBins(r: Reader, s: Sketch, numBins: nat, first: int) returns (out: Result<()>)
    requires r.Valid() && 0 < numBins && IsInt32(first)
    requires s.Shaped() && !s.hasBins && s.binTotal == 0
    modifies r, s`binTotal, s`hasBins, s`minIdx, s`maxIdx, s.bins
    ensures r.Valid() && out.Ok? == old(ReadBins(r.Rest(), numBins, true, first, first)).Ok?
    ensures out.Err? ==> old(ReadBins(r.Rest(), numBins, true, first, first)) == Err(out.error)
    ensures out.Ok? ==>
              var read := old(ReadBins(r.Rest(), numBins, true, first, first)).value;
              r.Rest() == read.rest && Stored(s, Window(read.value, s.collapsed))
  {
    hide ReadBins, ReadUvarint, Window, Filled, Total, Population, Padded, SoFar, GoodCells, Narrow, View.Valid;
    ghost var s0 := r.Rest();
    ghost var h: seq<Obs> := [];
    var index := first;
    FillStart(s.bins[..], first, index);
    AfterNothing(ReadBins(s0, numBins, true, first, first));
    var i := 0;
    while i < numBins
      invariant i <= numBins && r.Valid() && s.bins.Length == MAX_BINS && |h| == i
      invariant ReadBins(s0, numBins, true, first, first)
             == After(h, ReadBins(r.Rest(), numBins - i, i == 0, index, first))
      invariant first <= index < first + MAX_BINS
      invariant Filled(s.bins[..], h, first) && SoFar(h, first, index)
      invariant s.binTotal == Total(s.bins[..], MAX_BINS)
    {
      BinsUnfold(r.Rest(), numBins - i, i == 0, index, first);
      var delta :- r.Uvarint();
      if (i == 0) != (delta == 0) { return Err(Corrupt); }
      if delta >= MAX_BINS { return Err(Corrupt); }
      var next := index + delta;
      if next - first >= MAX_BINS { return Err(Corrupt); }
      var binCount :- r.Uvarint();
      if binCount == 0 { return Err(Corrupt); }
      if binCount > MAX_COUNT { return Err(Corrupt); }
      FillStep(s.bins[..], h, first, index, next, binCount);
      s.bins[next - first] := binCount;
      s.binTotal := s.binTotal + binCount;
      AfterOneMore(h, Obs(next, binCount), ReadBins(r.Rest(), numBins - i - 1, false, next, first));
      h := h + [Obs(next, binCount)];
      index := next;
      i := i + 1;
    }
    EndOfBlock(r.Rest(), h, index, first);
    FillEnd(s.bins[..], h, first, index, s.collapsed);
    s.hasBins, s.minIdx, s.maxIdx := true, first, Narrow(index);
    out := Ok(());
  }

  lemma AfterNothing(r: Result<Read<seq<Obs>>>)
    ensures After([], r) == r
  {
    if r.Ok? { assert [] + r.value.value == r.value.value; }
  }

  lemma AfterOneMore(h: seq<Obs>, o: Obs, r: Result<Read<seq<Obs>>>)
    ensures After(h + [o], r)
         == if r.Err? then r else After(h, Ok(Read([o] + r.value.value, r.value.rest)))
  {
    if r.Ok? { assert h + [o] + r.value.value == h + ([o] + r.value.value); }
  }

  lemma EndOfBlock(s: seq<Byte>, h: seq<Obs>, index: int, first: int)
    ensures After(h, ReadBins(s, 0, false, index, first)) == Ok(Read(h, s))
  {
    assert h + [] == h;
  }

  // ---------------------------------------------------------------------------------------
  // The whole sketch.

  /** Reads the bin block, which may be empty, into an empty sketch. */
  method DecodeBlock(r: Reader, s: Sketch, numBins: nat, first: int) returns (out: Result<()>)
    requires r.Valid() && s.Shaped() && !s.hasBins && s.binTotal == 0
    modifies r, s`binTotal, s`hasBins, s`minIdx, s`maxIdx, s.bins
    ensures r.Valid() && out.Ok? == old(ReadBinBlock(r.Rest(), numBins, first)).Ok?
    ensures out.Err? ==> old(ReadBinBlock(r.Rest(), numBins, first)) == Err(out.error)
    ensures out.Ok? ==>
              var read := old(ReadBinBlock(r.Rest(), numBins, first)).value;
              r.Rest() == read.rest && Stored(s, Window(read.value, s.collapsed))
  {
    hide ReadBins, Window, Population, Padded;
    NoWindow(s.collapsed);
    if numBins == 0 {
      if first != 0 { return Err(Corrupt); }
      return Ok(());
    }
    if first < MIN_INT32 || first > MAX_INT32 { return Err(Corrupt); }
    out := DecodeBins(r, s, numBins, first);
  }

  /** Everything after the header. Returns the bits of the sum. */
  method DecodeBody(r: Reader, dst: Sketch, scale: nat, collapsed: bool, float: nat -> real) returns (out: Result<nat>)
    requires r.Valid() && dst.Clearable()
    modifies r, dst, dst.bins
    ensures r.Valid() && out.Ok? == old(ReadBody(r.Rest())).Ok?
    ensures out.Err? ==> old(ReadBody(r.Rest())) == Err(out.error)
    ensures out.Ok? ==>
              && r.Rest() == old(ReadBody(r.Rest())).value.rest
              && dst.scale == scale && dst.sum == float(out.value) && dst.saturations == 0
              && var f := old(ReadBody(r.Rest())).value.value;
                 && f == Fields(dst.zeroCount, dst.count, out.value, f.bins) && Stored(dst, Window(f.bins, collapsed))
  {
    hide ReadUvarint, ReadWord, ReadCells, Window, Population, Finite, View.Valid, Padded, Narrow;
    var zeroCount :- r.Uvarint();
    var count :- r.Uvarint();
    var sum :- r.Word();
    if !Finite(sum) { return Err(Corrupt); }
    var _ :- DecodeCells(r, dst, collapsed);
    dst.scale, dst.sum, dst.count, dst.zeroCount := scale, float(sum), count, zeroCount;
    out := Ok(sum);
  }

  /** The number of bins, the first index and the bin block, into an emptied sketch. */
  method DecodeCells(r: Reader, dst: Sketch, collapsed: bool) returns (out: Result<()>)
    requires r.Valid() && dst.Clearable()
    modifies r, dst, dst.bins
    ensures r.Valid() && out.Ok? == old(ReadCells(r.Rest())).Ok?
    ensures out.Err? ==> old(ReadCells(r.Rest())) == Err(out.error)
    ensures out.Ok? ==>
              var read := old(ReadCells(r.Rest())).value;
              && r.Rest() == read.rest && dst.saturations == 0 && dst.collapsed == collapsed
              && Stored(dst, Window(read.value, collapsed))
  {
    hide ReadBinBlock, ReadUvarint, ReadVarint, Window, Population, Padded, View.Valid, Narrow;
    var numBins :- r.Uvarint();
    if numBins > MAX_SERIALIZED_BINS { return Err(Corrupt); }
    var first :- r.Varint();
    dst.Reset();
    dst.collapsed := collapsed;
    out := DecodeBlock(r, dst, numBins, first);
  }

  lemma StoredFields(s: Sketch, v: View)
    requires Stored(s, v)
    ensures v.Valid() && s.binTotal == Population(v)
  {
  }

  /** Replaces what dst holds by the decoded sketch. A failed decode leaves dst in no particular
      state; a successful one leaves it fit for the next. float gives the real number a finite bit
      pattern stands for. The sketch is the decoded one if its last index fits 32 bits, and shows no
      bins otherwise; a walk over its bins ends unless that index is the greatest. */
  method DecodeInto(dst: Sketch, data: seq<Byte>, float: nat -> real) returns (out: Result<nat>)
    requires dst.Clearable()
    modifies dst, dst.bins
    ensures out.Ok? == Decode(data).Ok?
    ensures out.Err? ==> Decode(data) == Err(out.error)
    ensures out.Ok? ==>
              var p := Decode(data).value;
              && dst.saturations == 0 && dst.sum == float(out.value) && dst.scale == p.scale && dst.zeroCount == p.zeroCount
              && dst.count == p.count && out.value == p.sum && Stored(dst, p.view)
              && dst.Clearable() && (Wraps(p.view) <==> dst.Narrowed()) && (RunsOff(p.view) <==> !dst.Walks())
              && (!Wraps(p.view) ==> dst.Valid() && dst.Window() == p.view)
  {
    hide ReadBody, Window, Population, Padded, View.Valid, Narrow, Stored;
    if |data| < 3 { return Err(Truncated); }
    if data[0] != VERSION { return Err(BadVersion); }
    if data[1] > MAX_SCALE { return Err(BadScale); }
    if data[2] > 1 { return Err(Corrupt); }
    var r := new Reader(data, 3);
    var sum :- DecodeBody(r, dst, data[1], data[2] == 1, float);
    if r.pos != |r.buf| { return Err(Corrupt); }
    ghost var v := Window(ReadBody(data[3..]).value.value.bins, data[2] == 1);
    StoredIs(dst, v);
    StoredFields(dst, v);
    if dst.count < dst.zeroCount || dst.count - dst.zeroCount < dst.binTotal { return Err(Corrupt); }
    out := Ok(sum);
  }

  /** Appends the serialized form of s to dst, or gives nothing when counting the bins runs off their
      array. A sketch beyond the bin cap is collapsed in a copy; s itself is not changed. A sketch
      whose end lies below its start is written without bins. */
  method AppendTo(s: Sketch, sum: nat, dst: seq<Byte>) returns (out: Option<seq<Byte>>)
    requires (s.Valid() || s.Narrowed()) && s.scale < 256
    ensures out.Some? <==> s.Walks()
    ensures out.Some? && s.Valid() ==>
              out.value == dst + Encode(Packed(s.scale, s.zeroCount, s.count, sum, s.Window()))
    ensures s.Narrowed() ==>
              out == Some(dst + Encode(Packed(s.scale, s.zeroCount, s.count, sum, View(0, [], s.collapsed))))
  {
    hide Population, Padded, View.Valid, Capped, Encode, Populated, BinBytes, Sketch.Shaped, Layout;
    ghost var shown := if s.Narrowed() then View(0, [], s.collapsed) else s.Window();
    ghost var p := Packed(s.scale, s.zeroCount, s.count, sum, shown);
    NarrowedOrShaped(s);
    WithinCap(shown);
    NothingStored(View(0, [], s.collapsed));
    var src := s;
    var populated := s.PopulatedBins();
    if populated.None? { return None; }
    if populated.value > MAX_SERIALIZED_BINS {
      src := new Sketch.Copy(s);
      var _ := src.CollapseToBinCap(MAX_SERIALIZED_BINS);
      populated := src.PopulatedBins();
    }
    var first := if src.hasBins && src.minIdx <= src.maxIdx then src.minIdx else 0;
    var bins := AppendBins(src, first);
    EncodeIs(p, if s.Narrowed() then shown else src.Window(), populated.value, first, bins);
    out := Some(dst + Layout(src.scale, src.collapsed, src.zeroCount, src.count, sum, populated.value, first, bins));
  }

  /** The fields of a serialized sketch one after another. */
  function Layout(scale: nat, collapsed: bool, zeroCount: nat, count: nat, sum: nat, populated: nat, first: int,
                  bins: seq<Byte>): seq<Byte>
    requires scale < 256
  {
    [VERSION, scale, FlagByte(collapsed)]
    + (UvarintBytes(zeroCount)
       + (UvarintBytes(count) + (WordBytes(sum, 8) + (UvarintBytes(populated) + (VarintBytes(first) + bins)))))
  }

  lemma NarrowedOrShaped(s: Sketch)
    ensures !(s.Shaped() && s.Narrowed())
  {
  }

  lemma WithinCap(v: View)
    ensures Populated(v.cells) <= MAX_SERIALIZED_BINS ==> Capped(v, MAX_SERIALIZED_BINS) == v
  {
  }

  lemma EncodeIs(p: Packed, v: View, populated: nat, first: int, bins: seq<Byte>)
    requires p.scale < 256 && v.Valid() && v == Capped(p.view, MAX_SERIALIZED_BINS)
    requires populated == Populated(v.cells)
    requires first == FirstIndex(CellsOf(v)) && bins == BinBytes(CellsOf(v), first)
    ensures Encode(p) == Layout(p.scale, v.collapsed, p.zeroCount, p.count, p.sum, populated, first, bins)
  {
    hide Capped, Populated, Cells, BinBytes, UvarintBytes, WordBytes, VarintBytes, View.Valid;
    CellsOfWindow(v);
  }

  /** The bucket the next distance is measured from. */
  function LastIndex(g: seq<Obs>, first: int): int { if g == [] then first else g[|g| - 1].index }

  /** The buffer holds the bins among the first n cells of v. */
  ghost predicate BlockSoFar(v: View, n: int, first: int, prev: int, out: seq<Byte>) {
    && 0 <= n <= |v.cells|
    && var g := Cells(v, n);
       Ascending(g) && (g != [] ==> first <= g[0].index) && prev == LastIndex(g, first) && out == BinBytes(g, first)
  }

  lemma {:induction false} BinBytesAppend(g: seq<Obs>, o: Obs, prev: int)
    requires Ascending(g) && Ascending(g + [o]) && (g != [] ==> prev <= g[0].index)
    requires LastIndex(g, prev) <= o.index
    ensures prev <= (g + [o])[0].index
    ensures BinBytes(g + [o], prev)
         == BinBytes(g, prev) + UvarintBytes(o.index - LastIndex(g, prev)) + UvarintBytes(o.n)
  {
    hide UvarintBytes, BinBytes;
    if g == [] {
      assert g + [o] == [o] + [];
      BinBytesCons(o, [], prev);
      assert [] + UvarintBytes(o.index - prev) == UvarintBytes(o.index - prev);
    } else {
      assert g[0] == (g + [o])[0] && g[|g| - 1] == (g + [o])[|g| - 1] && o == (g + [o])[|g|];
      BinBytesAppend(g[1..], o, g[0].index);
      assert g == [g[0]] + g[1..] && g + [o] == [g[0]] + (g[1..] + [o]);
      BinBytesCons(g[0], g[1..], prev);
      BinBytesCons(g[0], g[1..] + [o], prev);
    }
  }

  lemma BinBytesCons(o: Obs, tail: seq<Obs>, prev: int)
    requires Ascending([o] + tail) && Ascending(tail) && prev <= o.index && (tail != [] ==> o.index <= tail[0].index)
    ensures BinBytes([o] + tail, prev) == UvarintBytes(o.index - prev) + UvarintBytes(o.n) + BinBytes(tail, o.index)
    ensures BinBytes([], prev) == [] == BinBytes([], o.index)
  {
    hide UvarintBytes;
    assert ([o] + tail)[1..] == tail;
  }

  lemma BlockGrows(v: View, n: nat, first: int, prev: int, out: seq<Byte>)
    requires n < |v.cells| && first == v.lo && BlockSoFar(v, n, first, prev, out)
    ensures v.cells[n] == 0 ==> BlockSoFar(v, n + 1, first, prev, out)
    ensures v.cells[n] != 0 ==>
              prev <= first + n
              && BlockSoFar(v, n + 1, first, first + n,
                            out + UvarintBytes(first + n - prev) + UvarintBytes(v.cells[n]))
  {
    hide UvarintBytes, BinBytes;
    CellsAscend(v, n + 1);
    CellsIndexes(v, n);
    if v.cells[n] != 0 {
      BinBytesAppend(Cells(v, n), Obs(v.lo + n, v.cells[n]), first);
    }
  }

  lemma BlockEnds(v: View, first: int)
    requires v.Valid()
    ensures v.cells != [] ==> v.lo == FirstIndex(CellsOf(v)) && BlockSoFar(v, 0, v.lo, v.lo, [])
    ensures v.cells == [] ==> FirstIndex(CellsOf(v)) == 0 && BinBytes(CellsOf(v), 0) == []
  {
    CellsOfWindow(v);
  }

  /** The bin block of a sketch: the populated bins from the lowest up. */
  method AppendBins(src: Sketch, first: int) returns (out: seq<Byte>)
    requires src.Valid() || src.Narrowed()
    requires first == if src.hasBins && src.minIdx <= src.maxIdx then src.minIdx else 0
    ensures src.Valid() ==> first == FirstIndex(CellsOf(src.Window())) && out == BinBytes(CellsOf(src.Window()), first)
    ensures src.Narrowed() ==> first == FirstIndex(CellsOf(View(0, [], src.collapsed))) && out == BinBytes(CellsOf(View(0, [], src.collapsed)), first)
  {
    hide Population, Padded, View.Valid, Cells, BinBytes, Ascending, LastIndex;
    ghost var v := if src.Narrowed() then View(0, [], src.collapsed) else src.Window();
    NothingStored(View(0, [], src.collapsed));
    BlockEnds(v, first);
    out := [];
    if !src.hasBins || src.maxIdx < src.minIdx { return; }
    var prev := first;
    var i := 0;
    while i < src.maxIdx - src.minIdx + 1
      invariant 0 <= i <= |v.cells| && BlockSoFar(v, i, first, prev, out)
    {
      var c := src.bins[i];
      BlockGrows(v, i, first, prev, out);
      if c != 0 {
        out := out + UvarintBytes(first + i - prev) + UvarintBytes(c);
        prev := first + i;
      }
      i := i + 1;
    }
  }
}
