/**
 The sketch as it is stored: a dense array of MAX_BINS counters, moved and folded in place.

 Every method is proved against the value-level operation of SketchSpec or SketchValues. The
 float sum is a real and the counters are unbounded, which is the same as saying that no
 population reaches 2^63. Bucket indexes are 32-bit integers, and a walk over the bins counts
 upwards in 32 bits: when the last index is the greatest one it runs off the array, which the
 methods that walk report as not having ended.
 */
module Sketches {
  import opened Int32
  import opened Options
  import opened SketchSpec
  import opened Mapping
  import opened SketchMoves
  import opened SketchValues

  /** Moves n cells, which may overlap the place they move to. */
  method CopyWithin(a: array<nat>, to: nat, from: nat, n: nat)
    requires to + n <= a.Length && from + n <= a.Length
    modifies a
    ensures a[..] == Moved(old(a[..]), to, from, n)
  {
    forall k | to <= k < to + n {
      a[k] := a[k - to + from];
    }
  }

  method Clear(a: array<nat>, lo: nat, hi: nat)
    requires lo <= hi <= a.Length
    modifies a
    ensures a[..] == Zeroed(old(a[..]), lo, hi)
  {
    forall k | lo <= k < hi {
      a[k] := 0;
    }
  }

  /** An empty bin changes nothing in the coarser array. */
  lemma SkipBin(f: seq<nat>, v: View, k: nat, s: nat, lo: int)
    requires k < |v.cells| && v.cells[k] == 0 && FoldedSoFar(f, v, k, s, lo)
    ensures FoldedSoFar(f, v, k + 1, s, lo) && Total(v.cells, k + 1) == Total(v.cells, k)
  {
  }

  /** A coarser index is a 32-bit integer too, and one shifted at all is not the greatest. */
  lemma ShiftInt32(i: int, s: nat)
    requires IsInt32(i)
    ensures IsInt32(Shift(i, s)) && (s > 0 || i < MAX_INT32 ==> Shift(i, s) < MAX_INT32)
  {
    Pow2Positive(s);
    var d := Pow2(s);
    var q := i / d;
    assert q * d <= i < q * d + d;
    if s > 0 { Pow2Positive(s - 1); }
  }

  class Sketch {
    var sum: real
    var count: nat
    var zeroCount: nat
    var binTotal: nat
    var saturations: nat
    var minIdx: int
    var maxIdx: int
    var scale: nat
    var collapsed: bool
    var hasBins: bool
    const bins: array<nat>

    ghost function Used(): int
      reads this
    {
      if hasBins then maxIdx - minIdx + 1 else 0
    }

    /** The window bounds are 32-bit integers. */
    ghost predicate Indexed()
      reads this
    {
      hasBins ==> MIN_INT32 <= minIdx && maxIdx <= MAX_INT32
    }

    /** The last index is below the greatest one, so a walk over the bins ends. */
    ghost predicate Walks()
      reads this
    {
      hasBins ==> maxIdx < MAX_INT32
    }

    /** The array and the window bounds fit together; everything above the window is zero. */
    ghost predicate Shaped()
      reads this, bins
    {
      && bins.Length == MAX_BINS
      && (hasBins ==> 0 < Used() <= MAX_BINS)
      && Padded(bins[..], Used())
    }

    ghost function Window(): View
      reads this, bins
      requires Shaped()
    {
      View(if hasBins then minIdx else 0, bins[..][..Used()], collapsed)
    }

    ghost function Val(): Value
      reads this, bins
      requires Shaped()
    {
      Value(scale, count, zeroCount, sum, Window())
    }

    ghost predicate Valid()
      reads this, bins
    {
      && Shaped() && Indexed()
      && Window().Valid()
      && binTotal == Population(Window())
      && zeroCount + binTotal <= count
    }

    /** An empty sketch at the given scale. */
    constructor (scale: nat)
      ensures Valid() && fresh(bins)
      ensures Val() == Value(scale, 0, 0, 0.0, EMPTY) && saturations == 0 && binTotal == 0
    {
      sum, count, zeroCount, binTotal, saturations := 0.0, 0, 0, 0, 0;
      minIdx, maxIdx, collapsed, hasBins := 0, 0, false, false;
      this.scale := scale;
      bins := new nat[MAX_BINS](_ => 0);
    }

    constructor Copy(other: Sketch)
      requires other.Valid()
      ensures Valid() && fresh(bins)
      ensures Val() == other.Val() && saturations == other.saturations && binTotal == other.binTotal
      ensures Walks() <==> other.Walks()
    {
      sum, count, zeroCount, binTotal := other.sum, other.count, other.zeroCount, other.binTotal;
      saturations, minIdx, maxIdx := other.saturations, other.minIdx, other.maxIdx;
      scale, collapsed, hasBins := other.scale, other.collapsed, other.hasBins;
      bins := new nat[MAX_BINS](i requires 0 <= i < other.bins.Length reads other.bins => other.bins[i]);
      new;
      assert bins[..Used()] == other.bins[..Used()];
    }

    // -------------------------------------------------------------------------------------
    // The array primitives.

    /** A saturating add to one position; stored is below n exactly when the bin clamps. */
    method AddAt(pos: nat, n: nat) returns (stored: nat)
      requires bins.Length == MAX_BINS && pos < MAX_BINS && bins[pos] <= MAX_COUNT
      modifies bins, `saturations
      ensures bins[..] == old(bins[..])[pos := Clamp(old(bins[pos]) + n)]
      ensures stored == n - Lost(old(bins[pos]), n)
      ensures saturations == old(saturations) + if stored < n then 1 else 0
    {
      var cur := bins[pos];
      var total := cur + n;
      if total <= MAX_COUNT {
        bins[pos] := total;
        return n;
      }
      bins[pos] := MAX_COUNT;
      saturations := saturations + 1;
      return MAX_COUNT - cur;
    }

    /** Lowers the floor of the window without moving any count to another bucket. */
    method ExtendTo(newMin: int)
      requires Shaped() && hasBins && newMin <= minIdx && maxIdx - newMin < MAX_BINS
      modifies bins, `minIdx
      ensures Shaped() && minIdx == newMin && Window() == Lowered(old(Window()), newMin)
    {
      hide View.UpTo, Total, Moved, Zeroed, Blank, Padded;
      var shift := minIdx - newMin;
      var used := maxIdx - minIdx + 1;
      ShiftedUp(bins[..], shift, used);
      CopyWithin(bins, shift, 0, used);
      Clear(bins, 0, shift);
      minIdx := newMin;
    }

    /** Raises the top of the window over bins that are already zero. */
    method RaiseTo(newMax: int)
      requires Shaped() && hasBins && maxIdx <= newMax && newMax - minIdx < MAX_BINS
      modifies `maxIdx
      ensures Shaped() && maxIdx == newMax && Window() == Raised(old(Window()), newMax)
    {
      hide Population, Blank, Padded;
      PaddedMore(bins[..], Used(), newMax - minIdx + 1);
      maxIdx := newMax;
    }

    /** Raises the floor of the window, folding everything below it into the lowest bin. */
    method CollapseTo(newMin: int)
      requires Shaped() && hasBins && newMin > minIdx && bins[..][0] > 0 && binTotal == Population(Window())
      modifies this`minIdx, this`maxIdx, this`binTotal, this`collapsed, this`saturations, bins
      ensures Shaped() && minIdx == newMin && maxIdx == Max(newMin, old(maxIdx))
      ensures Window() == Folded(old(Window()), newMin)
      ensures binTotal == Population(Window()) <= old(binTotal)
      ensures saturations == old(saturations) + if binTotal < old(binTotal) then 1 else 0
    {
      hide Population, Total, Folded, SlidDown, Padded, Clamp, Lost, Max, Min;
      ghost var v := Window();
      var shift := newMin - minIdx;
      var used := maxIdx - minIdx + 1;
      var merged := MergedBelow(shift, used);
      CollapseFacts(v, bins[..], used, shift, newMin, Max(newMin, maxIdx), merged);
      Slide(shift, used, merged);
    }

    /** Moves the window up by shift and adds what fell off it to the lowest bin; a bin that
        clamps loses the rest of it. */
    method Slide(shift: nat, used: nat, merged: nat)
      requires bins.Length == MAX_BINS && 0 < used <= MAX_BINS && used == maxIdx - minIdx + 1
      requires merged <= binTotal && SlidDown(bins[..], shift, used)[0] <= MAX_COUNT
      modifies this`minIdx, this`maxIdx, this`binTotal, this`collapsed, this`saturations, bins
      ensures var b := SlidDown(old(bins[..]), shift, used);
              && bins[..] == b[0 := Clamp(b[0] + merged)]
              && binTotal == old(binTotal) - Lost(b[0], merged)
      ensures saturations == old(saturations) + if binTotal < old(binTotal) then 1 else 0
      ensures minIdx == old(minIdx) + shift && maxIdx == Max(minIdx, old(maxIdx))
      ensures collapsed == (old(collapsed) || merged > 0)
    {
      hide SlidDown;
      SlideDown(shift, used);
      ghost var b := bins[..];
      if merged > 0 {
        collapsed := true;
        var stored := AddAt(0, merged);
        binTotal := binTotal - (merged - stored);
      }
      assert bins[..] == b[0 := Clamp(b[0] + merged)];
      minIdx := minIdx + shift;
      maxIdx := Max(minIdx, maxIdx);
    }

    method SlideDown(shift: nat, used: nat)
      requires 0 < used <= bins.Length
      modifies bins
      ensures bins[..] == SlidDown(old(bins[..]), shift, used)
    {
      if shift >= used {
        Clear(bins, 0, used);
      } else {
        CopyWithin(bins, 0, shift, used - shift);
        Clear(bins, used - shift, used);
      }
    }

    /** The population of the bins that fall off when the window moves up by shift. */
    method MergedBelow(shift: nat, used: nat) returns (merged: nat)
      requires used <= bins.Length
      ensures merged == Total(bins[..][..Min(shift, used)], Min(shift, used))
    {
      merged := 0;
      var i := 0;
      while i < shift && i < used
        invariant i <= Min(shift, used)
        invariant merged == Total(bins[..][..Min(shift, used)], i)
      {
        merged := merged + bins[i];
        i := i + 1;
      }
    }

    /** Grows or collapses the window until it can hold a bucket, and says where the bucket's
        counts go: its own index, or the floor when it lies below it. */
    method MakeRoom(index: int) returns (target: int)
      requires Valid() && hasBins && IsInt32(index)
      modifies this`minIdx, this`maxIdx, this`binTotal, this`collapsed, this`saturations, bins
      ensures Shaped() && Indexed() && Window() == MakeRoomView(old(Window()), index)
      ensures target == Max(index, minIdx) && minIdx <= target <= maxIdx
      ensures binTotal == Population(Window()) <= old(binTotal)
      ensures saturations == old(saturations) + if binTotal < old(binTotal) then 1 else 0
    {
      hide Population, Folded, Raised, Lowered, Padded;
      ghost var v := Window();
      target := index;
      if index > maxIdx {
        if index - minIdx >= MAX_BINS {
          CollapseTo(index - MAX_BINS + 1);
        }
        BoundsKeepPopulation(Window(), minIdx, index);
        RaiseTo(index);
      } else if index < minIdx {
        var lowest := maxIdx - MAX_BINS + 1;
        if index < lowest {
          BoundsKeepPopulation(v, lowest, maxIdx);
          ExtendTo(lowest);
          BoundsKeepPopulation(Window(), lowest, maxIdx);
          collapsed := true;
          target := lowest;
        } else {
          BoundsKeepPopulation(v, index, maxIdx);
          ExtendTo(index);
        }
      }
    }

    /** n more observations of a bucket. */
    method Add(index: int, n: nat)
      requires Valid() && zeroCount + binTotal + n <= count && IsInt32(index)
      modifies this`minIdx, this`maxIdx, this`binTotal, this`collapsed, this`hasBins, this`saturations, bins
      ensures Valid()
      ensures Window() == if n == 0 then old(Window()) else AddView(old(Window()), index, n)
      ensures binTotal <= old(binTotal) + n && saturations >= old(saturations)
      ensures saturations == old(saturations) <==> binTotal == old(binTotal) + n
    {
      hide Population, AddView, MakeRoomView, View.Valid, Padded, Clamp;
      ghost var v := Window();
      if n == 0 { return; }
      if !hasBins {
        FirstCount(v, bins[..], index, n);
        hasBins := true;
        minIdx, maxIdx := index, index;
        var stored := AddAt(0, n);
        binTotal := binTotal + stored;
        return;
      }
      var target := MakeRoom(index);
      RoomThenAdd(v, Window(), bins[..], Used(), index, target, n);
      var stored := AddAt(target - minIdx, n);
      binTotal := binTotal + stored;
    }

    // -------------------------------------------------------------------------------------
    // Observing.

    /** One finite value. The bucket index of a positive value comes from the mapping; the
        logarithm that computes it is not part of this model. */
    method Observe(value: real, index: int, ghost gamma: real)
      requires Valid() && gamma > 1.0 && IsInt32(index) && (value > 0.0 ==> IsIndex(gamma, value, index))
      modifies this, bins
      ensures Valid() && Val() == ObserveValue(old(Val()), gamma, value)
      ensures saturations == old(saturations) <==> Ranked(Val()) == old(Ranked(Val())) + 1
    {
      hide Population, AddView, View.Valid, Padded, IsIndex, Canonical;
      RankedIs(Val());
      count := count + 1;
      sum := sum + value;
      if value <= 0.0 {
        zeroCount := zeroCount + 1;
        RankedIs(Val());
        return;
      }
      IndexUnique(gamma, value, index, Index(gamma, value));
      Add(index, 1);
      RankedIs(Val());
    }

    /** How many bins are in use, counted in 32 bits: right even when the last index has wrapped. */
    ghost function Span(): int
      reads this
    {
      if hasBins then Narrow(Narrow(maxIdx - minIdx) + 1) else 0
    }

    /** Every bin beyond those in use is zero, as any method of this class and any successful decode
        leaves it. */
    ghost predicate Clearable()
      reads this, bins
    {
      bins.Length == MAX_BINS && (hasBins ==> 0 < Span() <= MAX_BINS) && Padded(bins[..], Span())
    }

    lemma ShapedIsClearable()
      requires Shaped()
      ensures Clearable()
    {
      NarrowIs(maxIdx - minIdx);
      NarrowIs(maxIdx - minIdx + 1);
    }

    /** Back to the empty state, clearing only the bins in use. */
    method Reset()
      requires Clearable()
      modifies this, bins
      ensures Valid() && !hasBins && Val() == Value(0, 0, 0, 0.0, EMPTY)
      ensures saturations == 0 && binTotal == 0 && Padded(bins[..], 0)
    {
      if hasBins {
        Clear(bins, 0, Narrow(Narrow(maxIdx - minIdx) + 1));
      }
      sum, count, zeroCount, binTotal, saturations := 0.0, 0, 0, 0, 0;
      minIdx, maxIdx, scale := 0, 0, 0;
      collapsed, hasBins := false, false;
    }

    // -------------------------------------------------------------------------------------
    // Scales and merging.

    /** Re-expresses the sketch at a coarser scale. */
    method Downscale(target: nat) returns (ended: bool)
      requires Valid()
      modifies this`scale, this`minIdx, this`maxIdx, this`binTotal, this`saturations, bins
      ensures ended <==> (target < old(scale) ==> old(Walks()))
      ensures ended ==> Valid() && Val() == DownscaleValue(old(Val()), target)
      ensures ended ==> binTotal <= old(binTotal) && saturations >= old(saturations)
      ensures ended ==> (saturations == old(saturations) <==> binTotal == old(binTotal))
      ensures ended && target < old(scale) ==> Walks()
    {
      ended := true;
      if target < scale {
        var shift := scale - target;
        scale := target;
        ended := DownscaleBy(shift);
      }
    }

    method DownscaleBy(shift: nat) returns (ended: bool)
      requires Valid()
      modifies this`minIdx, this`maxIdx, this`binTotal, this`saturations, bins
      ensures ended <==> old(Walks())
      ensures ended ==> Valid() && Walks() && Window() == DownscaleView(old(Window()), shift)
      ensures ended ==> binTotal <= old(binTotal) && saturations >= old(saturations)
      ensures ended ==> (saturations == old(saturations) <==> binTotal == old(binTotal))
    {
      hide Population, DownscaleView, View.Valid, Padded, Shift, Cells, FoldedSoFar, Total;
      DownscaleKeepsValid(Window(), shift);
      if !hasBins { return true; }
      var newMin, newMax := Shift(minIdx, shift), Shift(maxIdx, shift);
      ShiftInt32(minIdx, shift);
      ShiftInt32(maxIdx, shift);
      var folded;
      folded, ended := FoldBins(shift, newMin);
      if !ended { return; }
      ghost var f := folded[..];
      FoldEnd(f, Window(), shift, newMin, newMax);
      forall k | 0 <= k < MAX_BINS {
        bins[k] := folded[k];
      }
      assert bins[..] == f;
      minIdx, maxIdx := newMin, newMax;
    }

    /** The bins shifted to their coarser indexes, counted up from newMin. */
    method FoldBins(shift: nat, newMin: int) returns (folded: array<nat>, ended: bool)
      requires Valid() && hasBins && newMin == Shift(minIdx, shift)
      modifies `binTotal, `saturations
      ensures fresh(folded) && (ended <==> old(Walks()))
      ensures ended ==> folded.Length == MAX_BINS && FoldedSoFar(folded[..], Window(), Used(), shift, newMin)
      ensures ended ==> binTotal == Total(folded[..], MAX_BINS) <= old(binTotal) && saturations >= old(saturations)
      ensures ended ==> (saturations == old(saturations) <==> binTotal == old(binTotal))
    {
      hide Population, View.Valid, Padded, Shift, Cells, FoldedSoFar, Total, Lost, Clamp, Narrow;
      ghost var v := Window();
      folded := new nat[MAX_BINS](_ => 0);
      FoldStart(folded[..], v, shift, newMin);
      MergeEnds(v, v);
      NarrowIs(minIdx);
      var i := minIdx;
      ghost var k := 0;
      while i <= maxIdx
        invariant 0 <= k <= MAX_BINS && i == Narrow(minIdx + k) && (k <= |v.cells| || maxIdx == MAX_INT32)
        invariant Shaped() && Window() == v && fresh(folded) && folded.Length == MAX_BINS
        invariant k <= |v.cells| ==> FoldedSoFar(folded[..], v, k, shift, newMin)
        invariant k <= |v.cells| ==>
                    binTotal == Total(folded[..], MAX_BINS) + Population(v) - Total(v.cells, k) <= old(binTotal)
        invariant saturations >= old(saturations)
        invariant k <= |v.cells| ==> (saturations == old(saturations) <==> binTotal == old(binTotal))
        decreases MAX_BINS - k
      {
        NextBin(k);
        var pos := Narrow(i - minIdx);
        if pos >= MAX_BINS { return folded, false; }
        var c := bins[pos];
        if c != 0 {
          FoldBin(folded, k, i, c, shift, newMin);
        } else if k < |v.cells| {
          SkipBin(folded[..], v, k, shift, newMin);
        }
        i := Narrow(i + 1);
        k := k + 1;
      }
      LastBin(k);
      ended := true;
    }

    /** Adds one bin to the coarser array. */
    method FoldBin(folded: array<nat>, ghost k: nat, i: int, c: nat, shift: nat, newMin: int)
      requires Shaped() && hasBins && k < Used() && i == minIdx + k && c == bins[k] && newMin == Shift(minIdx, shift)
      requires folded != bins && folded.Length == MAX_BINS && FoldedSoFar(folded[..], Window(), k, shift, newMin)
      requires binTotal == Total(folded[..], MAX_BINS) + Population(Window()) - Total(Window().cells, k)
      modifies folded, `binTotal, `saturations
      ensures Shaped() && Window() == old(Window()) && FoldedSoFar(folded[..], Window(), k + 1, shift, newMin)
      ensures binTotal == Total(folded[..], MAX_BINS) + Population(Window()) - Total(Window().cells, k + 1)
      ensures binTotal <= old(binTotal) && saturations == old(saturations) + if binTotal < old(binTotal) then 1 else 0
    {
      hide Population, View.Valid, Padded, Shift, Cells, FoldedSoFar, Total, Lost, Clamp;
      ghost var v := Window();
      MergeEnds(v, v);
      MergeStep(v, v, k);
      TotalOrder(v.cells, k + 1, |v.cells|);
      FoldStep(folded[..], v, k, shift, newMin, i);
      AddFolded(folded, Shift(i, shift) - newMin, c);
    }

    /** A step of a walk over the bins: where it is, where it goes, and what lies beyond the window. */
    lemma NextBin(k: nat)
      requires Shaped() && Indexed() && hasBins && k <= MAX_BINS && Narrow(minIdx + k) <= maxIdx
      requires k <= Used() || maxIdx == MAX_INT32
      ensures Narrow(Narrow(minIdx + k) - minIdx) == k && Narrow(Narrow(minIdx + k) + 1) == Narrow(minIdx + k + 1)
      ensures k < Used() ==> Narrow(minIdx + k) == minIdx + k
      ensures k >= Used() ==> maxIdx == MAX_INT32 && (k < MAX_BINS ==> bins[k] == 0)
      ensures k + 1 <= Used() || maxIdx == MAX_INT32
    {
      hide Narrow;
      NarrowIs(maxIdx);
      NarrowIs(minIdx + k);
      WalkOn(minIdx, k);
      WalkEnds(minIdx, Used(), k);
    }

    /** Where a walk ends. */
    lemma LastBin(k: nat)
      requires Shaped() && Indexed() && hasBins && k <= MAX_BINS && Narrow(minIdx + k) > maxIdx
      requires k <= Used() || maxIdx == MAX_INT32
      ensures maxIdx < MAX_INT32 && k == Used()
    {
      hide Narrow;
      NarrowIs(maxIdx);
      WalkEnds(minIdx, Used(), k);
    }

    /** A saturating add to one cell of the coarser array. */
    method AddFolded(folded: array<nat>, pos: nat, c: nat)
      requires folded != bins && pos < folded.Length && folded[pos] <= MAX_COUNT && c <= binTotal
      modifies folded, `binTotal, `saturations
      ensures folded[..] == old(folded[..])[pos := Clamp(old(folded[pos]) + c)]
      ensures binTotal == old(binTotal) - Lost(old(folded[pos]), c)
      ensures saturations == old(saturations) + if binTotal < old(binTotal) then 1 else 0
    {
      var total := folded[pos] + c;
      if total > MAX_COUNT {
        folded[pos] := MAX_COUNT;
        binTotal := binTotal - (total - MAX_COUNT);
        saturations := saturations + 1;
        return;
      }
      folded[pos] := total;
    }

    /** Adds every populated bin of another sketch of the same scale. */
    method AddBins(src: Sketch) returns (ended: bool)
      requires Valid() && src.Valid() && src != this && src.bins != bins
      requires zeroCount + binTotal + src.binTotal <= count
      modifies this`minIdx, this`maxIdx, this`binTotal, this`collapsed, this`hasBins, this`saturations, bins
      ensures ended <==> src.Walks()
      ensures ended ==> Valid() && Window() == Run(old(Window()), Cells(src.Window(), src.Used()))
      ensures ended ==> binTotal <= old(binTotal) + src.binTotal && saturations >= old(saturations)
      ensures ended ==> (saturations == old(saturations) <==> binTotal == old(binTotal) + src.binTotal)
    {
      hide Population, Run, AddView, View.Valid, Padded, Cells, Total, Narrow;
      ghost var v, w := Window(), src.Window();
      MergeEnds(v, w);
      if !src.hasBins { return true; }
      NarrowIs(src.minIdx);
      var i := src.minIdx;
      ghost var k := 0;
      while i <= src.maxIdx
        invariant 0 <= k <= MAX_BINS && i == Narrow(src.minIdx + k) && (k <= |w.cells| || src.maxIdx == MAX_INT32)
        invariant src.Valid() && src.Window() == w && Valid()
        invariant k <= |w.cells| ==> Window() == Run(v, Cells(w, k))
        invariant k <= |w.cells| ==> binTotal <= old(binTotal) + Total(w.cells, k)
        invariant saturations >= old(saturations)
        invariant k <= |w.cells| ==> (saturations == old(saturations) <==> binTotal == old(binTotal) + Total(w.cells, k))
        decreases MAX_BINS - k
      {
        src.NextBin(k);
        var pos := Narrow(i - src.minIdx);
        if pos >= MAX_BINS { return false; }
        var c := src.bins[pos];
        if k < |w.cells| {
          MergeStep(v, w, k);
          TotalOrder(w.cells, k + 1, |w.cells|);
        }
        if c != 0 {
          Add(i, c);
        }
        i := Narrow(i + 1);
        k := k + 1;
      }
      src.LastBin(k);
      ended := true;
    }

    /** Folds in another sketch of the same scale. */
    method Absorb(src: Sketch) returns (ended: bool)
      requires Valid() && src.Valid() && src != this && src.bins != bins
      modifies this`count, this`sum, this`zeroCount
      modifies this`minIdx, this`maxIdx, this`binTotal, this`collapsed, this`hasBins, this`saturations, bins
      ensures ended <==> src.Walks()
      ensures ended ==> Valid() && Window() == MergeView(old(Window()), src.Window())
      ensures ended ==> count == old(count) + src.count && sum == old(sum) + src.sum
      ensures ended ==> zeroCount == old(zeroCount) + src.zeroCount
      ensures ended ==>
                binTotal <= old(binTotal) + src.binTotal && saturations >= old(saturations) + src.saturations
      ensures ended ==>
                (saturations == old(saturations) + src.saturations <==> binTotal == old(binTotal) + src.binTotal)
    {
      hide Population, Run, View.Valid, Padded, Cells;
      FlagKeeps(Window(), src.collapsed);
      count := count + src.count;
      sum := sum + src.sum;
      zeroCount := zeroCount + src.zeroCount;
      saturations := saturations + src.saturations;
      collapsed := collapsed || src.collapsed;
      ended := AddBins(src);
    }

    /** Folds another sketch in, at the coarser of the two scales. It ends exactly when the walks it
        makes do: over the other sketch, and over this one if it is the finer. No count is lost
        exactly when no saturation is recorded. */
    method Merge(other: Sketch) returns (ended: bool)
      requires Valid() && other.Valid() && other != this && other.bins != bins
      modifies this, bins
      ensures ended <==> other.count == 0 || (other.Walks() && (other.scale < old(scale) ==> old(Walks())))
      ensures ended ==> Valid() && Val() == MergeValue(old(Val()), other.Val())
      ensures ended && other.count > 0 ==>
                (saturations == old(saturations) + other.saturations <==>
                 binTotal == old(binTotal) + other.binTotal)
    {
      hide Population, MergeView, View.Valid, Padded, DownscaleView;
      if other.count == 0 { return true; }
      var src := other;
      ended := true;
      if other.scale > scale {
        src := new Sketch.Copy(other);
        ended := src.Downscale(scale);
      } else if other.scale < scale {
        ended := Downscale(other.scale);
      }
      if !ended { return; }
      ended := Absorb(src);
    }

    // -------------------------------------------------------------------------------------
    // The bin cap.

    /** The window's end lies below its start, as narrowing a decoded last index can leave it: a walk
        over the bins sees none. */
    ghost predicate Narrowed()
      reads this
    {
      hasBins && IsInt32(minIdx) && maxIdx < minIdx
    }

    /** Counts the bins that are not zero, or nothing when the walk runs off the array. */
    method PopulatedBins() returns (n: Option<nat>)
      requires Valid() || Narrowed()
      ensures n.Some? <==> Walks()
      ensures n.Some? && Valid() ==> n.value == Populated(Window().cells)
      ensures Narrowed() ==> n == Some(0)
    {
      hide Population, View.Valid, Narrow;
      if !hasBins || maxIdx < minIdx { return Some(0); }
      var populated := 0;
      ghost var cells := Window().cells;
      NarrowIs(minIdx);
      var i := minIdx;
      ghost var k := 0;
      assert cells[..0] == [];
      while i <= maxIdx
        invariant 0 <= k <= MAX_BINS && i == Narrow(minIdx + k) && (k <= |cells| || maxIdx == MAX_INT32)
        invariant k <= |cells| ==> populated == Populated(cells[..k])
        decreases MAX_BINS - k
      {
        NextBin(k);
        var pos := Narrow(i - minIdx);
        if pos >= MAX_BINS { return None; }
        if k < |cells| { assert cells[..k + 1][..k] == cells[..k]; }
        if bins[pos] != 0 { populated := populated + 1; }
        i := Narrow(i + 1);
        k := k + 1;
      }
      LastBin(k);
      assert cells[..k] == cells;
      n := Some(populated);
    }

    /** Folds the lowest bins until at most limit bins are populated. */
    method CollapseToBinCap(limit: nat) returns (ended: bool)
      requires Valid() && limit > 0
      modifies this`minIdx, this`maxIdx, this`binTotal, this`collapsed, this`saturations, bins
      ensures ended <==> old(Walks())
      ensures ended ==> Valid() && Walks() && Window() == Capped(old(Window()), limit)
      ensures ended ==> binTotal <= old(binTotal)
      ensures ended ==> saturations == old(saturations) + if binTotal < old(binTotal) then 1 else 0
    {
      hide Population, View.Valid, Padded, Folded, Populated, FloorPosition;
      ghost var v := Window();
      CapFacts(v, limit);
      var populated := PopulatedBins();
      if populated.None? { return false; }
      ended := true;
      if populated.value <= limit { return; }
      var seen: nat := 0;
      var top: nat := maxIdx - minIdx + 1;
      while true
        invariant unchanged(this) && unchanged(bins)
        invariant 0 < top <= |v.cells| && seen < limit && limit - seen <= Populated(v.cells[..top])
        invariant FloorPosition(v.cells, limit) == FloorPosition(v.cells[..top], limit - seen)
        decreases top
      {
        FloorStep(v.cells, top, limit - seen);
        if bins[top - 1] != 0 {
          seen := seen + 1;
          if seen == limit { break; }
        }
        top := top - 1;
      }
      CollapseTo(minIdx + top - 1);
    }

    // -------------------------------------------------------------------------------------
    // Quantiles.

    /** The estimated q-quantile, or nothing for a q outside [0, 1]. */
    method Quantile(q: real, gamma: real) returns (out: Option<real>)
      requires Valid() && gamma > 1.0
      ensures out.None? <==> q < 0.0 || q > 1.0
      ensures out.Some? ==> IsQuantile(Val(), gamma, q, out.value)
    {
      if q < 0.0 || q > 1.0 { return None; }
      hide Population, View.Valid, Padded, Rank, View.UpTo, Representative;
      var total := zeroCount + binTotal;
      RankedIs(Val());
      if total == 0 { return Some(0.0); }
      var rank := Rank(q, total);
      RankBound(q, total);
      if zeroCount as real > rank || !hasBins {
        EmptyPopulation(Window());
        return Some(0.0);
      }
      var cum := zeroCount;
      ghost var v := Window();
      FloorOnly(v);
      BeyondHi(v, maxIdx);
      var i := minIdx;
      out := Some(Representative(gamma, maxIdx));
      while i <= maxIdx
        invariant minIdx <= i <= maxIdx + 1
        invariant cum == zeroCount + v.UpTo(i - 1) && cum as real <= rank
      {
        UpToStep(v, i);
        var c := bins[i - minIdx];
        if c == 0 {
          i := i + 1;
          continue;
        }
        cum := cum + c;
        if cum as real > rank {
          out := Some(Representative(gamma, i));
          assert AtRank(Val(), rank, i);
          break;
        }
        i := i + 1;
      }
    }
  }
}
