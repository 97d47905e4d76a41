/**
 How the bin array of a sketch moves, on values: the window after its floor or its top is
 lowered, raised or folded, what a run of array moves leaves behind, and why making room for a
 bucket and then counting it is one AddView.
 */
module SketchMoves {
  import opened SketchSpec
  import opened SketchValues

  /** If two windows agree above p and differ by d at and below it, they differ by d further up. */
  lemma {:induction false} UpToDiffers(v: View, w: View, p: int, d: int, k: int)
    requires p <= k && w.UpTo(p) == v.UpTo(p) + d
    requires forall j {:trigger w.At(j)} :: p < j <= k ==> w.At(j) == v.At(j)
    ensures w.UpTo(k) == v.UpTo(k) + d
    decreases k - p
  {
    if p < k {
      UpToDiffers(v, w, p, d, k - 1);
      UpToStep(v, k);
      UpToStep(w, k);
      assert w.At(k) == v.At(k);
    }
  }

  /** Everything a window holds. */
  function Population(v: View): nat { v.UpTo(v.Hi()) }

  lemma BeyondHi(v: View, k: int)
    requires k >= v.Hi()
    ensures v.UpTo(k) == Population(v) == Total(v.cells, |v.cells|)
  {
  }

  lemma {:induction false} TotalOfPrefix(a: seq<nat>, b: seq<nat>, n: nat)
    requires n <= |a| && n <= |b| && a[..n] == b[..n]
    ensures Total(a, n) == Total(b, n)
  {
    if n > 0 {
      assert a[..n - 1] == a[..n][..n - 1] && b[..n - 1] == b[..n][..n - 1];
      assert a[n - 1] == a[..n][n - 1] == b[..n][n - 1] == b[n - 1];
      TotalOfPrefix(a, b, n - 1);
    }
  }

  lemma FloorOnly(w: View)
    ensures w.UpTo(w.lo) == w.At(w.lo)
    ensures forall k :: k < w.lo ==> w.UpTo(k) == 0
  {
    UpToStep(w, w.lo);
  }

  // ---------------------------------------------------------------------------------------
  // What the three window moves do, as values.

  function Blank(n: nat): (r: seq<nat>)
    ensures |r| == n && forall j :: 0 <= j < n ==> r[j] == 0
  {
    seq<nat>(n, _ => 0)
  }

  /** The same counts, with the floor lowered to lo. */
  function Lowered(v: View, lo: int): View
    requires lo <= v.lo
  {
    View(lo, Blank(v.lo - lo) + v.cells, v.collapsed)
  }

  /** The same counts, with the top raised to hi. */
  function Raised(v: View, hi: int): View
    requires v.Hi() <= hi
  {
    v.(cells := v.cells + Blank(hi - v.Hi()))
  }

  /** Everything at or below lo folded into the bucket lo. */
  function Folded(v: View, lo: int): View
    requires v.lo < lo
  {
    View(lo, [Clamp(v.UpTo(lo))] + v.cells[Min(lo + 1 - v.lo, |v.cells|)..], true)
  }

  lemma LoweredCounts(v: View, lo: int)
    requires lo <= v.lo
    ensures forall k {:trigger Lowered(v, lo).At(k)} :: Lowered(v, lo).At(k) == v.At(k)
    ensures forall k {:trigger Lowered(v, lo).UpTo(k)} :: Lowered(v, lo).UpTo(k) == v.UpTo(k)
  {
    var w := Lowered(v, lo);
    FloorOnly(v);
    FloorOnly(w);
    forall k {:trigger w.UpTo(k)} ensures w.UpTo(k) == v.UpTo(k) {
      if k >= lo { UpToDiffers(v, w, lo - 1, 0, k); }
    }
  }

  lemma RaisedCounts(v: View, hi: int)
    requires v.Hi() <= hi
    ensures forall k {:trigger Raised(v, hi).At(k)} :: Raised(v, hi).At(k) == v.At(k)
    ensures forall k {:trigger Raised(v, hi).UpTo(k)} :: Raised(v, hi).UpTo(k) == v.UpTo(k)
  {
    var w := Raised(v, hi);
    FloorOnly(v);
    FloorOnly(w);
    forall k {:trigger w.UpTo(k)} ensures w.UpTo(k) == v.UpTo(k) {
      if k >= v.lo { UpToDiffers(v, w, v.lo - 1, 0, k); }
    }
  }

  lemma FoldedCounts(v: View, lo: int)
    requires v.cells != [] && v.lo < lo
    ensures var w := Folded(v, lo);
            && w.Hi() == Max(lo, v.Hi()) && w.At(lo) == Clamp(v.UpTo(lo))
            && (forall k {:trigger w.At(k)} :: lo < k ==> w.At(k) == v.At(k))
            && w.UpTo(w.Hi()) == v.UpTo(v.Hi()) - (v.UpTo(lo) - Clamp(v.UpTo(lo)))
  {
    var w := Folded(v, lo);
    FloorOnly(w);
    forall k {:trigger w.At(k)} | lo < k ensures w.At(k) == v.At(k) {
      if k <= v.Hi() { assert w.cells[k - lo] == v.cells[lo + 1 - v.lo..][k - lo - 1]; }
    }
    UpToDiffers(v, w, lo, Clamp(v.UpTo(lo)) - v.UpTo(lo), w.Hi());
    BeyondHi(v, w.Hi());
  }

  /** Moving a bound keeps the population, and the top where it should be. */
  lemma BoundsKeepPopulation(v: View, lo: int, hi: int)
    requires lo <= v.lo && v.Hi() <= hi
    ensures Population(Raised(v, hi)) == Population(v) && Raised(v, hi).Hi() == hi
    ensures Population(Lowered(v, lo)) == Population(v) && Lowered(v, lo).Hi() == v.Hi()
    ensures Population(v.Flag(true)) == Population(v)
  {
    RaisedCounts(v, hi);
    BeyondHi(v, hi);
    LoweredCounts(v, lo);
  }

  /** The window u has the bounds a sketch with window v needs to take one more observation of
      bucket i, with everything below the new floor folded into it. */
  ghost predicate RoomFor(v: View, u: View, i: int) {
    && u.Hi() == Max(v.Hi(), i) && u.lo == Max(Min(v.lo, i), u.Hi() - MAX_BINS + 1)
    && u.collapsed == (v.collapsed || Min(v.lo, i) < u.lo)
    && forall k {:trigger u.At(k)} :: u.lo <= k <= u.Hi() ==> u.At(k) == Clamp(Mass(v, k, u.lo))
  }

  /** The window the sketch moves to before it counts bucket i. */
  function MakeRoomView(v: View, i: int): View
    requires v.cells != [] && |v.cells| <= MAX_BINS
  {
    if i > v.Hi() then Raised(if i - v.lo >= MAX_BINS then Folded(v, i - MAX_BINS + 1) else v, i)
    else if i < v.Hi() - MAX_BINS + 1 then Lowered(v, v.Hi() - MAX_BINS + 1).Flag(true)
    else if i < v.lo then Lowered(v, i)
    else v
  }

  lemma MakeRoomFor(v: View, i: int)
    requires v.Valid() && v.cells != []
    ensures RoomFor(v, MakeRoomView(v, i), i)
  {
    hide View.UpTo;
    FloorOnly(v);
    assert forall k {:trigger v.At(k)} :: v.At(k) == Clamp(v.At(k));
    if i > v.Hi() {
      if i - v.lo >= MAX_BINS {
        FoldedCounts(v, i - MAX_BINS + 1);
        RaisedCounts(Folded(v, i - MAX_BINS + 1), i);
      } else {
        RaisedCounts(v, i);
      }
    } else if i < v.lo {
      var lo := Max(i, v.Hi() - MAX_BINS + 1);
      LoweredCounts(v, lo);
      FloorOnly(Lowered(v, lo));
    }
  }

  // ---------------------------------------------------------------------------------------
  // Moves and fills inside one array.

  ghost function Moved(a: seq<nat>, to: nat, from: nat, n: nat): (b: seq<nat>)
    requires to + n <= |a| && from + n <= |a|
    ensures |b| == |a|
    ensures forall k :: to <= k < to + n ==> b[k] == a[k - to + from]
    ensures forall k :: 0 <= k < to || to + n <= k < |a| ==> b[k] == a[k]
  {
    a[..to] + a[from..from + n] + a[to + n..]
  }

  ghost function Zeroed(a: seq<nat>, lo: nat, hi: nat): (b: seq<nat>)
    requires lo <= hi <= |a|
    ensures |b| == |a|
    ensures forall k :: lo <= k < hi ==> b[k] == 0
    ensures forall k :: 0 <= k < lo || hi <= k < |a| ==> b[k] == a[k]
  {
    a[..lo] + Blank(hi - lo) + a[hi..]
  }

  /** What a sketch's array looks like: used cells, then zeros. */
  ghost predicate Padded(a: seq<nat>, used: int) {
    && |a| == MAX_BINS && 0 <= used <= MAX_BINS
    && (forall k :: used <= k < MAX_BINS ==> a[k] == 0)
    && (forall k :: 0 <= k < MAX_BINS ==> a[k] <= MAX_COUNT)
  }

  lemma ShiftedUp(a: seq<nat>, shift: nat, used: nat)
    requires Padded(a, used) && shift + used <= MAX_BINS
    ensures var b := Zeroed(Moved(a, shift, 0, used), 0, shift);
            Padded(b, shift + used) && b[..shift + used] == Blank(shift) + a[..used]
  {
  }

  lemma PaddedMore(a: seq<nat>, used: nat, more: nat)
    requires Padded(a, used) && used <= more <= MAX_BINS
    ensures Padded(a, more) && a[..more] == a[..used] + Blank(more - used)
  {
  }

  lemma ShiftedDown(a: seq<nat>, shift: nat, used: nat)
    requires Padded(a, used) && shift < used
    ensures var b := Zeroed(Moved(a, 0, shift, used - shift), used - shift, used);
            Padded(b, used - shift) && b[..used - shift] == a[shift..used]
  {
  }

  /** The first used cells moved down by shift; those that fall off are gone. */
  ghost function SlidDown(a: seq<nat>, shift: nat, used: nat): (b: seq<nat>)
    requires 0 < used <= |a|
    ensures |b| == |a|
  {
    if shift >= used then Zeroed(a, 0, used)
    else Zeroed(Moved(a, 0, shift, used - shift), used - shift, used)
  }

  /** The array moves of a collapse leave the folded window. */
  lemma FoldedCells(v: View, a: seq<nat>, used: nat, shift: nat, merged: nat)
    requires Padded(a, used) && 0 < used && 0 < shift && v.cells == a[..used]
    requires merged == Total(a[..Min(shift, used)], Min(shift, used))
    ensures var b := SlidDown(a, shift, used);
            var n := if shift >= used then 1 else used - shift;
            && b[0] <= MAX_COUNT && b[0] + merged == v.UpTo(v.lo + shift)
            && Padded(b[0 := Clamp(b[0] + merged)], n)
            && Folded(v, v.lo + shift) == View(v.lo + shift, b[0 := Clamp(b[0] + merged)][..n], true)
  {
    var m := Min(shift, used);
    TotalOfPrefix(a[..m], v.cells, m);
    if shift >= used { AllFolded(v, a, used, shift); } else { PartFolded(v, a, used, shift); }
  }

  lemma AllFolded(v: View, a: seq<nat>, used: nat, shift: nat)
    requires Padded(a, used) && 0 < used <= shift && v.cells == a[..used]
    ensures var b, x := Zeroed(a, 0, used), v.UpTo(v.lo + shift);
            && b[0] == 0 && x == Total(v.cells, used)
            && Padded(b[0 := Clamp(x)], 1)
            && Folded(v, v.lo + shift) == View(v.lo + shift, b[0 := Clamp(x)][..1], true)
  {
    hide Zeroed, Total;
  }

  lemma PartFolded(v: View, a: seq<nat>, used: nat, shift: nat)
    requires Padded(a, used) && 0 < shift < used && v.cells == a[..used]
    ensures var b, x := Zeroed(Moved(a, 0, shift, used - shift), used - shift, used), v.UpTo(v.lo + shift);
            && b[0] <= MAX_COUNT && x == Total(v.cells, shift) + b[0]
            && Padded(b[0 := Clamp(x)], used - shift)
            && Folded(v, v.lo + shift) == View(v.lo + shift, b[0 := Clamp(x)][..used - shift], true)
  {
    ShiftedDown(a, shift, used);
    FoldedUpTo(v, shift);
    hide Zeroed, Moved, View.UpTo, Total;
    var b := Zeroed(Moved(a, 0, shift, used - shift), used - shift, used);
    assert b[0] == b[..used - shift][0];
    assert b[0 := Clamp(v.UpTo(v.lo + shift))][..used - shift] == [Clamp(v.UpTo(v.lo + shift))] + v.cells[shift + 1..];
  }

  lemma FoldedUpTo(v: View, shift: nat)
    requires shift < |v.cells|
    ensures v.UpTo(v.lo + shift) == Total(v.cells, shift) + v.cells[shift]
  {
    hide View.UpTo;
    UpToIs(v, shift + 1, v.lo + shift);
  }

  lemma UpToIs(v: View, n: nat, k: int)
    requires n <= |v.cells| && k == v.lo + n - 1
    ensures v.UpTo(k) == Total(v.cells, n)
  {
    hide Total;
  }

  /** What adding n to a bin that holds cur fails to store. */
  function Lost(cur: nat, n: nat): (lost: nat)
    requires cur <= MAX_COUNT
    ensures lost <= n
  {
    cur + n - Clamp(cur + n)
  }

  lemma {:induction false} FirstCell(a: seq<nat>, n: nat)
    requires 0 < n <= |a|
    ensures Total(a, n) >= a[0]
  {
    if n > 1 { FirstCell(a, n - 1); }
  }

  /** What a collapse must leave, in terms of the array before it. */
  lemma CollapseFacts(v: View, a: seq<nat>, used: nat, shift: nat, lo: int, top: int, merged: nat)
    requires Padded(a, used) && 0 < used && 0 < shift && v.cells == a[..used]
    requires merged == Total(a[..Min(shift, used)], Min(shift, used))
    requires lo == v.lo + shift && top == Max(lo, v.Hi()) && a[0] > 0
    ensures used <= MAX_BINS && merged > 0
    ensures var b := SlidDown(a, shift, used);
            var c := b[0 := Clamp(b[0] + merged)];
            && lo <= top && b[0] <= MAX_COUNT && Padded(c, top - lo + 1)
            && Folded(v, lo) == View(lo, c[..top - lo + 1], true)
            && merged <= Population(v) && Population(Folded(v, lo)) == Population(v) - Lost(b[0], merged)
  {
    FoldedCounts(v, lo);
    FoldedCells(v, a, used, shift, merged);
    FirstCell(a[..Min(shift, used)], Min(shift, used));
    UpToMonotone(v, lo, top);
    BeyondHi(v, top);
  }

  /** w is u with n added to one cell. */
  ghost predicate OneMore(u: View, w: View, target: int, n: nat) {
    && w.lo == u.lo && |w.cells| == |u.cells| && w.collapsed == u.collapsed
    && forall k {:trigger w.At(k)} :: w.At(k) == if k == target then Clamp(u.At(k) + n) else u.At(k)
  }

  lemma AddedCell(u: View, a: seq<nat>, pos: nat, n: nat, w: View)
    requires Padded(a, |u.cells|) && u.cells == a[..|u.cells|] && pos < |u.cells|
    requires w == u.(cells := a[pos := Clamp(a[pos] + n)][..|u.cells|])
    ensures OneMore(u, w, u.lo + pos, n)
    ensures Population(w) == Population(u) + n - Lost(a[pos], n)
  {
    var p := u.lo + pos;
    UpToStep(u, u.lo - 1);
    UpToStep(w, u.lo - 1);
    UpToDiffers(u, w, u.lo - 1, 0, p - 1);
    UpToStep(u, p);
    UpToStep(w, p);
    UpToDiffers(u, w, p, w.At(p) - u.At(p), u.Hi());
  }

  lemma RoomGivesAdd(v: View, u: View, w: View, i: int, n: nat)
    requires v.cells != [] && |v.cells| <= MAX_BINS
    requires RoomFor(v, u, i) && OneMore(u, w, Max(i, u.lo), n)
    ensures w == AddView(v, i, n)
  {
    hide View.UpTo;
    var x := AddView(v, i, n);
    AddShape(v, i, n);
    forall k | w.lo <= k <= w.Hi() ensures w.At(k) == x.At(k) {
      assert u.At(k) == Clamp(Mass(v, k, u.lo));
    }
    SameView(w, x);
  }

  /** The window after a saturating add at the target of MakeRoom. */
  lemma RoomThenAdd(v: View, u: View, a: seq<nat>, used: nat, i: int, target: int, n: nat)
    requires v.Valid() && v.cells != [] && n > 0 && u == MakeRoomView(v, i)
    requires Padded(a, used) && u.cells == a[..used] && target == Max(i, u.lo) && u.lo <= target <= u.Hi()
    ensures used <= |a| == MAX_BINS && a[target - u.lo] <= MAX_COUNT
    ensures var c := a[target - u.lo := Clamp(a[target - u.lo] + n)];
            && Padded(c, used) && u.(cells := c[..used]) == AddView(v, i, n)
            && Population(AddView(v, i, n)) == Population(u) + n - Lost(a[target - u.lo], n)
    ensures AddView(v, i, n).Valid()
  {
    var w := u.(cells := a[target - u.lo := Clamp(a[target - u.lo] + n)][..used]);
    AddedCell(u, a, target - u.lo, n, w);
    MakeRoomFor(v, i);
    RoomGivesAdd(v, u, w, i, n);
    AddValid(v, i, n);
  }

  /** The first bucket a sketch counts. */
  lemma FirstCount(v: View, a: seq<nat>, i: int, n: nat)
    requires v.cells == [] && Padded(a, 0) && n > 0
    ensures |a| == MAX_BINS && a[0] == 0 && Population(v) == 0
    ensures var c := a[0 := Clamp(n)];
            && Padded(c, 1) && View(i, c[..1], v.collapsed) == AddView(v, i, n)
            && AddView(v, i, n).Valid() && Population(AddView(v, i, n)) == n - Lost(0, n)
  {
    var w := AddView(v, i, n);
    assert a[0 := Clamp(n)][..1] == w.cells;
    assert Total(w.cells, 1) == Total(w.cells, 0) + w.cells[0];
  }

  lemma AddValid(v: View, i: int, n: nat)
    requires v.Valid() && n > 0
    ensures AddView(v, i, n).Valid()
  {
    AddIsMerge(v, Obs(i, n));
    MergeValid(v, View(i, [Clamp(n)], false));
  }

  // ---------------------------------------------------------------------------------------
  // Re-expressing an array at a coarser scale.

  /** f holds the first n cells of v, shifted and counted up from the bucket lo. */
  ghost predicate FoldedSoFar(f: seq<nat>, v: View, n: nat, s: nat, lo: int)
    requires n <= |v.cells|
  {
    && |f| == MAX_BINS
    && forall p :: 0 <= p < MAX_BINS ==> f[p] == Clamp(CountShifted(Cells(v, n), s, lo + p))
  }

  lemma FoldStart(f: seq<nat>, v: View, s: nat, lo: int)
    requires |f| == MAX_BINS && forall p :: 0 <= p < MAX_BINS ==> f[p] == 0
    ensures FoldedSoFar(f, v, 0, s, lo) && Total(f, MAX_BINS) == 0
  {
    TotalOfZeros(f, MAX_BINS);
  }

  lemma {:induction false} TotalOfZeros(f: seq<nat>, n: nat)
    requires n <= |f| && forall p :: 0 <= p < n ==> f[p] == 0
    ensures Total(f, n) == 0
  {
    if n > 0 { TotalOfZeros(f, n - 1); }
  }

  lemma {:induction false} TotalUpdate(f: seq<nat>, pos: nat, x: nat, n: nat)
    requires pos < |f| && n <= |f|
    ensures Total(f[pos := x], n) == Total(f, n) + if pos < n then x - f[pos] else 0
  {
    if n > 0 { TotalUpdate(f, pos, x, n - 1); }
  }

  lemma {:induction false} TotalOfPadded(f: seq<nat>, used: nat, n: nat)
    requires Padded(f, used) && used <= n <= MAX_BINS
    ensures Total(f, n) == Total(f[..used], used)
  {
    if n == used {
      TotalOfPrefix(f, f[..used], used);
    } else {
      TotalOfPadded(f, used, n - 1);
    }
  }

  /** One more cell lands on the position of its shifted index. */
  lemma FoldStep(f: seq<nat>, v: View, n: nat, s: nat, lo: int, hi: int)
    requires n < |v.cells| && FoldedSoFar(f, v, n, s, lo)
    requires lo == Shift(v.lo, s) && hi == v.lo + n
    ensures 0 <= Shift(hi, s) - lo < n + 1
    ensures var pos := Shift(hi, s) - lo;
            n < MAX_BINS ==>
              && f[pos] <= MAX_COUNT
              && FoldedSoFar(f[pos := Clamp(f[pos] + v.cells[n])], v, n + 1, s, lo)
              && Total(f[pos := Clamp(f[pos] + v.cells[n])], MAX_BINS)
                 == Total(f, MAX_BINS) + v.cells[n] - Lost(f[pos], v.cells[n])
  {
    hide CountShifted, Cells, Shift, Total;
    ShiftMonotone(v.lo, hi, s);
    var pos := Shift(hi, s) - lo;
    if n < MAX_BINS {
      var g := f[pos := Clamp(f[pos] + v.cells[n])];
      forall p | 0 <= p < MAX_BINS ensures g[p] == Clamp(CountShifted(Cells(v, n + 1), s, lo + p)) {
        CellsStep(v, n + 1, hi + 1, lo + p, s);
      }
      TotalUpdate(f, pos, Clamp(f[pos] + v.cells[n]), MAX_BINS);
    }
  }

  lemma NothingShifted(v: View, s: nat, k: int)
    ensures CountShifted(Cells(v, 0), s, k) == 0
  {
  }

  lemma {:induction false} NothingShiftsAbove(v: View, n: nat, s: nat, k: int)
    requires n <= |v.cells| && Shift(v.Hi(), s) < k
    ensures CountShifted(Cells(v, n), s, k) == 0
  {
    hide CountShifted, Cells, Shift;
    if n == 0 {
      NothingShifted(v, s, k);
    } else {
      NothingShiftsAbove(v, n - 1, s, k);
      ShiftMonotone(v.lo + n - 1, v.Hi(), s);
      CellsStep(v, n, v.lo + n, k, s);
    }
  }

  lemma FoldEnd(f: seq<nat>, v: View, s: nat, lo: int, hi: int)
    requires v.cells != [] && |v.cells| <= MAX_BINS && FoldedSoFar(f, v, |v.cells|, s, lo)
    requires lo == Shift(v.lo, s) && hi == Shift(v.Hi(), s)
    ensures 0 < hi - lo + 1 <= MAX_BINS && Padded(f, hi - lo + 1)
    ensures View(lo, f[..hi - lo + 1], v.collapsed) == DownscaleView(v, s)
    ensures Population(DownscaleView(v, s)) == Total(f, MAX_BINS)
  {
    hide Shift, CountShifted, Cells, Total;
    ShiftMonotone(v.lo, v.Hi(), s);
    DownscaleShape(v, s);
    forall p | hi - lo < p < MAX_BINS ensures f[p] == 0 {
      NothingShiftsAbove(v, |v.cells|, s, lo + p);
    }
    var w := View(lo, f[..hi - lo + 1], v.collapsed);
    SameView(w, DownscaleView(v, s));
    TotalOfPadded(f, hi - lo + 1, MAX_BINS);
    BeyondHi(w, w.Hi());
  }

  // ---------------------------------------------------------------------------------------
  // Folding another window in, cell by cell.

  lemma MergeStep(v: View, w: View, n: nat)
    requires n < |w.cells|
    ensures Run(v, Cells(w, n + 1)) == if w.cells[n] == 0 then Run(v, Cells(w, n))
                                       else AddView(Run(v, Cells(w, n)), w.lo + n, w.cells[n])
    ensures Total(w.cells, n + 1) == Total(w.cells, n) + w.cells[n]
  {
    var h, o := Cells(w, n), Obs(w.lo + n, w.cells[n]);
    assert (h + [o])[..|h|] == h;
  }

  lemma MergeEnds(v: View, w: View)
    ensures Run(v, Cells(w, 0)) == v && Total(w.cells, 0) == 0
    ensures Total(w.cells, |w.cells|) == Population(w)
  {
    BeyondHi(w, w.Hi());
  }

  lemma {:induction false} TotalOrder(cells: seq<nat>, n: nat, m: nat)
    requires n <= m <= |cells|
    ensures Total(cells, n) <= Total(cells, m)
  {
    if n < m { TotalOrder(cells, n, m - 1); }
  }

  // ---------------------------------------------------------------------------------------
  // The bin cap.

  function Populated(cells: seq<nat>): nat {
    if cells == [] then 0
    else Populated(cells[..|cells| - 1]) + if cells[|cells| - 1] == 0 then 0 else 1
  }

  /** The position of the populated cell that has limit populated cells at or above it. */
  function FloorPosition(cells: seq<nat>, limit: nat): (pos: nat)
    requires 0 < limit <= Populated(cells)
    ensures pos < |cells| && cells[pos] > 0 && Populated(cells[..pos]) == Populated(cells) - limit
  {
    var last := |cells| - 1;
    if cells[last] == 0 then
      var pos := FloorPosition(cells[..last], limit);
      assert cells[..last][..pos] == cells[..pos];
      pos
    else if limit == 1 then last
    else
      var pos := FloorPosition(cells[..last], limit - 1);
      assert cells[..last][..pos] == cells[..pos];
      pos
  }

  /** The window with its lowest cells folded until at most limit of them are populated. */
  function Capped(v: View, limit: nat): View
    requires limit > 0
  {
    if Populated(v.cells) <= limit then v else Folded(v, v.lo + FloorPosition(v.cells, limit))
  }

  lemma {:induction false} PopulatedConcat(a: seq<nat>, b: seq<nat>)
    ensures Populated(a + b) == Populated(a) + Populated(b)
  {
    if b == [] {
      assert a + b == a;
    } else {
      assert (a + b)[..|a + b| - 1] == a + b[..|b| - 1];
      PopulatedConcat(a, b[..|b| - 1]);
    }
  }

  /** A capped window is within the cap, keeps its top and every cell above its floor, still
      ranks every count no bin lost, and capping it again changes nothing. */
  lemma CappedFits(v: View, limit: nat)
    requires v.Valid() && limit > 0
    ensures var w := Capped(v, limit);
            && w.Valid() && Populated(w.cells) == Min(limit, Populated(v.cells))
            && w.Hi() == v.Hi() && (forall k {:trigger w.At(k)} :: w.lo < k ==> w.At(k) == v.At(k))
            && w.At(w.lo) == Clamp(v.UpTo(w.lo))
            && (w.collapsed <==> v.collapsed || limit < Populated(v.cells))
    ensures Capped(Capped(v, limit), limit) == Capped(v, limit)
  {
    hide View.UpTo, Populated, FloorPosition;
    FloorOnly(v);
    if limit < Populated(v.cells) {
      var pos := FloorPosition(v.cells, limit);
      FloorNotLowest(v.cells, limit);
      FoldedCounts(v, v.lo + pos);
      FoldedValid(v, pos);
      FoldedPopulated(v, pos);
    }
  }

  lemma FloorNotLowest(cells: seq<nat>, limit: nat)
    requires 0 < limit < Populated(cells)
    ensures FloorPosition(cells, limit) > 0
  {
    assert cells[..0] == [];
  }

  lemma FoldedValid(v: View, pos: nat)
    requires v.Valid() && 0 < pos < |v.cells| && v.cells[pos] > 0
    ensures Folded(v, v.lo + pos).Valid() && Folded(v, v.lo + pos).Hi() == v.Hi()
  {
    hide View.UpTo;
    FloorOnly(v);
    UpToStep(v, v.lo + pos);
  }

  lemma FoldedPopulated(v: View, pos: nat)
    requires 0 < pos < |v.cells| && v.cells[pos] > 0
    ensures Populated(Folded(v, v.lo + pos).cells) == Populated(v.cells) - Populated(v.cells[..pos])
  {
    hide View.UpTo;
    UpToStep(v, v.lo + pos);
    var bottom, rest := [Clamp(v.UpTo(v.lo + pos))], v.cells[pos + 1..];
    PopulatedConcat(bottom, rest);
    assert v.cells == v.cells[..pos] + [v.cells[pos]] + rest;
    PopulatedConcat(v.cells[..pos] + [v.cells[pos]], rest);
    PopulatedConcat(v.cells[..pos], [v.cells[pos]]);
    PopulatedOne(bottom[0]);
    PopulatedOne(v.cells[pos]);
  }

  lemma PopulatedOne(c: nat)
    requires c > 0
    ensures Populated([c]) == 1
  {
    assert [c][..0] == [];
  }

  lemma FloorStep(cells: seq<nat>, top: nat, limit: nat)
    requires 0 < top <= |cells| && 0 < limit <= Populated(cells[..top])
    ensures cells[top - 1] == 0 ==> top > 1 && limit <= Populated(cells[..top - 1])
                                    && FloorPosition(cells[..top], limit) == FloorPosition(cells[..top - 1], limit)
    ensures cells[top - 1] != 0 && limit > 1 ==>
              top > 1 && limit - 1 <= Populated(cells[..top - 1])
              && FloorPosition(cells[..top], limit) == FloorPosition(cells[..top - 1], limit - 1)
    ensures cells[top - 1] != 0 && limit == 1 ==> FloorPosition(cells[..top], limit) == top - 1
  {
    assert cells[..top][..top - 1] == cells[..top - 1];
    assert top == 1 ==> cells[..top - 1] == [];
  }

  lemma CapFacts(v: View, limit: nat)
    requires v.Valid() && limit > 0
    ensures v.cells[..|v.cells|] == v.cells && Capped(v, limit).Valid()
    ensures limit < Populated(v.cells) ==> v.cells != [] && v.cells[0] > 0 && FloorPosition(v.cells, limit) > 0
  {
    CappedFits(v, limit);
    if limit < Populated(v.cells) {
      FloorNotLowest(v.cells, limit);
    }
  }

  lemma DownscaleKeepsValid(v: View, s: nat)
    requires v.Valid()
    ensures DownscaleView(v, s).Valid() && (v.cells == [] ==> DownscaleView(v, s) == v)
  {
    DownscaleOfCells(v, s);
  }

  lemma FlagKeeps(v: View, c: bool)
    requires v.Valid()
    ensures v.Flag(c).Valid() && Population(v.Flag(c)) == Population(v)
  {
  }

  lemma RankedIs(v: Value)
    ensures Ranked(v) == v.zeroCount + Population(v.view)
  {
    BeyondHi(v.view, v.view.Hi());
  }

  lemma EmptyPopulation(v: View)
    ensures v.cells == [] ==> Population(v) == 0
  {
  }
}
