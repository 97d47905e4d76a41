/**
 The value of a quantile sketch's bin window, apart from how the bins are stored.

 A View is the window the sketch answers from: the lowest retained bucket index, one
 saturating 32-bit counter per index up to the highest, and the flag that says counts were
 folded into the lowest bin. AddView says where one weighted observation must end up;
 Canonical says what the window must be for a whole history of observations, without
 mentioning any order of arrival. The lemmas connect the two.
 */
module SketchSpec {

  // SketchMaxBins, SketchDefaultScale and math.MaxUint32.
  const MAX_BINS: int := 512
  const DEFAULT_SCALE: nat := 4
  const MAX_COUNT: nat := 0xFFFF_FFFF

  /** n observations that fell into one bucket. */
  datatype Obs = Obs(index: int, n: nat)

  function Max(a: int, b: int): int { if a < b then b else a }

  function Min(a: int, b: int): int { if a < b then a else b }

  function Clamp(n: nat): nat { if n <= MAX_COUNT then n else MAX_COUNT }

  /** Sum of the first n cells. */
  function Total(cells: seq<nat>, n: nat): nat
    requires n <= |cells|
  {
    if n == 0 then 0 else Total(cells, n - 1) + cells[n - 1]
  }

  /** No cells means the sketch has no bins. */
  datatype View = View(lo: int, cells: seq<nat>, collapsed: bool) {

    function Hi(): int { lo + |cells| - 1 }

    function At(k: int): nat { if lo <= k < lo + |cells| then cells[k - lo] else 0 }

    /** Everything stored at or below bucket k. */
    function UpTo(k: int): nat { Total(cells, Max(0, Min(k - lo + 1, |cells|))) }

    /** Both ends of a non-empty window are populated, and no counter has wrapped. */
    predicate Valid() {
      && |cells| <= MAX_BINS
      && (forall j :: 0 <= j < |cells| ==> cells[j] <= MAX_COUNT)
      && (cells == [] ==> lo == 0)
      && (cells != [] ==> cells[0] > 0 && cells[|cells| - 1] > 0)
    }

    /** The view with the collapsed flag also raised by c. */
    function Flag(c: bool): View { this.(collapsed := collapsed || c) }
  }

  const EMPTY := View(0, [], false)

  /** What a window whose floor moves to lo holds in bucket k >= lo: everything below the
      floor is folded into it. */
  function Mass(v: View, k: int, lo: int): nat { if k == lo then v.UpTo(k) else v.At(k) }

  /** The window after n more observations of bucket i. */
  function AddView(v: View, i: int, n: nat): View {
    if v.cells == [] then
      View(i, [Clamp(n)], v.collapsed)
    else
      var hi := Max(v.Hi(), i);
      var lo := Max(Min(v.lo, i), hi - MAX_BINS + 1);
      var cell := (j: nat) => Clamp(Mass(v, lo + j, lo) + if Max(i, lo) == lo + j then n else 0);
      View(lo, seq<nat>(hi - lo + 1, cell), v.collapsed || Min(v.lo, i) < lo)
  }

  function Run(v: View, h: seq<Obs>): View {
    if h == [] then v
    else
      var o := h[|h| - 1];
      AddView(Run(v, h[..|h| - 1]), o.index, o.n)
  }

  // ---------------------------------------------------------------------------------------
  // Histories, and the window a history determines.

  predicate Positive(h: seq<Obs>) { forall j :: 0 <= j < |h| ==> h[j].n > 0 }

  function CountAt(h: seq<Obs>, k: int): nat {
    if h == [] then 0
    else CountAt(h[..|h| - 1], k) + if h[|h| - 1].index == k then h[|h| - 1].n else 0
  }

  function CountUpTo(h: seq<Obs>, k: int): nat {
    if h == [] then 0
    else CountUpTo(h[..|h| - 1], k) + if h[|h| - 1].index <= k then h[|h| - 1].n else 0
  }

  function MaxIndex(h: seq<Obs>): int
    requires h != []
  {
    if |h| == 1 then h[0].index else Max(MaxIndex(h[..|h| - 1]), h[|h| - 1].index)
  }

  function MinIndex(h: seq<Obs>): int
    requires h != []
  {
    if |h| == 1 then h[0].index else Min(MinIndex(h[..|h| - 1]), h[|h| - 1].index)
  }

  function Floor(h: seq<Obs>): int
    requires h != []
  {
    Max(MinIndex(h), MaxIndex(h) - MAX_BINS + 1)
  }

  function HistoryMass(h: seq<Obs>, k: int, lo: int): nat {
    if k == lo then CountUpTo(h, k) else CountAt(h, k)
  }

  /** The window of a history: it spans at most MAX_BINS buckets down from the highest
      observed one, each cell is the clamped population folded into it, and it is collapsed
      exactly when something was observed below its floor. */
  function Canonical(h: seq<Obs>): View {
    if h == [] then EMPTY
    else
      var lo, hi := Floor(h), MaxIndex(h);
      View(lo, seq<nat>(Max(0, hi - lo + 1), (j: nat) => Clamp(HistoryMass(h, lo + j, lo))), MinIndex(h) < lo)
  }

  // ---------------------------------------------------------------------------------------
  // Facts about histories.

  lemma {:induction false} IndexBounds(h: seq<Obs>)
    requires h != []
    ensures MinIndex(h) <= MaxIndex(h)
    ensures forall j :: 0 <= j < |h| ==> MinIndex(h) <= h[j].index <= MaxIndex(h)
    ensures exists j :: 0 <= j < |h| && h[j].index == MaxIndex(h)
    ensures exists j :: 0 <= j < |h| && h[j].index == MinIndex(h)
  {
    if |h| == 1 {
      assert h[0].index == MaxIndex(h);
    } else {
      var g := h[..|h| - 1];
      IndexBounds(g);
      var a :| 0 <= a < |g| && g[a].index == MaxIndex(g);
      var b :| 0 <= b < |g| && g[b].index == MinIndex(g);
      assert h[a] == g[a] && h[b] == g[b];
      assert h[|h| - 1].index == MaxIndex(h) || h[a].index == MaxIndex(h);
      assert h[|h| - 1].index == MinIndex(h) || h[b].index == MinIndex(h);
    }
  }

  lemma {:induction false} CountOutside(h: seq<Obs>, k: int)
    ensures (forall j :: 0 <= j < |h| ==> h[j].index != k) ==> CountAt(h, k) == 0
    ensures (forall j :: 0 <= j < |h| ==> k < h[j].index) ==> CountUpTo(h, k) == 0
    ensures CountUpTo(h, k) == CountUpTo(h, k - 1) + CountAt(h, k)
    ensures (exists j :: 0 <= j < |h| && h[j].index == k) && Positive(h) ==> CountAt(h, k) > 0
  {
    if h != [] {
      var g := h[..|h| - 1];
      CountOutside(g, k);
      assert forall j :: 0 <= j < |g| ==> g[j] == h[j];
      if (exists j :: 0 <= j < |h| && h[j].index == k) && Positive(h) && h[|h| - 1].index != k {
        var j :| 0 <= j < |h| && h[j].index == k;
        assert g[j].index == k;
      }
    }
  }

  lemma {:induction false} CountConcat(g: seq<Obs>, h: seq<Obs>, k: int)
    ensures CountAt(g + h, k) == CountAt(g, k) + CountAt(h, k)
    ensures CountUpTo(g + h, k) == CountUpTo(g, k) + CountUpTo(h, k)
  {
    if h == [] {
      assert g + h == g;
    } else {
      assert (g + h)[..|g + h| - 1] == g + h[..|h| - 1];
      CountConcat(g, h[..|h| - 1], k);
    }
  }

  lemma CountAppend(h: seq<Obs>, o: Obs, k: int)
    ensures CountAt(h + [o], k) == CountAt(h, k) + if o.index == k then o.n else 0
    ensures CountUpTo(h + [o], k) == CountUpTo(h, k) + if o.index <= k then o.n else 0
    ensures h != [] ==> MaxIndex(h + [o]) == Max(MaxIndex(h), o.index)
    ensures h != [] ==> MinIndex(h + [o]) == Min(MinIndex(h), o.index)
    ensures Positive(h) && o.n > 0 ==> Positive(h + [o])
  {
    assert (h + [o])[..|h|] == h;
  }

  lemma {:induction false} IndexConcat(g: seq<Obs>, h: seq<Obs>)
    requires g != [] && h != []
    ensures MaxIndex(g + h) == Max(MaxIndex(g), MaxIndex(h))
    ensures MinIndex(g + h) == Min(MinIndex(g), MinIndex(h))
  {
    var m := |h| - 1;
    assert g + h == (g + h[..m]) + [h[m]];
    CountAppend(g + h[..m], h[m], 0);
    if m == 0 {
      assert g + h[..0] == g;
    } else {
      assert h == h[..m] + [h[m]];
      CountAppend(h[..m], h[m], 0);
      IndexConcat(g, h[..m]);
    }
  }

  /** The shape of a history's window: it is a valid view, and its cells are what Canonical
      names, without the sequence comprehension. */
  lemma CanonicalShape(h: seq<Obs>)
    requires h != [] && Positive(h)
    ensures var v := Canonical(h);
            && v.lo == Floor(h) && v.Hi() == MaxIndex(h) && v.cells != []
            && |v.cells| <= MAX_BINS
            && (forall k {:trigger v.At(k)} :: v.lo <= k <= v.Hi() ==> v.At(k) == Clamp(HistoryMass(h, k, v.lo)))
            && v.Valid()
  {
    IndexBounds(h);
    var v := Canonical(h);
    CanonicalAt(h);
    EndsPopulated(h);
    assert v.cells[0] == v.At(v.lo) && v.cells[|v.cells| - 1] == v.At(v.Hi());
    forall j | 0 <= j < |v.cells| ensures v.cells[j] <= MAX_COUNT {
      assert v.cells[j] == v.At(v.lo + j);
    }
  }

  lemma CanonicalAt(h: seq<Obs>)
    requires h != []
    ensures var v := Canonical(h);
            forall k {:trigger v.At(k)} :: v.lo <= k <= v.Hi() ==> v.At(k) == Clamp(HistoryMass(h, k, v.lo))
  {
    var v := Canonical(h);
    forall k {:trigger v.At(k)} | v.lo <= k <= v.Hi()
      ensures v.At(k) == Clamp(HistoryMass(h, k, v.lo))
    {
      assert v.cells[k - v.lo] == Clamp(HistoryMass(h, v.lo + (k - v.lo), v.lo));
    }
  }

  lemma EndsPopulated(h: seq<Obs>)
    requires h != [] && Positive(h)
    ensures CountUpTo(h, Floor(h)) > 0 && CountUpTo(h, MaxIndex(h)) > 0 && CountAt(h, MaxIndex(h)) > 0
  {
    IndexBounds(h);
    var j :| 0 <= j < |h| && h[j].index == MinIndex(h);
    SomethingBelow(h, j, Floor(h));
    SomethingBelow(h, j, MaxIndex(h));
    CountOutside(h, MaxIndex(h));
  }

  lemma {:induction false} SomethingBelow(h: seq<Obs>, j: nat, k: int)
    requires Positive(h) && j < |h| && h[j].index <= k
    ensures CountUpTo(h, k) > 0
  {
    if j < |h| - 1 {
      SomethingBelow(h[..|h| - 1], j, k);
    }
  }

  // ---------------------------------------------------------------------------------------
  // Adding one observation keeps the window canonical.

  lemma UpToStep(v: View, k: int)
    ensures v.UpTo(k) == v.UpTo(k - 1) + v.At(k)
    ensures k < v.lo ==> v.UpTo(k) == 0
  {
  }

  /** Clamped partial sums of the stored cells agree with the history's. */
  lemma {:induction false} CanonicalUpTo(h: seq<Obs>, k: int)
    requires h != [] && Positive(h) && k >= Floor(h)
    ensures Clamp(Canonical(h).UpTo(k)) == Clamp(CountUpTo(h, k))
    decreases k - Floor(h)
  {
    var v := Canonical(h);
    CanonicalShape(h);
    UpToStep(v, k);
    UpToStep(v, k - 1);
    CountOutside(h, k);
    IndexBounds(h);
    if k > Floor(h) {
      CanonicalUpTo(h, k - 1);
      if k <= v.Hi() {
        assert v.At(k) == Clamp(CountAt(h, k));
      } else {
        assert CountAt(h, k) == 0;
      }
    } else {
      assert v.At(k) == Clamp(CountUpTo(h, k));
    }
  }

  /** Below a window's floor nothing was observed, unless the window is collapsed. */
  lemma NothingBelow(h: seq<Obs>, k: int)
    requires h != [] && Positive(h)
    ensures k < MinIndex(h) ==> CountAt(h, k) == 0 && CountUpTo(h, k) == 0
    ensures k > MaxIndex(h) ==> CountAt(h, k) == 0
  {
    IndexBounds(h);
    CountOutside(h, k);
  }

  /** What AddView does to a window that has bins, read bucket by bucket. */
  lemma AddShape(v: View, i: int, n: nat)
    requires v.cells != [] && |v.cells| <= MAX_BINS
    ensures var w := AddView(v, i, n);
            && w.Hi() == Max(v.Hi(), i) && w.lo == Max(Min(v.lo, i), w.Hi() - MAX_BINS + 1)
            && w.collapsed == (v.collapsed || Min(v.lo, i) < w.lo)
            && 0 < |w.cells| <= MAX_BINS
            && forall k {:trigger w.At(k)} :: w.lo <= k <= w.Hi() ==>
                 w.At(k) == Clamp(Mass(v, k, w.lo) + if Max(i, w.lo) == k then n else 0)
  {
    var w := AddView(v, i, n);
    forall k {:trigger w.At(k)} | w.lo <= k <= w.Hi()
      ensures w.At(k) == Clamp(Mass(v, k, w.lo) + if Max(i, w.lo) == k then n else 0)
    {
      var j := k - w.lo;
      assert w.cells[j] == Clamp(Mass(v, w.lo + j, w.lo) + if Max(i, w.lo) == w.lo + j then n else 0);
    }
  }

  lemma SameView(v: View, w: View)
    requires v.lo == w.lo && v.Hi() == w.Hi() && v.collapsed == w.collapsed
    requires forall k {:trigger v.At(k)} :: v.lo <= k <= v.Hi() ==> v.At(k) == w.At(k)
    ensures v == w
  {
    forall j | 0 <= j < |v.cells| ensures v.cells[j] == w.cells[j] {
      assert v.At(v.lo + j) == w.At(v.lo + j);
    }
  }

  lemma AddKeepsCell(h: seq<Obs>, o: Obs, k: int, lo: int)
    requires h != [] && Positive(h) && o.n > 0
    requires lo == Floor(h + [o]) && lo <= k <= MaxIndex(h + [o])
    ensures Clamp(Mass(Canonical(h), k, lo) + if Max(o.index, lo) == k then o.n else 0)
         == Clamp(HistoryMass(h + [o], k, lo))
  {
    var v := Canonical(h);
    CountAppend(h, o, k);
    CanonicalShape(h);
    NothingBelow(h, k);
    if k == lo {
      if k >= v.lo {
        CanonicalUpTo(h, k);
      } else {
        UpToStep(v, k);
      }
    } else if k < v.lo {
      assert v.lo == MinIndex(h);
    } else if k == v.lo {
      CountOutside(h, k);
      NothingBelow(h, k - 1);
    } else if k <= v.Hi() {
      assert v.At(k) == Clamp(CountAt(h, k));
    }
  }

  /** The incremental step and the order-free description agree: feeding one more observation
      to the window of a history gives the window of the longer history. */
  lemma AddKeepsCanonical(h: seq<Obs>, o: Obs)
    requires Positive(h) && o.n > 0
    ensures AddView(Canonical(h), o.index, o.n) == Canonical(h + [o])
  {
    CountAppend(h, o, o.index);
    if h == [] {
      assert h + [o] == [o];
      assert MaxIndex([o]) == o.index == MinIndex([o]);
      var w := Canonical([o]);
      assert |w.cells| == 1 && w.cells[0] == Clamp(HistoryMass([o], w.lo + 0, w.lo));
    } else {
      var u, v, w := Canonical(h), AddView(Canonical(h), o.index, o.n), Canonical(h + [o]);
      CanonicalShape(h);
      AddShape(u, o.index, o.n);
      CanonicalShape(h + [o]);
      IndexBounds(h);
      forall k | v.lo <= k <= v.Hi() ensures v.At(k) == w.At(k) {
        AddKeepsCell(h, o, k, v.lo);
      }
      SameView(v, w);
    }
  }

  lemma {:induction false} RunFromCanonical(g: seq<Obs>, h: seq<Obs>)
    requires Positive(g) && Positive(h)
    ensures Run(Canonical(g), h) == Canonical(g + h)
  {
    if h == [] {
      assert g + h == g;
    } else {
      var m := |h| - 1;
      RunFromCanonical(g, h[..m]);
      AddKeepsCanonical(g + h[..m], h[m]);
      assert g + h[..m] + [h[m]] == g + h;
    }
  }

  /** Whatever was observed, in whatever order, the sketch's window is the canonical one. */
  lemma ObservationsGiveCanonical(h: seq<Obs>)
    requires Positive(h)
    ensures Run(EMPTY, h) == Canonical(h)
  {
    RunFromCanonical([], h);
    assert [] + h == h;
  }

  // ---------------------------------------------------------------------------------------
  // Only the multiset of observations matters.

  lemma {:induction false} CountRemove(h: seq<Obs>, j: nat, k: int)
    requires j < |h|
    ensures CountAt(h, k) == CountAt(h[..j] + h[j + 1..], k) + if h[j].index == k then h[j].n else 0
    ensures CountUpTo(h, k) == CountUpTo(h[..j] + h[j + 1..], k) + if h[j].index <= k then h[j].n else 0
  {
    assert h == h[..j] + ([h[j]] + h[j + 1..]);
    CountConcat(h[..j], [h[j]] + h[j + 1..], k);
    CountConcat([h[j]], h[j + 1..], k);
    CountConcat(h[..j], h[j + 1..], k);
    CountAppend([], h[j], k);
  }

  lemma {:induction false} CountPermute(g: seq<Obs>, h: seq<Obs>, k: int)
    requires multiset(g) == multiset(h)
    ensures CountAt(g, k) == CountAt(h, k) && CountUpTo(g, k) == CountUpTo(h, k)
    decreases |g|
  {
    if g == [] {
      assert |multiset(h)| == 0;
    } else {
      var o := g[|g| - 1];
      assert o in multiset(g);
      assert o in h;
      var j :| 0 <= j < |h| && h[j] == o;
      var g', h' := g[..|g| - 1], h[..j] + h[j + 1..];
      assert g == g' + [o];
      assert h == h[..j] + [o] + h[j + 1..];
      assert multiset(g') == multiset(g) - multiset{o};
      assert multiset(h') == multiset(h) - multiset{o};
      CountPermute(g', h', k);
      CountRemove(h, j, k);
    }
  }

  /** Two histories that hold the same observations, in any order, give the same window. */
  lemma OrderIndependent(g: seq<Obs>, h: seq<Obs>)
    requires Positive(g) && Positive(h) && multiset(g) == multiset(h)
    ensures Run(EMPTY, g) == Run(EMPTY, h)
  {
    ObservationsGiveCanonical(g);
    ObservationsGiveCanonical(h);
    CanonicalPermute(g, h);
  }

  lemma CanonicalPermute(g: seq<Obs>, h: seq<Obs>)
    requires Positive(g) && Positive(h) && multiset(g) == multiset(h)
    ensures Canonical(g) == Canonical(h)
  {
    if g == [] {
      assert |multiset(h)| == 0;
    } else {
      assert h != [] by { assert |multiset(g)| == |g| && |multiset(h)| == |h|; }
      IndexBounds(g);
      IndexBounds(h);
      assert forall o :: o in g <==> o in multiset(g);
      assert forall o :: o in h <==> o in multiset(h);
      var a :| 0 <= a < |g| && g[a].index == MaxIndex(g);
      var b :| 0 <= b < |h| && h[b].index == MaxIndex(h);
      var c :| 0 <= c < |g| && g[c].index == MinIndex(g);
      var d :| 0 <= d < |h| && h[d].index == MinIndex(h);
      assert g[a] in h && h[b] in g && g[c] in h && h[d] in g;
      assert MaxIndex(g) == MaxIndex(h) && MinIndex(g) == MinIndex(h);
      var v, w := Canonical(g), Canonical(h);
      CanonicalShape(g);
      CanonicalShape(h);
      forall k | v.lo <= k <= v.Hi() ensures v.At(k) == w.At(k) {
        CountPermute(g, h, k);
      }
      SameView(v, w);
    }
  }

  // ---------------------------------------------------------------------------------------
  // Merging.

  /** The populated cells of a window, lowest first, as weighted observations. */
  function Cells(v: View, n: nat): seq<Obs>
    requires n <= |v.cells|
  {
    if n == 0 then []
    else if v.cells[n - 1] == 0 then Cells(v, n - 1)
    else Cells(v, n - 1) + [Obs(v.lo + n - 1, v.cells[n - 1])]
  }

  /** b folded into a: the flags join and every populated cell of b is added at its index. */
  function MergeView(a: View, b: View): View {
    Run(a.Flag(b.collapsed), Cells(b, |b.cells|))
  }

  lemma {:induction false} CellsIndexes(v: View, n: nat)
    requires n <= |v.cells|
    ensures Positive(Cells(v, n))
    ensures forall j :: 0 <= j < |Cells(v, n)| ==> v.lo <= Cells(v, n)[j].index < v.lo + n
  {
    if n > 0 { CellsIndexes(v, n - 1); }
  }

  lemma {:induction false} CellsAt(v: View, n: nat, k: int)
    requires n <= |v.cells|
    ensures CountAt(Cells(v, n), k) == if v.lo <= k < v.lo + n then v.cells[k - v.lo] else 0
  {
    if n > 0 {
      CellsAt(v, n - 1, k);
      CountAppend(Cells(v, n - 1), Obs(v.lo + n - 1, v.cells[n - 1]), k);
    }
  }

  lemma {:induction false} CellsUpTo(v: View, n: nat, k: int)
    requires n <= |v.cells|
    ensures CountUpTo(Cells(v, n), k) == Total(v.cells, Max(0, Min(k - v.lo + 1, n)))
  {
    if n > 0 {
      CellsUpTo(v, n - 1, k);
      CountAppend(Cells(v, n - 1), Obs(v.lo + n - 1, v.cells[n - 1]), k);
      if k - v.lo + 1 >= n {
        assert Total(v.cells, n) == Total(v.cells, n - 1) + v.cells[n - 1];
      }
    }
  }

  function Weight(h: seq<Obs>): nat { if h == [] then 0 else Weight(h[..|h| - 1]) + h[|h| - 1].n }

  lemma {:induction false} WeightConcat(g: seq<Obs>, h: seq<Obs>)
    ensures Weight(g + h) == Weight(g) + Weight(h)
  {
    if h == [] {
      assert g + h == g;
    } else {
      assert (g + h)[..|g + h| - 1] == g + h[..|h| - 1];
      WeightConcat(g, h[..|h| - 1]);
    }
  }

  lemma {:induction false} WeightOfCells(v: View, n: nat)
    requires n <= |v.cells|
    ensures Weight(Cells(v, n)) == Total(v.cells, n)
  {
    if n > 0 {
      WeightOfCells(v, n - 1);
      if v.cells[n - 1] != 0 {
        var o := Obs(v.lo + n - 1, v.cells[n - 1]);
        assert (Cells(v, n - 1) + [o])[..|Cells(v, n - 1)|] == Cells(v, n - 1);
      }
    }
  }

  /** A valid view is the window of its own populated cells, up to the collapsed flag. */
  lemma CellsDetermine(v: View)
    requires v.Valid()
    ensures Positive(Cells(v, |v.cells|))
    ensures Canonical(Cells(v, |v.cells|)).Flag(v.collapsed) == v
  {
    var h := Cells(v, |v.cells|);
    CellsIndexes(v, |v.cells|);
    if v.cells != [] {
      CellsEnds(v);
      CanonicalShape(h);
      forall k | v.lo <= k <= v.Hi() ensures Canonical(h).At(k) == v.At(k) {
        CellsMass(v, k);
      }
      SameView(Canonical(h).Flag(v.collapsed), v);
    }
  }

  lemma CellsMass(v: View, k: int)
    requires v.Valid() && v.lo <= k <= v.Hi()
    ensures HistoryMass(Cells(v, |v.cells|), k, v.lo) == v.At(k) == Clamp(v.At(k))
  {
    CellsAt(v, |v.cells|, k);
    CellsUpTo(v, |v.cells|, k);
    if k == v.lo {
      assert Total(v.cells, 1) == Total(v.cells, 0) + v.cells[0];
    }
  }

  lemma CellsEnds(v: View)
    requires v.Valid() && v.cells != []
    ensures var h := Cells(v, |v.cells|);
            h != [] && MinIndex(h) == v.lo && MaxIndex(h) == v.Hi()
  {
    var h := Cells(v, |v.cells|);
    CellsIndexes(v, |v.cells|);
    CellsAt(v, |v.cells|, v.lo);
    CellsAt(v, |v.cells|, v.Hi());
    CountOutside(h, v.lo);
    CountOutside(h, v.Hi());
    IndexBounds(h);
  }

  lemma AddFlag(v: View, o: Obs, c: bool)
    ensures AddView(v.Flag(c), o.index, o.n) == AddView(v, o.index, o.n).Flag(c)
  {
    if v.cells != [] {
      var x, y := AddView(v.Flag(c), o.index, o.n), AddView(v, o.index, o.n).Flag(c);
      assert forall lo, k :: Mass(v.Flag(c), k, lo) == Mass(v, k, lo);
      assert x.cells == y.cells;
    }
  }

  lemma {:induction false} RunFlag(v: View, h: seq<Obs>, c: bool)
    ensures Run(v.Flag(c), h) == Run(v, h).Flag(c)
  {
    if h != [] {
      RunFlag(v, h[..|h| - 1], c);
      var w, o := Run(v, h[..|h| - 1]), h[|h| - 1];
      AddFlag(w, o, c);
    }
  }

  /** A merge is the window of the two populations taken together. */
  lemma MergeIsUnion(a: View, b: View)
    requires a.Valid() && b.Valid()
    ensures MergeView(a, b)
         == Canonical(Cells(a, |a.cells|) + Cells(b, |b.cells|)).Flag(a.collapsed || b.collapsed)
  {
    var g, h := Cells(a, |a.cells|), Cells(b, |b.cells|);
    CellsDetermine(a);
    CellsDetermine(b);
    RunFlag(Canonical(g), h, a.collapsed || b.collapsed);
    RunFromCanonical(g, h);
    assert a.Flag(b.collapsed) == Canonical(g).Flag(a.collapsed || b.collapsed);
  }

  lemma MergeValid(a: View, b: View)
    requires a.Valid() && b.Valid()
    ensures MergeView(a, b).Valid()
  {
    MergeIsUnion(a, b);
    CellsDetermine(a);
    CellsDetermine(b);
    var h := Cells(a, |a.cells|) + Cells(b, |b.cells|);
    if h != [] {
      CanonicalShape(h);
    }
  }

  /** Merge does not depend on which sketch is folded into which, for every pair of valid
      windows, saturated or collapsed or not. */
  lemma MergeCommutes(a: View, b: View)
    requires a.Valid() && b.Valid()
    ensures MergeView(a, b) == MergeView(b, a)
  {
    var g, h := Cells(a, |a.cells|), Cells(b, |b.cells|);
    MergeIsUnion(a, b);
    MergeIsUnion(b, a);
    CellsDetermine(a);
    CellsDetermine(b);
    CanonicalPermute(g + h, h + g);
  }

  lemma MergeOfThree(a: View, b: View, c: View)
    requires a.Valid() && b.Valid() && c.Valid()
    ensures MergeView(MergeView(a, b), c)
         == Canonical(Cells(a, |a.cells|) + Cells(b, |b.cells|) + Cells(c, |c.cells|))
              .Flag(a.collapsed || b.collapsed || c.collapsed)
  {
    var f, g, h := Cells(a, |a.cells|), Cells(b, |b.cells|), Cells(c, |c.cells|);
    MergeIsUnion(a, b);
    CellsDetermine(a);
    CellsDetermine(b);
    CellsDetermine(c);
    RunFromCanonical(f + g, h);
    RunFlag(Canonical(f + g), h, a.collapsed || b.collapsed || c.collapsed);
    assert MergeView(a, b).Flag(c.collapsed)
        == Canonical(f + g).Flag(a.collapsed || b.collapsed || c.collapsed);
  }

  /** ... and not on how a set of sketches is grouped before being folded together. */
  lemma MergeAssociates(a: View, b: View, c: View)
    requires a.Valid() && b.Valid() && c.Valid()
    ensures MergeView(MergeView(a, b), c) == MergeView(a, MergeView(b, c))
  {
    MergeOfThree(a, b, c);
    MergeOfThree(b, c, a);
    MergeValid(b, c);
    MergeCommutes(a, MergeView(b, c));
    CellsIndexes(a, |a.cells|);
    CellsIndexes(b, |b.cells|);
    CellsIndexes(c, |c.cells|);
    RotateThree(Cells(a, |a.cells|), Cells(b, |b.cells|), Cells(c, |c.cells|));
  }

  lemma RotateThree(f: seq<Obs>, g: seq<Obs>, h: seq<Obs>)
    requires Positive(f) && Positive(g) && Positive(h)
    ensures Canonical(f + g + h) == Canonical(g + h + f)
  {
    CanonicalPermute(f + g + h, g + h + f);
  }

  lemma {:induction false} CanonicalValid(h: seq<Obs>)
    requires Positive(h)
    ensures Canonical(h).Valid()
  {
    if h != [] {
      CanonicalShape(h);
    }
  }

  /** Adding an observation is merging a one-cell window. */
  lemma AddIsMerge(v: View, o: Obs)
    requires v.Valid() && o.n > 0
    ensures View(o.index, [Clamp(o.n)], false).Valid()
    ensures MergeView(v, View(o.index, [Clamp(o.n)], false)) == AddView(v, o.index, o.n)
  {
    var s := View(o.index, [Clamp(o.n)], false);
    var p := Obs(o.index, Clamp(o.n));
    assert Cells(s, 1) == Cells(s, 0) + [p];
    assert Cells(s, 1) == [p];
    assert [p][..0] == [];
    assert Run(v.Flag(false), [p]) == AddView(v, p.index, p.n);
    if v.cells != [] {
      AddShape(v, o.index, o.n);
      AddShape(v, p.index, p.n);
      SameView(AddView(v, p.index, p.n), AddView(v, o.index, o.n));
    }
  }

  /** Merging the sketches of two histories gives the sketch of their concatenation, so a
      merged sketch cannot be told from one that observed everything itself. */
  lemma {:induction false} MergeOfHistories(g: seq<Obs>, h: seq<Obs>)
    requires Positive(g) && Positive(h)
    ensures MergeView(Canonical(g), Canonical(h)) == Canonical(g + h)
  {
    if h == [] {
      assert g + h == g;
      assert Cells(EMPTY, 0) == [];
    } else {
      var h', o := h[..|h| - 1], h[|h| - 1];
      var s := View(o.index, [Clamp(o.n)], false);
      MergeOfHistories(g, h');
      CanonicalValid(g);
      CanonicalValid(h');
      CanonicalValid(g + h');
      AddKeepsCanonical(h', o);
      assert h' + [o] == h;
      AddIsMerge(Canonical(h'), o);
      MergeAssociates(Canonical(g), Canonical(h'), s);
      AddIsMerge(Canonical(g + h'), o);
      AddKeepsCanonical(g + h', o);
      assert g + h' + [o] == g + h;
    }
  }

  // ---------------------------------------------------------------------------------------
  // Changing to a coarser scale.

  function Pow2(s: nat): int { if s == 0 then 1 else 2 * Pow2(s - 1) }

  lemma {:induction false} Pow2Positive(s: nat)
    ensures Pow2(s) >= 1
  {
    if s > 0 { Pow2Positive(s - 1); }
  }

  /** The arithmetic right shift of a signed index. */
  function Shift(i: int, s: nat): int
  {
    Pow2Positive(s);
    i / Pow2(s)
  }

  function ShiftAll(h: seq<Obs>, s: nat): seq<Obs> {
    if h == [] then [] else ShiftAll(h[..|h| - 1], s) + [Obs(Shift(h[|h| - 1].index, s), h[|h| - 1].n)]
  }

  /** How many of the observations shift to bucket k. */
  function CountShifted(h: seq<Obs>, s: nat, k: int): nat {
    if h == [] then 0
    else CountShifted(h[..|h| - 1], s, k) + if Shift(h[|h| - 1].index, s) == k then h[|h| - 1].n else 0
  }

  /** A window re-expressed s scales coarser: every populated cell moves to its shifted index. */
  function DownscaleView(v: View, s: nat): View {
    if v.cells == [] then v
    else
      var lo, hi := Shift(v.lo, s), Shift(v.Hi(), s);
      var h := Cells(v, |v.cells|);
      View(lo, seq<nat>(Max(0, hi - lo + 1), (j: nat) => Clamp(CountShifted(h, s, lo + j))), v.collapsed)
  }

  lemma ShiftMonotone(i: int, j: int, s: nat)
    requires i <= j
    ensures Shift(i, s) <= Shift(j, s) && Shift(j, s) - Shift(i, s) <= j - i
  {
    Pow2Positive(s);
    var d := Pow2(s);
    var a, b := i / d, j / d;
    assert a * d <= i < a * d + d && b * d <= j < b * d + d;
    DivMonotone(i, j, d);
  }

  lemma DivMonotone(i: int, j: int, d: int)
    requires i <= j && d >= 1
    ensures i / d <= j / d && j / d - i / d <= j - i
  {
    QuotientOrder(i / d, i % d, j / d, j % d, i, j, d);
  }

  lemma QuotientOrder(a: int, r: int, b: int, t: int, i: int, j: int, d: int)
    requires i == d * a + r && 0 <= r < d && j == d * b + t && 0 <= t < d && i <= j
    ensures a <= b && b - a <= j - i
  {
    Distribute(b, 1, d);
    MulCancel(a, b + 1, d);
    Distribute(b, -a, d);
    Distribute(j - i, 1, d);
    MulMonotone(1, d, j - i);
    MulCancel(b - a, j - i + 1, d);
  }

  lemma Distribute(a: int, b: int, d: int)
    ensures (a + b) * d == a * d + b * d
  {
  }

  lemma MulCancel(a: int, b: int, d: int)
    requires a * d < b * d && d >= 1
    ensures a < b
  {
    if b <= a { MulMonotone(b, a, d); }
  }

  lemma MulMonotone(a: int, b: int, d: int)
    requires a <= b && d >= 0
    ensures a * d <= b * d
  {
    assert (b - a) * d >= 0;
  }

  lemma {:induction false} ShiftAllIndexes(h: seq<Obs>, s: nat)
    requires h != []
    ensures |ShiftAll(h, s)| == |h|
    ensures Positive(h) ==> Positive(ShiftAll(h, s))
    ensures MaxIndex(ShiftAll(h, s)) == Shift(MaxIndex(h), s)
    ensures MinIndex(ShiftAll(h, s)) == Shift(MinIndex(h), s)
  {
    var m := |h| - 1;
    var o := Obs(Shift(h[m].index, s), h[m].n);
    if m == 0 {
      assert h[..0] == [];
      assert ShiftAll(h, s) == [o];
    } else {
      ShiftAllIndexes(h[..m], s);
      IndexConcat(ShiftAll(h[..m], s), [o]);
      var a, b, i := MaxIndex(h[..m]), MinIndex(h[..m]), h[m].index;
      ShiftMonotone(Min(a, i), Max(a, i), s);
      ShiftMonotone(Min(b, i), Max(b, i), s);
      if Positive(h) {
        assert Positive(h[..m]);
        var t := ShiftAll(h[..m], s);
        assert forall j :: 0 <= j < |t + [o]| ==> (t + [o])[j].n > 0;
      }
    }
  }

  /** A cell of an uncollapsed window holds just its own bucket. */
  lemma CellIsCount(h: seq<Obs>, k: int)
    requires h != [] && Positive(h) && Floor(h) == MinIndex(h) <= k <= MaxIndex(h)
    ensures Canonical(h).At(k) == Clamp(HistoryMass(h, k, Floor(h))) == Clamp(CountAt(h, k))
  {
    CanonicalShape(h);
    CountOutside(h, k);
    NothingBelow(h, k - 1);
  }

  /** v holds the clamped population of every bucket of h, which has nothing below v. */
  ghost predicate Holds(v: View, h: seq<Obs>) {
    && (forall j :: 0 <= j < |v.cells| ==> v.cells[j] == Clamp(CountAt(h, v.lo + j)))
    && (forall j :: 0 <= j < |h| ==> v.lo <= h[j].index)
  }

  lemma HoldsCell(v: View, h: seq<Obs>, j: nat, i: int)
    requires Holds(v, h) && j < |v.cells| && i == v.lo + j
    ensures v.cells[j] == Clamp(CountAt(h, i)) == Clamp(v.cells[j])
  {
  }

  /** A history's observations clamped bucket by bucket still shift to the same clamped
      population. */
  lemma {:induction false} ShiftedCounts(v: View, h: seq<Obs>, n: nat, i: int, k: int, s: nat)
    requires n <= |v.cells| && Holds(v, h) && i == v.lo + n
    ensures Clamp(CountShifted(Cells(v, n), s, k)) == Clamp(CountShifted(Below(h, i), s, k))
  {
    hide CountShifted, CountAt, Cells, Below, Shift, Pow2, Holds, Clamp;
    if n == 0 {
      NothingHeld(v, h, k, s);
    } else {
      ShiftedCounts(v, h, n - 1, i - 1, k, s);
      HoldsCell(v, h, n - 1, i - 1);
      BelowStep(h, i, k, s);
      CellsStep(v, n, i, k, s);
      var hit := Shift(i - 1, s) == k;
      ClampSum(CountShifted(Cells(v, n - 1), s, k), CountShifted(Below(h, i - 1), s, k),
               if hit then v.cells[n - 1] else 0, if hit then CountAt(h, i - 1) else 0);
    }
  }

  lemma NothingHeld(v: View, h: seq<Obs>, k: int, s: nat)
    requires Holds(v, h)
    ensures CountShifted(Cells(v, 0), s, k) == CountShifted(Below(h, v.lo), s, k)
  {
    BelowNothing(h, v.lo);
  }

  lemma ClampSum(x: nat, y: nat, a: nat, b: nat)
    requires Clamp(x) == Clamp(y) && Clamp(a) == Clamp(b)
    ensures Clamp(x + a) == Clamp(y + b)
  {
  }

  lemma CellsStep(v: View, n: nat, i: int, k: int, s: nat)
    requires 0 < n <= |v.cells| && i == v.lo + n
    ensures CountShifted(Cells(v, n), s, k)
         == CountShifted(Cells(v, n - 1), s, k) + if Shift(i - 1, s) == k then v.cells[n - 1] else 0
  {
    ShiftAppend(Cells(v, n - 1), Obs(i - 1, v.cells[n - 1]), s, k);
  }

  /** The observations of h below bucket i. */
  function Below(h: seq<Obs>, i: int): seq<Obs> {
    if h == [] then []
    else if h[|h| - 1].index < i then Below(h[..|h| - 1], i) + [h[|h| - 1]]
    else Below(h[..|h| - 1], i)
  }

  lemma {:induction false} BelowNothing(h: seq<Obs>, i: int)
    requires forall j :: 0 <= j < |h| ==> h[j].index >= i
    ensures Below(h, i) == []
  {
    if h != [] {
      BelowNothing(h[..|h| - 1], i);
    }
  }

  lemma {:induction false} BelowAll(h: seq<Obs>, i: int)
    requires forall j :: 0 <= j < |h| ==> h[j].index < i
    ensures Below(h, i) == h
  {
    if h != [] {
      BelowAll(h[..|h| - 1], i);
      assert h[..|h| - 1] + [h[|h| - 1]] == h;
    }
  }

  lemma ShiftAppend(h: seq<Obs>, o: Obs, s: nat, k: int)
    ensures CountShifted(h + [o], s, k) == CountShifted(h, s, k) + if Shift(o.index, s) == k then o.n else 0
  {
    assert (h + [o])[..|h|] == h;
  }

  lemma {:induction false} BelowStep(h: seq<Obs>, i: int, k: int, s: nat)
    ensures CountShifted(Below(h, i), s, k)
         == CountShifted(Below(h, i - 1), s, k) + if Shift(i - 1, s) == k then CountAt(h, i - 1) else 0
  {
    if h != [] {
      var g, o := h[..|h| - 1], h[|h| - 1];
      BelowStep(g, i, k, s);
      ShiftAppend(Below(g, i), o, s, k);
      ShiftAppend(Below(g, i - 1), o, s, k);
    }
  }

  lemma {:induction false} CountShiftAll(h: seq<Obs>, s: nat, k: int)
    ensures CountAt(ShiftAll(h, s), k) == CountShifted(h, s, k)
  {
    if h != [] {
      var g, o := h[..|h| - 1], h[|h| - 1];
      CountShiftAll(g, s, k);
      CountAppend(ShiftAll(g, s), Obs(Shift(o.index, s), o.n), k);
    }
  }

  lemma DownscaleCell(h: seq<Obs>, s: nat, k: int)
    requires h != [] && Positive(h) && Floor(h) == MinIndex(h)
    ensures Clamp(CountShifted(Cells(Canonical(h), |Canonical(h).cells|), s, k))
         == Clamp(CountAt(ShiftAll(h, s), k))
  {
    hide Canonical, CountShifted, CountAt, ShiftAll, Below, Cells, Holds, Clamp;
    var v := Canonical(h);
    CanonicalHolds(h);
    IndexBounds(h);
    BelowAll(h, v.lo + |v.cells|);
    ShiftedCounts(v, h, |v.cells|, v.lo + |v.cells|, k, s);
    CountShiftAll(h, s, k);
  }

  lemma CanonicalHolds(h: seq<Obs>)
    requires h != [] && Positive(h) && Floor(h) == MinIndex(h)
    ensures var v := Canonical(h); Holds(v, h) && v.lo + |v.cells| == MaxIndex(h) + 1
  {
    hide CountAt, Clamp;
    var v := Canonical(h);
    IndexBounds(h);
    forall j | 0 <= j < |v.cells| ensures v.cells[j] == Clamp(CountAt(h, v.lo + j)) {
      CellIsCount(h, v.lo + j);
      assert v.cells[j] == v.At(v.lo + j);
    }
  }

  /** Downscaling is lossless: for a sketch that never collapsed, converting the window gives
      exactly the window the same observations would have built at the coarser scale, whether
      or not bins have saturated. */
  lemma DownscaleIsExact(h: seq<Obs>, s: nat)
    requires Positive(h) && !Canonical(h).collapsed
    ensures DownscaleView(Canonical(h), s) == Canonical(ShiftAll(h, s))
  {
    if h != [] {
      var d, w := DownscaleView(Canonical(h), s), Canonical(ShiftAll(h, s));
      DownscaleBounds(h, s);
      forall k | d.lo <= k <= d.Hi() ensures d.At(k) == w.At(k) {
        DownscaleAt(h, s, k);
      }
      SameView(d, w);
    }
  }

  lemma DownscaleBounds(h: seq<Obs>, s: nat)
    requires h != [] && Positive(h) && Floor(h) == MinIndex(h)
    ensures var d, w := DownscaleView(Canonical(h), s), Canonical(ShiftAll(h, s));
            && d.lo == w.lo && d.Hi() == w.Hi() && !d.collapsed && !w.collapsed && w.cells != []
  {
    ShiftAllIndexes(h, s);
    IndexBounds(h);
    ShiftMonotone(MinIndex(h), MaxIndex(h), s);
    DownscaleShape(Canonical(h), s);
    CanonicalShape(ShiftAll(h, s));
  }

  lemma DownscaleAt(h: seq<Obs>, s: nat, k: int)
    requires h != [] && Positive(h) && Floor(h) == MinIndex(h)
    requires DownscaleView(Canonical(h), s).lo <= k <= DownscaleView(Canonical(h), s).Hi()
    ensures DownscaleView(Canonical(h), s).At(k) == Canonical(ShiftAll(h, s)).At(k)
  {
    IndexBounds(h);
    DownscaleBounds(h, s);
    ShiftAllIndexes(h, s);
    DownscaleShape(Canonical(h), s);
    DownscaleCell(h, s, k);
    CellIsCount(ShiftAll(h, s), k);
  }

  lemma DownscaleShape(v: View, s: nat)
    requires v.cells != []
    ensures var d := DownscaleView(v, s);
            && d.lo == Shift(v.lo, s) && d.Hi() == Shift(v.Hi(), s) && d.collapsed == v.collapsed
            && forall k {:trigger d.At(k)} :: d.lo <= k <= d.Hi() ==>
                 d.At(k) == Clamp(CountShifted(Cells(v, |v.cells|), s, k))
  {
    ShiftMonotone(v.lo, v.Hi(), s);
    var d := DownscaleView(v, s);
    forall k {:trigger d.At(k)} | d.lo <= k <= d.Hi()
      ensures d.At(k) == Clamp(CountShifted(Cells(v, |v.cells|), s, k))
    {
      assert d.cells[k - d.lo] == Clamp(CountShifted(Cells(v, |v.cells|), s, d.lo + (k - d.lo)));
    }
  }
}
