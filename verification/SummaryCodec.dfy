/**
 How an hourly summary stores a sketch: the serialized form holds 256 bins, so a sketch's
 populated bins are split into a low and a high part that are encoded apart and merged on
 reading. Zeros and the sum go with the low part.
 */
module SummaryCodec {
  import opened Int32
  import opened SketchSpec
  import opened SketchMoves
  import opened Codec
  import opened Wire
  import opened Options

  datatype Parts = Parts(low: Option<seq<Byte>>, high: Option<seq<Byte>>)

  /** A sketch that may be regrouped: its bins account for every observation. */
  predicate SummarySafe(p: Packed) {
    && p.scale == DEFAULT_SCALE && !p.view.collapsed && Finite(p.sum)
    && (p.view.cells != [] ==> |p.view.cells| <= MAX_BINS && p.view.Hi() < MAX_INT32)
    && p.count == p.zeroCount + Population(p.view)
  }

  /** The sketch that holds the given bins, with the given zeros and sum. */
  function PartOf(h: seq<Obs>, zeroCount: nat, sum: nat): Packed {
    var v := Run(EMPTY, h);
    Packed(DEFAULT_SCALE, zeroCount, zeroCount + Population(v), sum, v)
  }

  /** A missing sketch has no parts; one that is not safe has no summary. */
  function EncodeSummary(p: Option<Packed>): Option<Parts> {
    match p
    case None => Some(Parts(None, None))
    case Some(s) =>
      if !SummarySafe(s) then None
      else
        var h := CellsOf(s.view);
        var n := Min(|h|, MAX_SERIALIZED_BINS);
        var low := Encode(PartOf(h[..n], s.zeroCount, s.sum));
        Some(Parts(Some(low), if n < |h| then Some(Encode(PartOf(h[n..], 0, 0))) else None))
  }

  function DecodeSummary(parts: Parts): Result<Option<Packed>> {
    match parts.low
    case None => if parts.high.Some? then Err(Corrupt) else Ok(None)
    case Some(data) =>
      var s :- Decode(data);
      if !SummarySafe(s) then Err(Corrupt)
      else if parts.high.None? then Ok(Some(s))
      else
        var h :- Decode(parts.high.value);
        if !SummarySafe(h) || !Above(s, h) || h.zeroCount != 0 || !IsZero(h.sum) || s.count + h.count >= TWO_64 then Err(Corrupt)
        else
          var whole := Packed(s.scale, s.zeroCount, s.count + h.count, s.sum, MergeView(s.view, h.view));
          if SummarySafe(whole) then Ok(Some(whole)) else Err(Corrupt)
  }

  /** The high part's bins lie above the low part's, within one window. */
  predicate Above(s: Packed, h: Packed) {
    s.view.cells != [] && h.view.cells != [] && h.view.lo > s.view.Hi() && h.view.Hi() - s.view.lo < MAX_BINS
  }

  /** The bits of zero, of either sign. */
  predicate IsZero(bits: nat) { bits == 0 || bits == TWO_63 }

  // ---------------------------------------------------------------------------------------

  /** A part holds its bins, exactly and in one window. */
  lemma PartHolds(h: seq<Obs>)
    requires GoodCells(h)
    ensures var v := Run(EMPTY, h);
            && v.Valid() && !v.collapsed && CellsOf(v) == h && Positive(h) && v == Canonical(h)
            && Populated(v.cells) == |h| && Population(v) == Weight(h)
            && (h == [] <==> v.cells == [])
            && (h != [] ==> v.lo == h[0].index && v.Hi() == h[|h| - 1].index)
  {
    hide Window, Cells, Population, Populated;
    var w := Window(h, false);
    WindowOfCells(h, false);
    CellsOfWindow(w);
    ObservationsGiveCanonical(h);
    CellsDetermine(w);
    CellsAreGood(w);
    WeightOfCells(w, |w.cells|);
    BeyondHi(w, w.Hi());
    UnflaggedCanonical(h, w);
  }

  lemma UnflaggedCanonical(h: seq<Obs>, w: View)
    requires Canonical(h).Flag(false) == w
    ensures Canonical(h) == w
  {
  }

  lemma SplitGood(h: seq<Obs>, n: nat)
    requires GoodCells(h) && n <= |h|
    ensures GoodCells(h[..n]) && GoodCells(h[n..]) && h[..n] + h[n..] == h
  {
  }

  /** One part through the ordinary codec. */
  lemma PartSurvives(h: seq<Obs>, zeroCount: nat, sum: nat)
    requires GoodCells(h) && |h| <= MAX_SERIALIZED_BINS
    requires h != [] ==> MIN_INT32 <= h[0].index && h[|h| - 1].index < MAX_INT32
    requires sum < TWO_64 && Finite(sum) && zeroCount + Weight(h) < TWO_64
    ensures Decode(Encode(PartOf(h, zeroCount, sum))) == Ok(PartOf(h, zeroCount, sum))
    ensures SummarySafe(PartOf(h, zeroCount, sum))
  {
    hide Decode, Encode, Run, Finite, GoodCells, Population, Populated;
    PartHolds(h);
    SmallSketchSurvives(PartOf(h, zeroCount, sum));
  }

  lemma ZeroIsFinite()
    ensures Finite(0)
  {
  }

  /** A safe sketch, whatever its number of bins, comes back from a summary as it was. */
  lemma SummarySurvives(p: Packed)
    requires WellFormed(p) && SummarySafe(p)
    ensures EncodeSummary(Some(p)).Some? && DecodeSummary(EncodeSummary(Some(p)).value) == Ok(Some(p))
  {
    hide Decode, Encode, Run, Finite, GoodCells, Population, Populated, CellsOf, MergeView, PartOf, Weight;
    var h := CellsOf(p.view);
    CellsOfWindow(p.view);
    CellsAreGood(p.view);
    WeighView(p.view);
    ZeroIsFinite();
    if |h| <= MAX_SERIALIZED_BINS {
      assert h[..|h|] == h;
      PartSurvives(h, p.zeroCount, p.sum);
      WholeIsPart(p);
    } else {
      SplitSurvives(p);
    }
  }

  lemma WeighView(v: View)
    ensures Weight(CellsOf(v)) == Population(v)
  {
    WeightOfCells(v, |v.cells|);
    BeyondHi(v, v.Hi());
  }

  lemma WholeIsPart(p: Packed)
    requires WellFormed(p) && SummarySafe(p)
    ensures PartOf(CellsOf(p.view), p.zeroCount, p.sum) == p
  {
    hide Population, Canonical, Cells;
    CellsOfWindow(p.view);
    PartHolds(CellsOf(p.view));
    CellsDetermine(p.view);
    UnflaggedCanonical(CellsOf(p.view), p.view);
  }

  lemma SplitSurvives(p: Packed)
    requires WellFormed(p) && SummarySafe(p) && |CellsOf(p.view)| > MAX_SERIALIZED_BINS
    ensures DecodeSummary(EncodeSummary(Some(p)).value) == Ok(Some(p))
  {
    hide Decode, Encode, Run, Finite, Population, Populated, CellsOf, MergeView, Weight, Canonical;
    var h := CellsOf(p.view);
    var low, high := h[..MAX_SERIALIZED_BINS], h[MAX_SERIALIZED_BINS..];
    CellsOfWindow(p.view);
    CellsAreGood(p.view);
    FewCells(p.view);
    SplitGood(h, MAX_SERIALIZED_BINS);
    WeighView(p.view);
    WeightConcat(low, high);
    ZeroIsFinite();
    assert low[0] == h[0] && low[|low| - 1] == h[MAX_SERIALIZED_BINS - 1];
    assert high[0] == h[MAX_SERIALIZED_BINS] && high[|high| - 1] == h[|h| - 1];
    PartSurvives(low, p.zeroCount, p.sum);
    PartSurvives(high, 0, 0);
    PartHolds(low);
    PartHolds(high);
    PartHolds(h);
    MergeOfHistories(low, high);
    WholeIsPart(p);
  }

  lemma {:induction false} CellsCount(v: View, n: nat)
    requires n <= |v.cells|
    ensures |Cells(v, n)| <= n
  {
    if n > 0 { CellsCount(v, n - 1); }
  }

  lemma FewCells(v: View)
    requires v.Valid()
    ensures |CellsOf(v)| <= MAX_BINS
  {
    CellsCount(v, |v.cells|);
  }
}
