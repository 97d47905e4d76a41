/** The delta a series accumulates in place. */
module AggregateDeltas {
  import opened Deltas
  import opened Mapping
  import opened Options
  import opened SketchSpec
  import opened SketchValues

  class AggregateDelta {
    var count: nat
    var errorCount: nat
    var requestCount: nat
    var errorRequestCount: nat
    var resetCount: nat
    var logCount: nat
    var counterDelta: real
    var duration: Range
    var gauge: Range
    var gaugeLast: Latest
    var histogram: Hist
    var seen: Period
    var sketch: Option<Value>

    function View(): Delta
      reads this
    {
      Delta(Counts(count, errorCount, requestCount, errorRequestCount, resetCount, logCount, counterDelta),
            duration, gauge, gaugeLast, histogram, seen, sketch)
    }

    constructor ()
      ensures View() == ZERO
    {
      count, errorCount, requestCount, errorRequestCount, resetCount, logCount, counterDelta := 0, 0, 0, 0, 0, 0, 0.0;
      duration, gauge, gaugeLast, histogram, seen, sketch := NO_RANGE, NO_RANGE, Never, NO_HIST, Unseen, None;
    }

    /** One span; bucket is where the mapping puts a positive duration. */
    method ObserveSpan(micros: real, isError: bool, isRequest: bool, bucket: int, ghost gamma: real)
      requires gamma > 1.0 && (micros > 0.0 ==> bucket == Index(gamma, micros))
      modifies this
      ensures View() == Observe(gamma, old(View()), Span(micros, isError, isRequest))
    {
      hide ObserveValue, Widened, Index;
      CountSpan(isError, isRequest);
      duration := Widened(duration, micros);
      ObserveDuration(micros, bucket, gamma);
    }

    method CountSpan(isError: bool, isRequest: bool)
      modifies `count, `errorCount, `requestCount, `errorRequestCount
      ensures count == old(count) + 1 && errorCount == old(errorCount) + Bit(isError)
      ensures requestCount == old(requestCount) + Bit(isRequest)
      ensures errorRequestCount == old(errorRequestCount) + Bit(isError && isRequest)
    {
      count := count + 1;
      if isError { errorCount := errorCount + 1; }
      if isRequest {
        requestCount := requestCount + 1;
        if isError { errorRequestCount := errorRequestCount + 1; }
      }
    }

    method ObserveDuration(micros: real, bucket: int, ghost gamma: real)
      requires gamma > 1.0 && (micros > 0.0 ==> bucket == Index(gamma, micros))
      modifies `sketch
      ensures sketch == Some(ObserveValue(if old(sketch).Some? then old(sketch).value else NEW_SKETCH, gamma, micros))
    {
      hide AddView, Index;
      if sketch.None? { sketch := Some(NEW_SKETCH); }
      var v := sketch.value;
      if micros <= 0.0 {
        sketch := Some(Value(v.scale, v.count + 1, v.zeroCount + 1, v.sum + micros, v.view));
      } else {
        sketch := Some(Value(v.scale, v.count + 1, v.zeroCount, v.sum + micros, AddView(v.view, bucket, 1)));
      }
    }

    method ObserveLog(time: int, isError: bool, ghost gamma: real)
      requires gamma > 1.0
      modifies this
      ensures View() == Observe(gamma, old(View()), Log(time, isError))
    {
      count, logCount := count + 1, logCount + 1;
      if isError { errorCount := errorCount + 1; }
      match seen {
        case Unseen => seen := Seen(time, time);
        case Seen(first, last) =>
          if time < first { seen := Seen(time, seen.last); }
          if time > last { seen := Seen(seen.first, time); }
      }
    }

    method ObserveGauge(value: real, time: int, ghost gamma: real)
      requires gamma > 1.0
      modifies this
      ensures View() == Observe(gamma, old(View()), Gauge(value, time))
    {
      count := count + 1;
      gauge := Widened(gauge, value);
      if gaugeLast.Never? || !(time < gaugeLast.time) { gaugeLast := At(time, value); }
    }

    method ObserveCounter(increase: real, reset: bool, ghost gamma: real)
      requires gamma > 1.0
      modifies this
      ensures View() == Observe(gamma, old(View()), Counter(increase, reset))
    {
      count, counterDelta := count + 1, counterDelta + increase;
      if reset { resetCount := resetCount + 1; }
    }

    method ObserveHistogram(fold: Hist, folded: Option<Value>, ghost gamma: real)
      requires gamma > 1.0
      modifies this
      ensures View() == Observe(gamma, old(View()), Histogram(fold, folded))
    {
      hide MergeValue, JoinHist, MergeSketch;
      count := count + 1;
      histogram := JoinHist(histogram, fold);
      FoldSketch(folded);
    }

    method FoldSketch(other: Option<Value>)
      modifies `sketch
      ensures sketch == MergeSketch(old(sketch), other)
    {
      hide MergeValue;
      if other.Some? {
        if sketch.None? { sketch := Some(NEW_SKETCH); }
        sketch := Some(MergeValue(sketch.value, other.value));
      }
    }

    method FoldGauge(other: Range, last: Latest)
      modifies `gauge, `gaugeLast
      ensures gauge == MergeRange(old(gauge), other)
      ensures gaugeLast == if other.n == 0 then old(gaugeLast) else MergeLatest(old(gaugeLast), last)
    {
      if other.n > 0 {
        gauge := MergeRange(gauge, other);
        if gaugeLast.Never? || (last.At? && last.time > gaugeLast.time) { gaugeLast := last; }
      }
    }

    /** Folds another delta's view in. */
    method Merge(other: Delta)
      modifies this
      ensures View() == Deltas.Merge(old(View()), other)
    {
      hide MergeSketch, MergeRange, MergeLatest, MergeHist, MergePeriod;
      FoldCounts(other.counts);
      duration := MergeRange(duration, other.duration);
      FoldSketch(other.sketch);
      FoldGauge(other.gauge, other.latest);
      FoldHistogram(other.hist);
      seen := MergePeriod(seen, other.logs);
    }

    method FoldCounts(c: Counts)
      modifies `count, `errorCount, `requestCount, `errorRequestCount, `resetCount, `logCount, `counterDelta
      ensures View().counts == AddCounts(old(View().counts), c)
    {
      count, errorCount := count + c.points, errorCount + c.errors;
      requestCount, errorRequestCount := requestCount + c.requests, errorRequestCount + c.errorRequests;
      counterDelta, resetCount := counterDelta + c.counter, resetCount + c.resets;
      logCount := logCount + c.logs;
    }

    method FoldHistogram(other: Hist)
      modifies `histogram
      ensures histogram == MergeHist(old(histogram), other)
    {
      hide JoinHist;
      if other.n > 0 || other.flags != NO_FLAGS { histogram := JoinHist(histogram, other); }
    }
  }
}
