# A model of the aggregate accounting engine

Telemetry arrives as points, is reduced to deltas, and every delta becomes durable before it is
acknowledged. Memory is a projection of what is committed; expired windows are handed to a store,
which builds hourly rollups and service summaries from them; identities that nothing needs any more
are garbage-collected beside ingest. This project models that engine (`internal/aggregate`) in Dafny
and proves what it promises.

Tables are maps and a transaction is one atomic step. Code that changes an object in place is a
class whose methods are proved against functions on values, and what the program promises is proved
about those functions over all inputs, all runs or all reachable worlds.

| files | what they model |
|---|---|
| `SketchSpec`, `Mapping`, `SketchValues`, `Scales`, `SketchMoves`, `Sketches` | the 512-bin saturating, collapsing quantile sketch: window, merge, downscale, quantile, and the class over its array |
| `Wire`, `Codec`, `SketchCodec` | the serialized sketch: formats on values, and the appending encoder and cursor decoder |
| `Regroups`, `SummaryCodec` | reading sketches back in groups without loss, and the two-part summary encoding |
| `Deltas`, `AggregateDeltas`, `Histograms` | what a series gathers in a window, how deltas merge, and how histogram points fold into sketches |
| `Ledger`, `Restarts`, `Baselines`, `Counters` | cumulative baselines: increases recovered across failed commits, up to what the store holds (OpenTelemetry Metrics Data Model, section "Resets and Gaps") |
| `Cardinality`, `Limiters`, `Groups`, `Admissions` | the cardinality census, its caps and its undo, and what rerouting keeps |
| `Tables`, `Durability`, `Engines`, `Stores` | commit, eviction, handover, recovery and the two-read query |
| `CellTables`, `Rollups`, `Summaries`, `Reads` | token-fenced hourly rows and service summaries, and reads that mix them with buckets and the delta log |
| `Registries`, `Registrars`, `Identity`, `Collections`, `Dims`, `Aliases` | identity maps, the dictionary registrar, mark and sweep with concurrent ingest, dimension tuples, alias closure |
| `Mining`, `Miners`, `Partitions` | the log template miner |
| `Int32`, `Options`, `Sets` | wrapping indexes, optional values and facts about sets that the others share |

The exponential mapping of `Mapping` is that of the OpenTelemetry Metrics Data Model, section
"ExponentialHistogram" (Exponential Scale, Exponential Buckets).

## Where the code and its comments part

The model follows the code. Each of these is a theorem with the exact condition or a concrete input.

- Merging sketches is said not to depend on the order (`internal/aggregate/sketch.go:245-250`). An
  empty sketch at a coarser scale, or with an amount or a flag, breaks it:
  `SketchValues.MergeWithEmpty`. So do sketches with observations when a pair collapses before it is
  coarsened: `Scales.GroupingMatters`, and exactly when in `Scales.MergeAssociatesExactly`.
- A decoded sketch is said to re-encode to its input (`internal/aggregate/sketch_codec.go:123-126`).
  That holds exactly for minimal varints whose last bucket index is below the greatest 32-bit one:
  `Codec.ReencodesExactly`. A walk over the bins counts in 32 bits, so it never ends at that index
  and runs off the array, and sees no bins beyond it, where the decoder narrows the index:
  `Codec.WalkExactly`, `Codec.LastIndexRunsOff`, `Codec.WrappedIndexIsAccepted`.
- Delta merging is said to be commutative and associative (`internal/aggregate/delta.go:325-327`).
  Two gauge samples of one time, or a histogram point that counts nothing but reports a sum, break
  it: `Deltas.MergeCommutesExactly`, `Deltas.MergeAssociatesExactly`, `Deltas.PartitionIsWholeExactly`.
- A histogram point whose bucket total overflows 64 bits is meant to be refused
  (`internal/aggregate/histogram.go:330-342`). It gets through exactly when zeros and negatives
  overflow together and the whole overflows only once: `Histograms.TotalIsCheckedExactly`.
- An observation in a bucket that starts at zero is said to be off by at most 100%
  (`internal/aggregate/histogram.go:463-470`). Against the value that holds from a quarter of the
  bucket up: `Histograms.ZeroBucketErrorExactly`.
- Releasing a series forgets its name even if a sibling carries it
  (`internal/aggregate/cardinality.go:424-432`): `Cardinality.ReleaseForgetsName`.
- The finalizer goes on after a window that failed, and the query relies on memory holding the
  newest windows: `Durability.QueryMissesExactly`, `Durability.OutOfOrderHidesWindow`.
- The query relies also on no batch being between plan and apply for a window that is handed over:
  `Durability.HandoverIsSafeExactly`, `Durability.RaceUndercounts`.
- Replay admits the logged rows anew in map order (`internal/aggregate/recovery.go:275-300`), so under
  a full budget a series may come back under its reserve. Memory mirrors the log by group, and row by
  row exactly under `Admissions.ReadmissionKeepsRowsExactly`; `Admissions.ReadmissionReroutes` is a
  log that comes back changed.
- A reserve series is said never to be charged (`internal/aggregate/cardinality.go:31-36`). One that
  arrives under its own key with room is, as an overflowing log line does
  (`internal/aggregate/reducer.go:435-443`) and a replayed reserve row may:
  `Cardinality.ChargedExactly`, `Cardinality.ReserveSeriesIsCharged`.
- A failed commit is said to be made up for by the next point
  (`internal/aggregate/temporality.go:347-350`). That is so exactly when what it owes is not negative
  and the next point is a repeated one or within the gap: `Ledger.FailureIsRecoveredExactly`,
  `Ledger.GapLosesFailure`, `Ledger.NegativeStays`.
- A failed commit is said to hand back the increase it was carrying
  (`internal/aggregate/temporality.go:347-349`). It hands back what was emitted since the last drain,
  which may be the increase of a point whose delta another group lands, and is then counted twice.
  The store is exact exactly when failed groups hand back what they carried:
  `Counters.StoredExactly`, `Counters.SplitGroupDoubles`.

## Assumptions

- Windows leave memory oldest first, the clock does not go back, and no batch for a window is
  between plan and apply while that window is handed over. `Durability.Orderly` states this for the
  handover event only; the theorems above say what happens without it.
- Revalidating collection candidates and fencing them is one step, as the comment at
  `internal/aggregate/registrar.go:490-493` intends, and an ID handed out before one sweep is in the
  hot path's cache before the next mark. `Identity.SplitFenceExactly` says when the code's two steps
  would sweep an ID in use.
- Ordinary dictionary values differ from `__other__`. A second ID for a value breaks the inverse
  maps: `Registries.MintIsSafeExactly`.
- A template registrar never gives out the ID of a retired template again.
- Each series measure is additive, so a contribution is an identifier in a multiset of
  contributions.

## Model

| member | source | states |
|---|---|---|
| SketchSpec.AddKeepsCanonical | internal/aggregate/sketch.go:332-360 | One incremental add to the window of a history gives the window of the longer history, for every valid history, collapsed or saturated or not |
| SketchSpec.ObservationsGiveCanonical | internal/aggregate/sketch.go:328-416 | After any adds the window runs from max(least index, greatest index - 511) to the greatest index, each bin is the clamped population folded into it, and collapsed holds exactly when something fell below the floor |
| SketchSpec.OrderIndependent | internal/aggregate/sketch.go:245-280 | The window depends on the multiset of observations only |
| SketchSpec.CellsDetermine | internal/aggregate/sketch.go:43-72 | A window is determined by its populated bins and its collapsed flag |
| SketchSpec.MergeIsUnion | internal/aggregate/sketch.go:251-280 | Merging two windows gives the window of both populations together |
| SketchSpec.MergeOfHistories | internal/aggregate/sketch.go:251-280 | Merging the sketches of two histories gives the sketch that observed both |
| SketchSpec.MergeCommutes | internal/aggregate/sketch.go:245-280 | Merge is commutative on all valid windows, collapsed and saturated ones included |
| SketchSpec.MergeAssociates | internal/aggregate/sketch.go:245-280 | Merge is associative on all valid windows |
| SketchSpec.MergeValid | internal/aggregate/sketch.go:251-280 | A merged window is again at most 512 bins with populated ends and no wrapped counter |
| SketchSpec.DownscaleIsExact | internal/aggregate/sketch.go:282-326 | Downscaling an uncollapsed window gives exactly the window the same observations build at the coarser scale, even when bins saturated |
| Mapping.IndexUnique | internal/aggregate/sketch.go:444-460 | A value falls in one bucket only: base^i < value <= base^(i+1) has one solution |
| Mapping.IndexMonotone | internal/aggregate/sketch.go:444-460 | Larger values never fall in lower buckets |
| Mapping.PerfectSubsetting | internal/aggregate/sketch.go:282-326 | The bucket of a value at a coarser scale is its finer bucket arithmetically shifted right, negative indexes included |
| Mapping.CoarserBase | internal/aggregate/sketch.go:439-442 | Downscaling by s turns the base of a scale into the base of the coarser scale |
| Mapping.PowerOfTwoIndex | internal/aggregate/sketch.go:448-460 | The exact branch for powers of two agrees with the ceiling of the logarithm |
| Mapping.RepresentativeError | internal/aggregate/sketch.go:462-468 | A bucket's representative is within (gamma-1)/(gamma+1) relative error of each of its values |
| Mapping.RepresentativeMonotone | internal/aggregate/sketch.go:462-468 | Representatives rise with the bucket index |
| SketchValues.MergeValueCommutes | internal/aggregate/sketch.go:245-280 | Whole sketches with observations merge to the same value either way round, at equal or different scales |
| SketchValues.EmptyCoarserDoesNotCommute | internal/aggregate/sketch.go:245-280 | A concrete empty sketch at a coarser scale for which the documented order independence fails |
| SketchValues.MergeWithEmpty | internal/aggregate/sketch.go:251-263 | With a sketch that counted nothing on one side, fresh or decoded, the order is immaterial if and only if it is not coarser and carries no amount and no flag of its own |
| SketchValues.MergeValueAssociates | internal/aggregate/sketch.go:245-280 | Folding three sketches of one scale does not depend on the grouping if and only if no middle one that counted nothing carries an amount or a flag of its own |
| SketchValues.MergeThenDownscale | internal/aggregate/sketch.go:251-326 | Downscaling commutes with merging while the merged window covers everything |
| Scales.MergedThenCoarsened | internal/aggregate/sketch.go:251-326 | A pair merged and then coarsened shows what it holds lifted to the floor of its merge |
| Scales.MergeAssociatesExactly | internal/aggregate/sketch.go:245-326 | Folding three sketches of any scales gives the same either way if no pair is merged before it is coarsened, or its merge collapses nothing, or the whole is collapsed with a floor at or above that of the merge; and only then, unless there are enough observations to fill a counter |
| Scales.GroupingMatters | internal/aggregate/sketch.go:245-250 | Three concrete sketches with observations, uncollapsed and unsaturated, that fold to different values |
| Scales.MergeAroundEmptyExactly | internal/aggregate/sketch.go:251-263 | With a middle sketch that counted nothing the grouping is immaterial if and only if that is not coarser than both others, and carries no amount and no flag of its own |
| SketchValues.ObserveAllIs | internal/aggregate/sketch.go:146-157 | The totals and the window of an observed sample: zeros counted apart, the rest canonical |
| SketchValues.QuantileMonotone | internal/aggregate/sketch.go:208-243 | A higher q never gives a lower answer, whatever the sketch lost |
| SketchValues.QuantileWithinError | internal/aggregate/sketch.go:208-243 | For an uncollapsed, unsaturated sketch of any non-negative sample, Quantile(q) is within the advertised relative error of the sorted element at rank floor(q*(n-1)) and is zero when that element is |
| SketchMoves.RoomThenAdd | internal/aggregate/sketch.go:332-416 | Making room and then adding with saturation is the single canonical add |
| SketchMoves.FoldedCells | internal/aggregate/sketch.go:393-416 | The copy, clear and fold of a collapse leave exactly the folded window |
| SketchMoves.FoldedCounts | internal/aggregate/sketch.go:393-437 | Folding below a floor keeps every bin above it and puts the clamped population below it into the floor |
| SketchMoves.CappedFits | internal/aggregate/sketch.go:418-437 | Collapsing to a bin cap keeps the top, meets the cap and is idempotent |
| Sketches.Sketch.constructor | internal/aggregate/sketch.go:74-96 | A fresh sketch is the empty value |
| Sketches.Sketch.AddAt | internal/aggregate/sketch.go:362-378 | Adds at most what the 32-bit bin still holds, changes no other bin and records a saturation exactly when something was clamped |
| Sketches.Sketch.ExtendTo | internal/aggregate/sketch.go:380-388 | Lowers the floor in place without moving any count to another bucket |
| Sketches.Sketch.CollapseTo | internal/aggregate/sketch.go:390-416 | Raises the floor in place, leaving the folded window and the new bin total |
| Sketches.Sketch.MakeRoom | internal/aggregate/sketch.go:332-360 | The window afterwards covers the bucket, or its floor is the place the bucket's counts go |
| Sketches.Sketch.Add | internal/aggregate/sketch.go:332-360 | The array after an add is the canonical add of its window |
| Sketches.Sketch.Observe | internal/aggregate/sketch.go:146-157 | Observing updates count, sum, zero count and window as on values |
| Sketches.Sketch.Reset | internal/aggregate/sketch_codec.go:206-215 | Clearing the bins in use leaves the empty value, even when the last index has wrapped |
| Sketches.Sketch.Downscale | internal/aggregate/sketch.go:282-326 | The in-place downscale equals the downscale on values, and its walk ends if and only if the last index is below the greatest 32-bit one |
| Sketches.Sketch.AddBins | internal/aggregate/sketch.go:272-280 | Adding every populated bin of another sketch is the merge of the windows; the walk over them ends if and only if its last index is below the greatest 32-bit one |
| Sketches.Sketch.Merge | internal/aggregate/sketch.go:245-280 | Folding another sketch in leaves the merged value; the other one is unchanged, no count is lost exactly when no saturation is recorded, and it ends exactly when the walks it makes do |
| Sketches.Sketch.CollapseToBinCap | internal/aggregate/sketch.go:418-437 | The in-place cap equals the capped window, and ends exactly when counting the bins does |
| Sketches.Sketch.PopulatedBins | internal/aggregate/sketch.go:126-138 | Counts the bins that are not zero by a walk in 32 bits; it runs off the array if and only if the last index is the greatest 32-bit one |
| Sketches.Sketch.Quantile | internal/aggregate/sketch.go:208-243 | The bucket walk answers a quantile as defined on values, and nothing outside [0,1] |
| Wire.VarintReadsBack | internal/aggregate/sketch_codec.go:270-308 | Every 64-bit value reads back from its varint and nothing after it is consumed |
| Wire.VarintExact | internal/aggregate/sketch_codec.go:270-308 | An accepted varint is the written form of its value if and only if it is minimal |
| Wire.VarintInRange | internal/aggregate/sketch_codec.go:270-308 | What is accepted fits 64 bits |
| Wire.SignedReadsBack | internal/aggregate/sketch_codec.go:289-308 | The zigzag form reads back |
| Wire.WordExact | internal/aggregate/sketch_codec.go:72-108 | A fixed word is written one way only |
| Codec.WindowOfCells | internal/aggregate/sketch_codec.go:218-268 | The window a decoder fills from accepted bins is valid and has exactly those populated bins |
| Codec.CellsOfWindow | internal/aggregate/sketch_codec.go:72-121 | What an encoder writes for a window determines it |
| Codec.DecodeOfEncode | internal/aggregate/sketch_codec.go:72-204 | Decoding an encoded sketch gives it back with its lowest bins folded to 256; trailing bytes and non-finite sums are refused |
| Codec.EncodeDecodeEncode | internal/aggregate/sketch_codec.go:123-136 | Encoding a decoded encoding gives the same bytes |
| Codec.SmallSketchSurvives | internal/aggregate/sketch_codec.go:72-204 | A sketch within 256 populated bins comes back unchanged |
| Codec.WalkExactly | internal/aggregate/sketch.go:126-138 | The 32-bit walk over decoded bins visits exactly the bins if the last index is below the greatest, goes on past the array if it is the greatest, and visits none if it wrapped; no case overlaps |
| Codec.ReencodesExactly | internal/aggregate/sketch_codec.go:123-204 | An accepted input re-encodes to the same bytes if and only if all its varints are minimal and its last bucket index is below the greatest 32-bit one |
| Codec.WrappedIndexIsAccepted | internal/aggregate/sketch_codec.go:218-268 | Every sketch whose bins run past the last 32-bit index is accepted with minimal varints, and encodes to other bytes once that index is narrowed |
| Codec.LastIndexRunsOff | internal/aggregate/sketch.go:126-138 | Every sketch whose last bin is at the greatest 32-bit index is accepted with minimal varints, and counting its bins runs off the array |
| Codec.TwoBinsWrap | internal/aggregate/sketch_codec.go:218-268 | A concrete sketch of two bins at the last 32-bit index |
| Codec.OneBinRunsOff | internal/aggregate/sketch_codec.go:218-268 | A concrete sketch of one bin at the greatest 32-bit index |
| Codec.OverlongZeroIsAccepted | internal/aggregate/sketch_codec.go:123-136 | A concrete accepted input for which the comment "re-encodes to exactly the input bytes" fails |
| Codec.PrefixIsTruncated | internal/aggregate/sketch_codec.go:143-204 | Every proper prefix of an accepted input is refused as truncated |
| Codec.BytesOfOneSketch | internal/aggregate/sketch_codec.go:72-108 | A concrete sketch, byte by byte |
| SketchCodec.AppendTo | internal/aggregate/sketch_codec.go:65-108 | The appending encoder writes the specified bytes, of no bins for a sketch whose last index wrapped, and leaves the sketch unchanged; it fails if and only if the last index is the greatest 32-bit one |
| SketchCodec.DecodeInto | internal/aggregate/sketch_codec.go:138-204 | The cursor decoder succeeds exactly when the specification does, with the same error otherwise; the destination is the decoded sketch if the last index fits 32 bits, shows no bins exactly otherwise, and is fit for the next decode |
| SketchCodec.DecodeBins | internal/aggregate/sketch_codec.go:217-268 | The bin loop accepts exactly the specified blocks and fills the array with them, the last index narrowed to 32 bits |
| Regroups.FlagsAreExact | internal/aggregate/store_sqlite.go:1719-1752 | After any adds a sketch is neither collapsed nor saturated if and only if its span fits 512 bins and no bucket exceeds 32 bits |
| Regroups.GroupsAreExact | internal/aggregate/store_sqlite.go:1719-1772 | When the probe of all candidates lost nothing, each service's folded window holds every bucket's exact population |
| Regroups.SafeStep | internal/aggregate/store_sqlite.go:1752-1766 | Testing the probe after each row decides exactly whether all rows so far may be regrouped |
| Regroups.VisitSketches | internal/aggregate/store_sqlite.go:1719-1790 | Safe candidates give one uncollapsed sketch per service with the exact bins, count and zero count; unsafe ones give the original rows unchanged and in order |
| Regroups.RegroupingIsLossless | internal/aggregate/store_sqlite.go:1719-1728 | If everything together loses nothing, any two splittings into sketches fold back to the same bins, count and zero count, and these are exact |
| SummaryCodec.PartHolds | internal/aggregate/service_summary.go:32-61 | A sketch built from ascending bins holds exactly those bins |
| SummaryCodec.SummarySurvives | internal/aggregate/service_summary.go:32-93 | A safe sketch of up to 512 bins, split into two encoded parts and decoded, is the sketch it was |
| Histograms.TotalIsCheckedExactly | internal/aggregate/histogram.go:330-342 | A count is accepted if and only if it is the bucket total, or what 64 bits leave of it when zeros and negatives overflow together and the whole overflows once; so an overflowing total gets through under some count exactly in that case |
| Histograms.WrappedTotalIsAccepted | internal/aggregate/histogram.go:330-342 | A concrete point whose wrapped total is accepted as zero |
| Histograms.FoldExponential | internal/aggregate/histogram.go:287-371 | Refused exactly when malformed; without percentiles for negatives or negative scales; otherwise the sketch counts the point's count and its window is canonical for the shifted buckets |
| Histograms.FoldIsObserving | internal/aggregate/histogram.go:287-371 | The folded window is the one that observing any sample with the point's buckets would give at the sketch's scale |
| Histograms.FoldHistogram | internal/aggregate/histogram.go:373-458 | Refused exactly when malformed; without percentiles exactly when a counted bucket cannot be placed or no bound exists; otherwise each finite bucket is placed at its midpoint with its count and none as zeros, sketch and tail account for the whole count and the source error is the worst counted one |
| Histograms.MidpointAccuracy | internal/aggregate/histogram.go:460-474 | A geometric midpoint is within sqrt(upper/lower)-1 relative error of every value of its bucket |
| Histograms.ZeroBucketErrorExactly | internal/aggregate/histogram.go:460-474 | For a bucket starting at zero the admitted 100% holds against the value if and only if the value is at least a quarter of the upper bound |
| Histograms.QuantileIsSameRank | internal/aggregate/delta.go:284-323 | Otherwise the rescaled q asks the sketch for the same rank of the whole distribution |
| Deltas.HistsCommuteExactly | internal/aggregate/delta.go:368-389 | Histogram parts merge the same either way if and only if no skipped part carries an amount the other order keeps |
| Deltas.ReasonsAgree | internal/aggregate/delta.go:263-276 | The merged drop reason is the least non-zero one, commutatively and associatively |
| Deltas.MergeCommutesExactly | internal/aggregate/delta.go:325-401 | At whatever scale the sketches are, merge commutes if and only if no gauge samples of one time disagree and no skipped histogram part carries an amount |
| Deltas.MergeAssociatesExactly | internal/aggregate/delta.go:325-401 | Merge associates if and only if the middle delta's histogram part is not skipped with an amount that the right one would carry along, and the sketches are not of scales whose grouping shows; at the default scale they never are |
| Deltas.ZeroIsNeutralExactly | internal/aggregate/delta.go:325-401 | The empty delta is neutral on the right, and on the left if and only if no skipped amount is lost |
| Deltas.SketchCommutes | internal/aggregate/delta.go:346-351 | Optional sketches at the default or a coarser scale merge commutatively |
| Deltas.SketchAssociates | internal/aggregate/delta.go:346-351 | Optional sketches merge associatively unless all hold observations at scales whose grouping shows; those of the default scale never do |
| Deltas.PartitionIsWholeExactly | internal/aggregate/delta.go:149-401 | Merging the deltas of two runs is observing the whole if and only if the second has no skipped amount and no gauge tie |
| Deltas.EmptyPointLosesItsSum | internal/aggregate/delta.go:232-261 | Any histogram point with no count and a non-zero sum loses it on merging |
| Deltas.ObservedIsDescribed | internal/aggregate/delta.go:149-210 | Count, sum, least and greatest of durations and gauge samples are those of the observations, the latest sample is the last of the latest time, and the period is that of the logs |
| Deltas.CountsAreExact | internal/aggregate/delta.go:149-220 | Points, errors, requests, failed requests, resets and logs are counted exactly; an error is a failed span or a log of error severity |
| Deltas.HistogramsAreDescribed | internal/aggregate/delta.go:232-261 | Tail bound and least value are the least of those reported, the greatest value and the source error the greatest, and each is reported exactly when some point does |
| AggregateDeltas.AggregateDelta.ObserveSpan | internal/aggregate/delta.go:149-178 | The fields after a span are the specified observation |
| AggregateDeltas.AggregateDelta.ObserveLog | internal/aggregate/delta.go:181-193 | The fields after a log record are the specified observation |
| AggregateDeltas.AggregateDelta.ObserveGauge | internal/aggregate/delta.go:196-210 | The fields after a gauge sample are the specified observation |
| AggregateDeltas.AggregateDelta.ObserveCounter | internal/aggregate/delta.go:214-220 | The fields after a counter increase are the specified observation |
| AggregateDeltas.AggregateDelta.ObserveHistogram | internal/aggregate/delta.go:232-261 | The fields after a histogram point are the specified observation |
| AggregateDeltas.AggregateDelta.Merge | internal/aggregate/delta.go:328-401 | The fields after a merge are the specified merge |
| Ledger.Conservation | internal/aggregate/temporality.go:233-254 | Over every run of points, drains, commits and failures, from whatever baselines were read back: genuine increases = durable + in flight + pending + owed + stranded |
| Restarts.FreshPointExactly | internal/aggregate/temporality.go:470-506 | A newer point within the gap: pending rises by its value if start time differs or value fell, else by the difference, plus a positive owed amount; the reason is a start-time change if and only if start times differ, and a regression if and only if they agree and the value fell |
| Restarts.GenuineIsCounted | internal/aggregate/temporality.go:394-507 | Over every run, restarts, late points and gaps included, the genuine total of a record is what its points come to: the last value before each restart and the last of all, less where counting began, and over a gap nothing |
| Restarts.RestartsAreCounted | internal/aggregate/temporality.go:471-485 | A counter that restarts any number of times within the gap has as genuine total the sum of its segments' last values less the value its record started from |
| Restarts.DurableIsCounted | internal/aggregate/temporality.go:233-254 | Once everything is drained and committed and nothing is owed, durable and stranded together are what the points come to, whatever failed before |
| Restarts.SeededCountsOn | internal/aggregate/temporality.go:297-313 | A record read back at startup counts on from the start time, time and value the store kept |
| Ledger.SeededIsStarted | internal/aggregate/temporality.go:297-313 | A tracker is ready to run before and after each baseline read back at startup |
| Ledger.DrainTakesEverything | internal/aggregate/temporality.go:315-345 | A drain carries everything emitted since the last one |
| Ledger.NeverOverCounts | internal/aggregate/temporality.go:233-254 | For non-negative points the durable amount never exceeds the genuine one, so no owed amount settles twice |
| Ledger.NegativeIncreaseExactly | internal/aggregate/temporality.go:394-507 | A point increases its counter by a negative amount if and only if it restarts it below zero |
| Ledger.ArrivalSettlesExactly | internal/aggregate/temporality.go:394-507 | A point leaves the record it reaches owing nothing, settled or dropped, if and only if what it owes is not negative |
| Ledger.NegativeStays | internal/aggregate/temporality.go:394-507 | Over every run without a failing commit a record that owes nothing or a negative amount goes on so, with nothing settled or dropped |
| Ledger.FateIsExact | internal/aggregate/temporality.go:394-507 | Over every run without a failing commit a positive owed amount waits, or is settled whole and once by the first point to reach its record, or is dropped whole and once because that point comes after a gap |
| Ledger.FailureIsRecoveredExactly | internal/aggregate/temporality.go:347-372 | When a commit fails, whatever its batch carried, exactly the whole owed amount is settled in the run that follows if and only if it is not negative and the first point to reach the record is a repeated one or within the gap; likewise when it is dropped and when it stays owed |
| Ledger.FailedPointIsRecoveredExactly | internal/aggregate/temporality.go:347-372 | For a batch of one point: its increase is settled by the next point if and only if it counted nothing, or it did not restart its counter below zero and the next point is a repeated one or within the gap |
| Ledger.GapLosesFailure | internal/aggregate/temporality.go:394-507 | A concrete failed increase that the next point, after a gap, drops |
| Ledger.ArrivalsSettle | internal/aggregate/temporality.go:347-372 | In every run of non-negative points each arrival at a record leaves it owing nothing |
| Ledger.NegativeIsNeverSettled | internal/aggregate/temporality.go:394-507 | A concrete counter below zero whose owed amount later points do not settle |
| Ledger.SteadyCounter | internal/aggregate/temporality.go:394-507 | Without restart, fall or gap the genuine total is the last value less the seeded one |
| Ledger.SteadyCounterIsExact | internal/aggregate/temporality.go:233-254 | Once everything is drained and committed, the durable increase of a steady counter is exactly that difference, whatever failed before |
| Ledger.RetryRecovers | internal/aggregate/temporality.go:347-372 | After a failed commit, resending the same point recovers the whole owed amount once and moves nothing else |
| Ledger.BaselineMovesForward | internal/aggregate/temporality.go:394-507 | A point that is not newer never moves a baseline |
| Ledger.BaselinesStayBounded | internal/aggregate/temporality.go:394-440 | Neither bound on dedicated baselines is ever exceeded in any run |
| Ledger.SlotExactly | internal/aggregate/temporality.go:404-437 | In every run a producer has or gets a record of its own if and only if it has one already or both its series and the tracker have room; otherwise its points share the record of the series |
| Baselines.BaselineTracker.Seed | internal/aggregate/temporality.go:297-313 | Installs a durable baseline without making it dirty |
| Baselines.BaselineTracker.ObserveCumulative | internal/aggregate/temporality.go:394-507 | State and outcome after a point are the specified ones; of a newer point within the gap the reason and the delta are those of its start time, its value and what is owed |
| Baselines.BaselineTracker.DrainDirty | internal/aggregate/temporality.go:315-345 | Takes exactly the dirty records with their emitted amounts and clears both |
| Baselines.BaselineTracker.PutBack | internal/aggregate/temporality.go:347-372 | Puts a failed batch back: each record is dirty again and owes what its row carried |
| Counters.StoredConservation | internal/aggregate/writer.go:586-671 | Over every run, however deltas are grouped, landed and lost: stored + waiting + under way + owed + stranded = genuine + (what failed groups handed back - what they carried) |
| Counters.StoredExactly | internal/aggregate/writer.go:616-654 | Once nothing is waiting, under way, owed or stranded, the store has counted exactly what the points did if and only if failed groups handed back what they carried |
| Counters.WholeGroupsCountExactly | internal/aggregate/writer.go:586-671 | When every group takes all deltas reduced so far, the store is exact but for what is pending, under way, owed or stranded, whatever groups fail |
| Counters.SplitGroupDoubles | internal/aggregate/temporality.go:347-372 | A concrete run in which a group drains a point it does not carry and fails, and seven is stored as twelve |
| Cardinality.CapsAlwaysHold | internal/aggregate/cardinality.go:270-434 | In every run of admissions and releases no positive cap is exceeded by the charged series it counts, and remembered names belong to charged series |
| Cardinality.ChargedExactly | internal/aggregate/cardinality.go:267-290 | Over every run a series is charged if and only if the arrival that made it active came under its own key with room under every cap |
| Cardinality.ReserveSeriesIsCharged | internal/aggregate/reducer.go:435-443 | A reserve series that arrives under its own key with room is charged like any other |
| Cardinality.SameReserveExactly | internal/aggregate/cardinality.go:436-457 | Two series share their reserve series if and only if they agree on tenant, service, signal and status |
| Cardinality.ReserveIsBounded | internal/aggregate/cardinality.go:436-457 | In every run of admissions and releases the reserve holds at most one series for each tenant, service, signal and status that arrived, and so at most as many as those, however many series were refused |
| Cardinality.RoomUnderCaps | internal/aggregate/cardinality.go:292-336 | The check passes if and only if one more series fits under the global cap, the cap configured for its signal, the ones configured for its service and signal, and its tenant's share, at least one |
| Cardinality.AdmitKeepsInv | internal/aggregate/cardinality.go:270-385 | An admission keeps the census equal to the active series and within the caps |
| Cardinality.ReleaseKeepsInv | internal/aggregate/cardinality.go:387-434 | A release keeps it too |
| Cardinality.AdmissionRedirectsOnly | internal/aggregate/cardinality.go:267-290 | A point is always recorded, under its own key or, when a cap binds, under one that keeps tenant, service, signal and status and has the reserve name, no dimensions and nothing else of its own |
| Cardinality.ReleaseForgetsName | internal/aggregate/cardinality.go:424-432 | After a release the remembered names are exact if and only if no charged sibling carries the forgotten name |
| Limiters.Limiter.constructor | internal/aggregate/cardinality.go:252-265 | A fresh limiter counts nothing |
| Limiters.Limiter.Admit | internal/aggregate/cardinality.go:267-290 | The counters after an admission count exactly the series specified; the key returned is the own one, or keeps tenant, service, signal and status and nothing else |
| Limiters.Limiter.CheckLocked | internal/aggregate/cardinality.go:292-336 | Reports the first cap the series would exceed, in order |
| Limiters.Limiter.AddLocked | internal/aggregate/cardinality.go:358-385 | Presence, counters and names after recording a series |
| Limiters.Limiter.Release | internal/aggregate/cardinality.go:387-434 | Presence, counters and names after dropping one presence; the last presence gives back what the first charged |
| Limiters.Limiter.AdmittedKey | internal/aggregate/cardinality.go:459-470 | The identity of an applied delta, charging nothing |
| Admissions.RollbackRestores | internal/aggregate/engine.go:783-794 | Rolling back a plan restores presence, the charged set and the reserve |
| Admissions.PlanPreservesGroups | internal/aggregate/engine.go:693-757 | However many series are rerouted, each (tenant, service, signal, status, window) keeps its unexpired contributions, for any order of admission |
| Admissions.AdmissionIsConservative | internal/aggregate/engine.go:693-757 | The planned rows hold for each group exactly what the batch's unexpired rows held |
| Admissions.AdmissionReadmits | internal/aggregate/recovery.go:275-300 | Admitting logged rows anew keeps their windows and each group total, whatever the caps and the order |
| Admissions.ReadmissionKeepsRowsExactly | internal/aggregate/recovery.go:275-300 | It leaves the rows as they are if and only if each, when its turn comes, is active, has room or is its own reserve |
| Admissions.ReadmissionReroutes | internal/aggregate/recovery.go:275-300 | A concrete log of a series and its reserve that a replay in the wrong order joins under the reserve |
| Admissions.CommitStaysInStep | internal/aggregate/engine.go:759-781 | After a committed plan limiter presence equals shard contents |
| Admissions.RollbackStaysInStep | internal/aggregate/engine.go:783-794 | After a rolled-back plan it does too |
| Admissions.EvictStaysInStep | internal/aggregate/engine.go:539-555 | After evicting whole windows it does too |
| Groups.TotalCountsRows | internal/aggregate/engine.go:762-825 | Merging a contribution into a row raises the total of the group of its tenant, service, signal, status and window by exactly that, and no other total or row |
| Durability.CutoffsAgree | internal/aggregate/store.go:698-709 | For an aligned window "expired for the finalizer", "below the replay line" and "late on arrival" coincide |
| Durability.CutoffsAgreeExactly | internal/aggregate/store.go:698-709 | They coincide at every moment for exactly the aligned windows |
| Durability.UnalignedWindowIsClaimedByNeither | internal/aggregate/store.go:698-709 | A concrete unaligned window that is neither finalized nor replayed |
| Durability.OverCapSize | internal/aggregate/engine.go:880-896 | Evicting the oldest closed windows over the cap leaves exactly as many as the cap, and evicts none while they are within it or there is no cap |
| Durability.StepKeepsInv | internal/aggregate/engine.go:519-555 | Every orderly event keeps: committed = log + buckets by row, memory mirrors what was applied by group, and what left memory lies below what is in it; a recovery may reroute rows within a group |
| Durability.CommittedGrows | internal/aggregate/writer.go:586-671 | Nothing committed is taken back |
| Durability.ExactlyOnce | internal/aggregate/writer.go:586-671 | Over every orderly run of commits, failures, evictions, handovers, crashes and rerouting recoveries each committed contribution is in the log or the buckets exactly once, memory never leads the store, and a query counts each group of its range once and no group besides |
| Durability.QueryCountsOnce | internal/aggregate/query.go:349-439 | For each group in its range a query made of two reads counts everything acknowledged before its first read once, and nothing uncommitted by its second, whatever happens in between; of a group outside the range it counts nothing |
| Durability.QueryTotalsCountOnce | internal/aggregate/query.go:349-439 | Over any finite set of groups the answers add up to at least what was acknowledged in the range before the first read and at most what is committed there by the second |
| Durability.AdjacentRangesAddUpExactly | internal/aggregate/query.go:388-401 | For the same two reads the answers of [a, b) and [b, c) add up to that of [a, c) if and only if the store holds no row of the group past a window memory owns in the first range and before all it owns in the second |
| Durability.QueryMissesExactly | internal/aggregate/query.go:349-401 | A query misses acknowledged contributions of a group if and only if a row lies outside memory at or past the oldest window memory owns in its range |
| Durability.OutOfOrderHidesWindow | internal/aggregate/writer.go:704-728 | If a newer window is handed over while an older one stays in memory, every query covering both misses the newer one |
| Durability.RaceUndercounts | internal/aggregate/engine.go:519-537 | A window handed over between plan and apply of a batch for it comes back with that batch alone |
| Durability.HandoverIsSafeExactly | internal/aggregate/engine.go:519-537 | Handing a window over that something was applied to keeps memory sound if and only if it is the oldest and below every window a batch between plan and apply holds |
| Engines.FindOldest | internal/aggregate/engine.go:880-896 | Visiting a set finds its least member |
| Engines.Engine.Rollover | internal/aggregate/engine.go:827-878 | Expired windows are closed and the oldest closed ones past the cap evicted and released |
| Engines.Engine.MarkFinalized | internal/aggregate/engine.go:510-537 | A finalized window leaves memory, the watermark moves over it and its presence is released |
| Engines.Engine.PlanAdmission | internal/aggregate/engine.go:719-757 | The plan and the limiter after it are the specified ones for some order of the rows; windows roll over by the first clock reading unless the batch is empty, and lateness is judged by the second |
| Engines.Engine.CommitAdmission | internal/aggregate/engine.go:762-825 | The shards are the old ones with the planned rows merged in |
| Engines.Engine.RollbackAdmission | internal/aggregate/engine.go:786-794 | Every reservation of the plan is released and the shards are unchanged |
| Stores.Store.CommitGroup | internal/aggregate/store_sqlite.go:715-908 | The log afterwards is the old one with every row merged in once |
| Stores.Store.FinalizableWindows | internal/aggregate/store_sqlite.go:999-1019 | The oldest log windows at or below the cutoff, at most the limit |
| Stores.Store.FinalizeWindow | internal/aggregate/store_sqlite.go:1047-1199 | One window moves from the log to the buckets, added to what is there; log + buckets is unchanged |
| Stores.Store.ReplayMutable | internal/aggregate/store_sqlite.go:1904-1924 | Exactly the log rows at or past the replay line |
| Stores.Commit | internal/aggregate/writer.go:586-671 | A landed commit puts the planned rows in log and shards; a failed one leaves store, shards and census as they were |
| Stores.FinalizeExpired | internal/aggregate/recovery.go:252-272 | The loop terminates with every expired window in the buckets and log + buckets unchanged |
| Stores.Recover | internal/aggregate/recovery.go:119-165 | What expired moved from log to buckets, nothing durable changed, and memory holds the remaining log, by window and group |
| Stores.ReplaysTheRest | internal/aggregate/recovery.go:252-300 | After finalizing what expired the replay reads everything that is left, each row once |
| Rollups.HourStartIsFloor | internal/aggregate/rollup.go:26-28 | The truncating SQL expression is the floor to 3600, before the epoch too |
| Rollups.CompleteHoursAreExact | internal/aggregate/rollup.go:30-43 | For every interleaving of bucket changes, discovery, resets and any number of live or dead builders, the row of an hour marked complete holds each bucket row of its series in the hour exactly once and no other, and there is one exactly when there is a bucket row |
| Rollups.StaleStaysStale | internal/aggregate/rollup.go:251-258 | A builder that lost its token never gets it back |
| Rollups.StaleBuilderIsHarmless | internal/aggregate/rollup.go:251-384 | Nothing a stale builder does changes a row or a marker |
| Rollups.RangesPartition | internal/aggregate/rollup.go:447-460 | The stretches a read uses tile [start, end) without gap or overlap |
| CellTables.SumSplits | internal/aggregate/rollup.go:443-460 | A sum over a range is the sum over its two halves |
| CellTables.SumIsRows | internal/aggregate/rollup.go:386-441 | The sum of a series over a range counts each of its rows in the range once, whatever the order of reading, and no other row |
| CellTables.RowsPut | internal/aggregate/rollup.go:403-440 | One more row raises what is counted by exactly that row if it is one of those counted, and by nothing otherwise |
| CellTables.OneRow | internal/aggregate/rollup.go:403-440 | The only row of a series in a range is its sum |
| Rollups.RolledIsExact | internal/aggregate/rollup.go:447-460 | A stretch answered from hourly rows counts each bucket row of the series under it exactly once |
| Rollups.ReadIsExact | internal/aggregate/rollup.go:502-553 | A read mixing hourly rows and buckets counts each bucket row of the series in the range exactly once and no other |
| Rollups.SourceFrozen | internal/aggregate/service_summary.go:603-610 | The rows of a complete hour do not change while its token stays |
| Rollups.SourceNeverReturns | internal/aggregate/service_summary.go:603-610 | A complete hour's lost token never comes back |
| Summaries.ConsumeToOk | internal/aggregate/service_summary.go:458-594 | Reading series in group order, the cursor holds finished group sums and the open one exactly |
| Summaries.CurrentSummariesAreExact | internal/aggregate/service_summary.go:278-447 | For every interleaving with rollup builders, summary builders, cleaners and bucket changes, a summary complete under the current source token equals the grouped sums of its hour |
| Summaries.MoveKeepsInv | internal/aggregate/service_summary.go:278-447 | Every claim, clean, read, write and finish step keeps both layers sound |
| Summaries.SummaryReadIsExact | internal/aggregate/service_summary.go:835-847 | A read of a current summary counts each bucket row of the group in the hour exactly once, and has a row exactly for the groups with one |
| Reads.FinalizeTogether | internal/aggregate/store_sqlite.go:1047-1199 | Finalizing a window moves its rows from the log to the buckets and changes no total |
| Reads.DoTogether | internal/aggregate/store_sqlite.go:1793-1806 | After every transaction buckets and log together hold exactly what was committed and not purged |
| Reads.JournalCounts | internal/aggregate/store_sqlite.go:1793-1806 | What is committed and not purged after a run is, by group and range, every committed row once but for the windows purged after its commit |
| Reads.StretchIsExact | internal/aggregate/rollup.go:534-546 | A stretch of a read, from whichever of summary, hourly rows or buckets, with the log rows beside it counts each bucket and log row of the group there exactly once |
| Reads.MixedReadIsExact | internal/aggregate/rollup.go:498-553 | Over every run of commits, finalizations, purges and builders of both layers, a read that mixes summaries, hourly rows, buckets and the delta log gives a group every row that a commit put in the range exactly once, unless its window was purged afterwards |
| Reads.Intervals | internal/aggregate/rollup.go:502-531 | The stretches tile the range, each complete hour is one of them, and neighbours read from the buckets are joined |
| Reads.SumSnapshot | internal/aggregate/rollup.go:502-553 | Adding up the stretches counts each bucket and log row of the group in the range exactly once |
| Reads.SplitSelector | internal/aggregate/query.go:455-477 | A range is cut into consecutive chunks on window boundaries, at most four when it is whole windows, and one when it is narrow |
| Reads.ChunksAddUp | internal/aggregate/query.go:444-453 | Chunks read apart add up to the range read at once |
| Dims.ComponentsOfEncoded | internal/aggregate/gc.go:277-300 | Reading a tuple back marks exactly the IDs it was made of |
| Dims.SameTupleExactly | internal/aggregate/dict.go:565-597 | Two collections of pairs encode alike if and only if they are the same multiset |
| Dims.OneOrder | internal/aggregate/dict.go:572-592 | Sorting leaves one arrangement |
| Dims.AppendCanonicalDims | internal/aggregate/dict.go:572-597 | Sorts in place, a permutation of what was given, and appends the encoding of the sorted pairs |
| Dims.MarkDimComponents | internal/aggregate/gc.go:281-300 | The decoding loop adds exactly the tuple's components |
| Aliases.MarkAliasClosure | internal/aggregate/gc.go:302-337 | The worklist computes the least set that contains the live templates and is closed under alias edges both ways |
| Registries.MintKeeps | internal/aggregate/registrar.go:239-257 | Minting keeps maps, staged rows, durable rows and counter consistent |
| Registries.LandKeeps | internal/aggregate/registrar.go:262-295 | So does making the staged rows durable, and no history is rewritten |
| Registries.ForgetKeeps | internal/aggregate/registrar.go:509-542 | So does sweeping any IDs that are not staged |
| Registries.WarmKeeps | internal/aggregate/registrar.go:73-132 | So does a restart that reads the rows and the watermark back, even after the highest ID was swept |
| Registries.MintIsSafeExactly | internal/aggregate/registrar.go:239-257 | Minting keeps the two maps inverse if and only if the value has no ID yet |
| Registrars.Registrar.constructor | internal/aggregate/registrar.go:73-87 | An empty registrar |
| Registrars.Registrar.Register | internal/aggregate/registrar.go:157-213 | Refused exactly when the value is unusable, fenced, or new with a cap or the ID space full; otherwise its ID, minted on first use, with every cap still respected |
| Registrars.Registrar.OtherID | internal/aggregate/registrar.go:215-237 | The namespace's sentinel, minted once outside every cap; none for tenants |
| Registrars.Registrar.DrainPending | internal/aggregate/registrar.go:280-295 | Returns exactly the staged rows and leaves them staged |
| Registrars.Registrar.Committed | internal/aggregate/registrar.go:297-307 | Unstages exactly the given rows |
| Registrars.Registrar.Fence | internal/aggregate/registrar.go:465-481 | Adds to the fence and moves nothing else |
| Registrars.Registrar.Unfence | internal/aggregate/registrar.go:483-488 | Empties the fence and moves nothing else |
| Registrars.Registrar.Revalidate | internal/aggregate/registrar.go:490-507 | Keeps exactly the candidates that are neither staged, touched nor sentinels |
| Registrars.Registrar.Forget | internal/aggregate/registrar.go:509-542 | Maps and counts lose exactly the given IDs, and fence and touched set are empty |
| Identity.StepKeepsInv | internal/aggregate/gc.go:165-426 | Every event of registration, commit, marking, sweeping, failure and restart keeps the identity invariants |
| Identity.CollectionIsSafe | internal/aggregate/gc.go:165-426 | After every step of every run each referenced series exists, and so does every ID it names down to the parts of its dimension tuple, and every row's tenant |
| Identity.MapsMirrorTheStore | internal/aggregate/registrar.go:158-307 | In every reachable world the maps are inverse and hold exactly the durable and staged rows |
| Identity.SweepSparesWhatIsInUse | internal/aggregate/gc.go:340-426 | A sweep deletes no ID that is cached, handed out, staged, a sentinel or spelled out in a key on its way to a commit, and no referenced series |
| Collections.CollectedExactly | internal/aggregate/gc.go:165-426 | Over a snapshot, mark, barrier and sweep with any events beside them: a series row of the snapshot is gone if and only if nothing durable referenced it then, no shard held it at the mark, and it was neither staged nor touched by the barrier; a dictionary row if and only if neither it nor a row it is the tenant of is cached, staged, touched, a template, a sentinel or named by a series row that stays; no newer row goes |
| Identity.AnIDNamesOneValue | internal/aggregate/store_sqlite.go:2384-2418 | An ID durable at two moments of a run names the same value at both, whatever was swept or restarted in between |
| Identity.FailedSweepRestores | internal/aggregate/gc.go:399-408 | Whatever is ingested while a sweep that fails is under way, every durable row and map entry from before the barrier is still there, nothing stays fenced, and all that is new is what ingest asked for |
| Identity.SplitFenceExactly | internal/aggregate/gc.go:354-391 | Were revalidating and fencing apart, an ID in use would be fenced, and its row swept, if and only if ingest asked for a candidate in between |
| Identity.FenceAfterHandOut | internal/aggregate/registrar.go:490-507 | A candidate handed out before revalidating and fencing in one step is spared; one handed out between the two is fenced |
| Mining.RouteIsStable | internal/aggregate/template_miner.go:446-484 | A line once routed is routed to the same leaf after any later insertions |
| Mining.HitsCount | internal/aggregate/template_miner.go:622-635 | The positions a pattern fits are those of a wildcard or an equal token |
| Mining.FollowArrivesExactly | internal/aggregate/template_miner.go:637-642 | The bounded alias walk reaches a live template if and only if the chain is no longer than the bound |
| Mining.GeneralizedIsWider | internal/aggregate/template_miner.go:500-515 | Generalizing makes a pattern match the line, only adds wildcards, and changes nothing if and only if it matched |
| Miners.NewIsApart | internal/aggregate/template_miner.go:524-566 | A line minted as a new template differs from every live pattern |
| Miners.WiderApart | internal/aggregate/template_miner.go:505-522 | Generalizing and converging with a twin keeps live patterns distinct |
| Miners.ConvergedKeepsText | internal/aggregate/template_miner.go:659-730 | After convergence every issued ID still resolves in the index |
| Partitions.Partition.constructor | internal/aggregate/template_miner.go:393-415 | An empty partition |
| Partitions.Partition.Descend | internal/aggregate/template_miner.go:446-484 | The walk ends in the leaf the grown tree routes the line to, and the tree only grew legally |
| Partitions.Partition.BestMatch | internal/aggregate/template_miner.go:605-635 | Returns a template of the leaf with the most fitting positions, or none when no length agrees |
| Partitions.Partition.ResolveAlias | internal/aggregate/template_miner.go:637-642 | Follows at most eight edges, and arrives at a live template exactly for chains that short |
| Partitions.Partition.Mine | internal/aggregate/template_miner.go:486-575 | A line joins a template exactly when one of its leaf is similar enough, else starts one exactly when there is room and a usable ID, else overflows; it is counted once, the returned template matches it everywhere, IDs stay, patterns only widen with rising versions, aliases point to older templates, and live templates stay within the cap |
| Partitions.IssuedIDsResolve | internal/aggregate/template_miner.go:293-310 | Every ID ever issued resolves within one hop, and a live one to its current pattern |
| Partitions.LivePatternsDiffer | internal/aggregate/template_miner.go:644-703 | Live templates have distinct patterns as long as no line contains the wildcard literally |

## Left out

- Floating-point rounding, infinities and not-a-number values: amounts are reals, and the codec carries the bits of a sum.
- Integer widths of counts and IDs beyond the 32-bit bins, the 64-bit varints and totals, and the ID space of the registrar.
- SketchCodec.DecodeInto: the destination is left unspecified after an error, because the program leaves it half filled.
- Sketches.Sketch.Add: takes the difference of two bucket indexes as it is, where the program's 32-bit difference wraps when they lie 2^31 apart or when the last index is within 511 of the least one.
- Sketches.Sketch.Merge: the other sketch is a different object; merging a sketch into itself is not covered.
- Scales.MergeAssociatesExactly: with enough observations to fill a counter the condition is sufficient only, because full counters can hide what a grouping moved.
- Deltas.PartitionIsWholeExactly: covers runs whose sketches stay at the default scale.
- Durability.ExactlyOnce: covers orderly runs, because the finalizer's skipped windows and the handover race falsify it; QueryMissesExactly and RaceUndercounts say how.
- Identity.CollectionIsSafe: templates and aliases only add rows to keep, and an ID in the hands of the hot path across two collections is assumed cached.
- Collections.CollectedExactly: which IDs are templates or reached by their aliases is an input; Aliases.MarkAliasClosure computes the closure.
- Identity.FailedSweepRestores: speaks of the tables and maps of the identity model, not of the miner's.
- Partitions.Partition.Mine: returns a retired template's ID for alias chains longer than eight hops; Partition.ResolveAlias says exactly when.
- Admissions.RollbackRestores: leaves out the remembered names and the overflow counters, which the program does not restore.
- Counters.StoredConservation: a group may carry any part of what waits; how submissions queue, and a crash between drain and commit, are left out.
- Ledger.Conservation: stated for the tracker; a delta that was reduced but refused admission is outside it.
- Histograms.FoldHistogram: the square root and the bucket mapping are parameters, and the estimate a folded sketch keeps of its own sum is omitted.
- Regroups.VisitSketches: the sums of the folded sketches are left out, and rows are assumed to hold what decoding guarantees.
- Histograms.FoldExponential: the estimate a folded sketch keeps of its own sum is left out.
- Stores.Commit: baselines, staged identities and series rows of the transaction are modelled apart, in Ledger and Identity.
- Stores.Recover: restoring baselines, skipped series and topology is left out.
- Summaries.ConsumeToOk: one additive accumulator over one contiguous grouping stands for the trace, log and edge accumulators of a service; edge rows by name and the twelve five-minute cells of an hour are left out.
- Reads.MixedReadIsExact: covers sums over a range by group; reads grouped by window, whose hours come from five-minute cells or buckets, and selectors of single series are left out.
- Registrars.Registrar.Register: lengths are counted in characters, and invalid kinds are left out.
- Registrars.Registrar.DrainPending: the ascending order of the rows is left out.
- Registrars.Registrar.Forget: expects IDs that are neither staged nor sentinels, as its only caller passes after Revalidate.
- The four hash shards are one table, and locks, channels, goroutines, timers and shutdown are not modelled.
- SQL text, indexes and query plans; the gate that keeps float sums exact within an hour is an input of the summary model.
- The 64-bit guard on summed sketch counts while summary sketches are collected, and saturation counts carried between rows.
- Staging of miner rows for the store, restoring a miner, token masking and splitting, timestamps and samples of templates.
- The warm start of the registrar class from stored rows: it is covered on values by Registries.WarmKeeps.
- ObserveN, ObserveZero and ObserveBucket of the sketch, which would only add easy members.
- Topology projection, route normalization, enum parsing, key encoding, metrics, logging, configuration, backup, and everything under internal/api and internal/ai.
