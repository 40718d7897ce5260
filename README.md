# UV index aggregator: verified model of the reconciliation engine

This project models the core of the UV index aggregator's `/uv` endpoint in Dafny.
The endpoint asks several providers for an hourly UV forecast and aligns their
answers on one timeline. For each hour it reconciles the providers into a
consensus estimate, and it summarises the day. The properties the handler
promises are proved about the model: the clamp's range, the consensus bounds,
the outlier set, the earliest peak, the advice tiers, the maximal windows,
the time-zone fallbacks, the cache key and the insert-only cache.

Modules, in dependency order:

- `Wrappers` (wrappers.dfy): `Option`, and `Max`/`Min`/`Abs` on reals.
- `UvProviders` (base.dfy): the provider result shape and the value clamp `ClampUv`.
- `Stats` (stats.dfy): sorting, median, and median absolute deviation (MAD) of a list of reals.
- `Timeline` (timeline.dfy): one column per provider that returned samples, and a metadata entry for every provider. It also builds the outer-join timeline (every label once, ascending) and the row of cells at a label.
- `Consensus` (consensus.dfy): the per-hour consensus, for a row and its derived fields. It has:
  - `HourBucket`, a class whose fields are filled in place, as the handler does;
  - `Aggregate`, the hourly loop.
- `Summarizer` (summary.dfy): the summary, made of the peak and its earliest time, the advice tier, and the best/moderate/avoid windows. `CompressWindows` is the single-pass run-length state machine. It is proved equal to a functional definition by maximal runs, and the runs themselves are proved sound, maximal, separated and complete.
- `Request` (request.dfy): the request glue, made of:
  - time-zone resolution and its fallbacks;
  - the four-decimal cache key, with a read-back accuracy lemma and field recovery;
  - the nearest "now" bucket;
  - the handler `UvService.Uv` over an insert-only cache map.

External facts are parameters, bundled in `Request.Environment`:

- the time-zone finder, and whether the zone database knows a zone name;
- today's UTC date;
- the current local time, and the current hour's label per zone;
- a label's signed distance in minutes from the current hour, which is `None` when the subtraction fails;
- the providers, as an oracle returning a list of `ProviderResult`;
- the "label + 1 hour" function used for window ends.

UV values are exact reals. Labels are strings ordered by code points.

Two behaviours that a reader of the handler might expect otherwise are modelled as the code has them:

- A bucket's `providers` map has one entry per column, that is, per provider that returned samples (backend/app.py:158). It does not have one entry per invoked provider.
- Windows are computed over `pairs`, which has already dropped the hours without a consensus (backend/app.py:223). So a missing hour does not split a window (`Summarizer.MissingHourKeepsRun`).

## Model

| member | source | states |
|---|---|---|
| UvProviders.ClampUv | backend/uv_providers/base.py:26-30 | The result is None exactly when the input is None. Otherwise it lies in [0, 15]. An in-range value is unchanged, a negative one becomes 0, and one above 15 becomes 15. |
| UvProviders.ClampEmittable | backend/uv_providers/base.py:26-30 | Every clamped value is missing or in [0, 15]. A value is left unchanged by the clamp exactly when it is missing or in [0, 15]. |
| UvProviders.ClampIdempotent | backend/uv_providers/base.py:30 | Clamping twice is the same as clamping once. |
| UvProviders.ClampMonotone | backend/uv_providers/base.py:30 | x <= y implies clamp(x) <= clamp(y). |
| UvProviders.ClampExamples | backend/uv_providers/base.py:28-30 | None stays None, -3 gives 0, 20 gives 15, and 5.5 gives 5.5. |
| Stats.Sort | backend/app.py:163 | The result is ascending, as long as the input, and holds exactly the input's elements. |
| Stats.SortIsPermutation | backend/app.py:163 | Sorting keeps the multiset of values. |
| Stats.Median | backend/app.py:163 | The median of a non-empty list lies between two of its elements: some element is <= it and some is >= it. |
| Stats.MedianWithin | backend/app.py:163 | If every value lies in [lo, hi], so does the median. |
| Stats.MedianOfConstant | backend/app.py:163 | The median of equal values is that value. |
| Stats.MedianOfThree | backend/app.py:163 | The median of three values listed in ascending order a <= b <= c is the middle one, b. |
| Stats.MadNonNegative | backend/app.py:164 | The median absolute deviation is never negative. |
| Stats.MadOfConstant | backend/app.py:164 | The MAD of equal values is 0. |
| Timeline.LabelLessTransitive | backend/app.py:140 | The label order is transitive. |
| Timeline.LabelLessTotal | backend/app.py:140 | Any two distinct labels are ordered one way or the other. |
| Timeline.SortLabels | backend/app.py:140 | The result is strictly ascending and holds exactly the input's labels, each once. |
| Timeline.Cells | backend/app.py:139-140 | A column's keys are exactly the sample times. |
| Timeline.CellsValue | backend/app.py:139-140 | The value a column holds at a label is the uv of the last sample with that label; no later sample has that label. |
| Timeline.FrameOf | backend/app.py:139-141 | A column is named after its provider. Its index is strictly ascending and holds exactly its cells' keys. |
| Timeline.BuildFrames | backend/app.py:132-142 | There is one metadata entry (name, error) per provider result, in invocation order. The columns are those of the results with samples. |
| Timeline.ReportingExactly | backend/app.py:136-138 | A result gets a column exactly when its hourly list is non-empty. |
| Timeline.FramesFromReportingProviders | backend/app.py:136-142 | Every column comes from a provider with samples, and every such provider has a column. |
| Timeline.NoDataNoTimeline | backend/app.py:144-147 | When no provider returned samples, there are no columns and the timeline is empty. |
| Timeline.AllLabels | backend/app.py:145 | A label occurs exactly when some column has it. |
| Timeline.TimelineIsSortedUnion | backend/app.py:145 | The joined index is strictly ascending and holds exactly the labels of all columns. |
| Timeline.RowShape | backend/app.py:156-158 | A row has one cell per column, named after it. A cell is present exactly when its column has a value at the label, and where the column has the label the cell holds the column's value. |
| Timeline.StrictlySortedDistinct | backend/app.py:140 | A strictly ascending label list repeats no label. |
| Timeline.TimelineDistinct | backend/app.py:145-156 | No label occurs twice in the joined timeline, so there is one bucket per distinct label. |
| Consensus.ProvidersMap | backend/app.py:158 | The bucket's providers map has exactly the column names as keys. |
| Consensus.ProvidersMapAt | backend/app.py:158 | A column whose name no later column repeats (so any uniquely named column) maps to its own cell value at that hour, missing or not. |
| Consensus.FlagOutliers | backend/app.py:168-174 | The column-order scan returns exactly `Outliers`: none for a zero MAD, else the present cells strictly beyond 1.5 MAD. |
| Consensus.ReconcileRow | backend/app.py:157-179 | For a row with a present value, it computes the reconciled estimate: rounded median, clamped band, confidence and outliers. |
| Consensus.HourBucket.constructor | backend/app.py:36-43 | A new bucket has its time and providers map, no derived fields, and no outliers. |
| Consensus.HourBucket.Record | backend/app.py:175-179 | Recording sets the four derived fields and the outliers, and leaves time and providers unchanged. |
| Consensus.NewBucket | backend/app.py:157-180 | A fresh bucket for a label ends up with exactly the fields `BucketOf` gives its row: derived fields are set only when the row has a present value. |
| Consensus.FillBuckets | backend/app.py:156-180 | Each label gets one bucket, in order. Bucket j has the fields `BucketOf` gives the row at label j (`Consensus.BucketsAt`). |
| Consensus.BucketsAt | backend/app.py:156-180 | Entry j of the bucket list for a list of labels is the bucket of the row at label j. |
| Consensus.Aggregate | backend/app.py:150-180 | The labels returned are the joined timeline, and the buckets' fields equal `HourlyOf`, one bucket per label. |
| Consensus.PresentValues | backend/app.py:157 | A row has no present values exactly when every cell is missing, and each present value comes from some cell. |
| Consensus.AllOrNothing | backend/app.py:157-160 | A bucket has no consensus exactly when its row is all missing. Consensus, low, high and confidence are set together, and a bucket without a consensus has no outliers. |
| Consensus.Round2Monotone | backend/app.py:175-178 | Rounding to two decimals preserves order. |
| Consensus.ConfidenceRange | backend/app.py:167 | Confidence lies in [0, 1]. It is 1 exactly when the MAD is 0, and 0 exactly when the MAD is at least 3. |
| Consensus.EstimateBounds | backend/app.py:165-167 | For an in-range median and a non-negative MAD, the rounded fields satisfy 0 <= low <= consensus <= high <= 15 and 0 <= confidence <= 1. |
| Consensus.BucketBounds | backend/app.py:162-178 | A bucket whose values lie in [0, 15], with at least one present value, has all four fields set, with 0 <= low <= consensus <= high <= 15 and 0 <= confidence <= 1. |
| Consensus.RowsInRange | backend/app.py:136-158 | When every provider emits only clamped values, every cell of every joined row is missing or in [0, 15]. |
| Consensus.HourlyBounds | backend/app.py:156-179 | When every provider emits only clamped values, every response bucket with a consensus has 0 <= low <= consensus <= high <= 15 and 0 <= confidence <= 1. |
| Consensus.DeviatingPositions | backend/app.py:170-174 | The flagged names sit at strictly increasing positions, which are exactly the positions of the deviating cells, so they come in column order. |
| Consensus.OutliersExactly | backend/app.py:168-174 | With a MAD of 0 there are no outliers. Otherwise a name is an outlier exactly when its cell is present and strictly more than 1.5 MAD from the median. |
| Consensus.BucketOutliers | backend/app.py:168-179 | A bucket's outliers are those of its row for the median and MAD of its present values. |
| Consensus.OutliersReported | backend/app.py:170-174 | Every outlier is a column that reported a value at that hour. |
| Consensus.AgreementHasNoOutliers | backend/app.py:164-174 | When all present values are equal to c, there are no outliers, the confidence is 1 and the consensus is c rounded. |
| Consensus.SingleReporterNoOutliers | backend/app.py:169 | A single reporting provider is never an outlier. |
| Consensus.ThreeProviderExample | backend/app.py:156-179 | Values 4.0, 4.2 and 9.0 give consensus 4.2, band [4.0, 4.4] and confidence 0.93, and flag only the 9.0 provider. |
| Summarizer.Pairs | backend/app.py:223 | Every pair carries a consensus value. |
| Summarizer.PairsPositions | backend/app.py:223 | The pairs are the buckets with a consensus, taken at strictly increasing positions, with none left out. |
| Summarizer.PeakIndex | backend/app.py:225 | The chosen pair has the largest value, and every earlier pair is strictly smaller, so it is the first maximum. |
| Summarizer.PeakIsEarliestMaximum | backend/app.py:223-227 | The peak is the largest consensus of the day, and its time is the earliest hour whose consensus equals it. |
| Summarizer.NoConsensusEmptySummary | backend/app.py:220-224 | The summary keeps its defaults (no peak, no advice, no windows) exactly when no bucket has a consensus. |
| Summarizer.Summarise | backend/app.py:220-259 | The step-by-step fill-in of peak, advice and windows gives exactly `SummaryOf`, the summary whose properties the lemmas below state. |
| Summarizer.AdviceShape | backend/app.py:229-253 | With a peak, the advice is the tier line followed by the reapply reminder, and the windows are keyed best, moderate and avoid. |
| Summarizer.HeadlineTiers | backend/app.py:231-250 | Each tier is chosen exactly for its range. Peaks in (2, 3), (5, 6) or (7, 8), or above 10, get the Extreme line. |
| Summarizer.ExamplePeak | backend/app.py:225-243 | Of the two hours at 9 on the example day, the first is the peak, and the advice is Very High. |
| Summarizer.RunEnd | backend/app.py:198-204 | A run extends over qualifying points and stops at the end or at the first non-qualifying point. |
| Summarizer.Runs | backend/app.py:195-217 | Runs are non-empty, lie within the points, and start no earlier than the scan position. |
| Summarizer.RunsQualify | backend/app.py:199-204 | Every point inside a run qualifies. |
| Summarizer.RunsUnextendable | backend/app.py:205-216 | No run can be extended by a qualifying neighbour on either side. |
| Summarizer.RunsSeparated | backend/app.py:205-211 | Runs are in increasing order, with a gap between consecutive runs. |
| Summarizer.RunsComplete | backend/app.py:199-204 | Every qualifying point lies inside some run. |
| Summarizer.RunsPartition | backend/app.py:195-217 | A point lies in a run exactly when it qualifies. |
| Summarizer.CompressStep | backend/app.py:199-211 | Feeding one point keeps the compression state consistent with the run decomposition. |
| Summarizer.CompressFinish | backend/app.py:212-216 | Closing the open run, if any, yields exactly the windows of the maximal runs. |
| Summarizer.CompressWindows | backend/app.py:191-217 | The one-pass state machine returns exactly the windows of the maximal runs of qualifying points, in input order. |
| Summarizer.WindowsCoverQualifying | backend/app.py:256-258 | A point lies in a window's run exactly when its value satisfies that window's predicate. |
| Summarizer.NoWindowsIffNothingQualifies | backend/app.py:195-217 | There are no windows exactly when no point qualifies. |
| Summarizer.CategoriesDisjoint | backend/app.py:256-258 | No hour is in both "best" and "moderate", and "avoid" meets neither. An hour with a value in [6, 8) is in no window. |
| Summarizer.MissingHourKeepsRun | backend/app.py:223-256 | A best hour, an hour without a consensus, then a best hour give one window from the first to past the last. |
| Summarizer.ExampleBest | backend/app.py:256 | For UV 2,2,4,7,9,9,4,2 from 08:00, "best" covers 08:00-09:00 and 15:00. |
| Summarizer.ExampleModerate | backend/app.py:257 | On the same day, "moderate" covers 10:00 and 14:00. |
| Summarizer.ExampleAvoid | backend/app.py:258 | On the same day, "avoid" covers 12:00-13:00, and the 11:00 hour at UV 7 is in no window. |
| Request.AutoExamples | backend/app.py:105 | "auto", "AUTO", "Auto" and "aUtO" match, and "UTC", "" and "autos" do not match. |
| Request.AutoAnyCase | backend/app.py:105 | A zone matches exactly when it has four characters that spell "auto" once ASCII letters are lower-cased, so in any letter case and nothing else. |
| Request.DetectTz | backend/app.py:75-77 | The result is the finder's answer when it has one, else "UTC". It is never empty. |
| Request.ResolveTz | backend/app.py:105-106 | A missing, empty or "auto" zone is replaced by the detected one. Any other zone is kept. |
| Request.EffectiveZone | backend/app.py:117-121 | A zone unknown to the zone database becomes "UTC", and a known zone is kept. So whenever "UTC" itself is known, the handler always ends up with a zone it can build. |
| Request.NatToStringValue | backend/app.py:72 | The decimal numeral of n reads back as n. |
| Request.Fixed4 | backend/app.py:72 | The four-decimal rendering contains no comma. |
| Request.Fixed4Accurate | backend/app.py:72 | The rendering reads back as a number within 0.00005 of the input, with the input's sign. |
| Request.Fixed4Collision | backend/app.py:72 | Two coordinates that render alike are at most 0.0001 apart. |
| Request.CacheKeyFields | backend/app.py:71-72 | Equal keys imply that the coordinates render alike and the date and zone are equal, provided the dates contain no comma. |
| Request.CacheKeyExample | backend/app.py:71-72 | (12.345678, 98.765432, "2024-02-03", "UTC") gives "12.3457,98.7654,2024-02-03,UTC". |
| Request.NearestIndex | backend/app.py:271-279 | The chosen label has the least distance, and every earlier label is strictly farther, so it is the first minimum. |
| Request.NowBucket | backend/app.py:262-279 | Without a timeline there is no bucket. The current hour is chosen when it is a label. Otherwise the choice is some label. |
| Request.NowBucketNearest | backend/app.py:269-279 | When the current hour is not a label, the choice is the earliest label nearest to it. |
| Request.NowBucketWhenDistanceFails | backend/app.py:271-279 | When the current hour is not a label and every distance fails (each counts as 10**9), the first label is chosen. |
| Request.Respond | backend/app.py:122-291 | Computing a response follows the pipeline: providers, columns, buckets, summary, then the now bucket. It equals `ResponseAt`, whose parts the lemmas above describe. |
| Request.AllProvidersFailed | backend/app.py:132-263 | When no provider returns samples, there are no buckets, the summary is default and there is no now bucket. There is still one metadata entry per provider. |
| Request.UvService.constructor | backend/app.py:68 | The cache starts empty. |
| Request.UvService.Uv | backend/app.py:96-294 | Out-of-range coordinates are rejected. A cache hit returns the stored payload and changes nothing. A miss stores the computed payload under the request's key and touches no other key. Stored entries never change between requests handled one after another. |

## Left out

- The provider adapters (HTTP clients, key gating, endpoint fallbacks) are not modelled. They appear as the `fetch` oracle of `Request.Environment`, which returns one `ProviderResult` per provider, in invocation order.
- The concurrent fan-out over the providers is left out, because concurrency is outside the model. The results arrive as a list in provider order.
- Request.UvService.Uv: each request is modelled as one atomic step. The handler is `async`: it looks up the key (backend/app.py:110), awaits the providers (backend/app.py:129), and only then writes (backend/app.py:293). So two overlapping requests with the same key can both miss, and the later write replaces the entry the earlier one stored. The two payloads can differ, for example in `now_local_iso` when the requests fall in different seconds, or in the providers' answers. "Stored entries never change" therefore holds only for requests that do not overlap; interleaving between requests is not modelled.
- pandas mechanics are not modelled:
  - numeric coercion;
  - NaN handling, since a missing value is `None`;
  - how `concat` orders the union index, which the model takes as the sorted, de-duplicated union.
- Duplicate time labels within one provider are not an error in the model: the last sample with a label wins (`Timeline.CellsValue`). In the code, pandas keeps the duplicate rows when that provider is the only column, or when all columns share the same index. Otherwise `pd.concat(frames, axis=1)` (backend/app.py:145) has to reindex a non-unique index and raises, so the whole request fails. The model does not capture that failure.
- Python's `round(x, 2)` and the `:.4f` formatting work on binary floats, with ties to even on the exact binary value. The model rounds exact reals half up (`Consensus.Round2`, `Request.Fixed4`). The bounds and monotonicity of rounding are proved; results on exact ties can differ.
- Stats.Median: its contract states only that the median lies between two elements. The exact value is given by its definition and by `Stats.MedianOfThree`.
- Timestamp parsing (`parse_local`), ISO formatting and the "+1 hour" arithmetic are not modelled. They appear as the `succHour` and `minutesFromNow` parameters. A failed subtraction is `None` and counts as 10**9.
- Summarizer.CompressWindows: `succHour` is total, so the model always produces a window end. In the code, `parse_local` (backend/app.py:183-189) raises when both `fromisoformat` attempts fail. `compress_windows` does not catch that at backend/app.py:207 or 213, so the whole request fails. The model has no such failure path.
- TimezoneFinder, ZoneInfo and the clock are parameters of `Request.Environment`. It is assumed that "UTC" is always a valid zone.
- The "auto" test folds ASCII letters only; Python's `str.lower` is Unicode-aware.
- Request validation is modelled only as the `Rejected` reply for out-of-range coordinates. The FastAPI routes, CORS, the pydantic models, `model_dump`, `/health` and `/providers` are web plumbing outside the model.
- The cache has no expiry, as in the code. Never-expiring entries have two consequences:
  - a request without a date is keyed with an empty date, so on a later day it is served the day it was first computed;
  - every cache hit replays the `now_local_iso` and `now_bucket_time` computed when the entry was stored (backend/app.py:110-111, 262-279 and 286-287), even for a request that gives a date, on the same day. `Request.UvService.Uv` states this: a hit returns the stored payload unchanged.
