# Energrid cores, modelled and proved in Dafny

This project models the deterministic cores of the Energrid repository and proves what they are for.
Every model follows its source branch by branch; the arithmetic is exact (`int` milliseconds, samples
and bytes, `real` measurements). Code that works in place or in loops is a method (and, where it keeps
state, a class) proved against a specification function or predicate; the laws are lemmas about those.

| File | What it holds |
|---|---|
| `PowerIntegral.dfy`, `PowerHistory.dfy`, `PowerHistoryLaws.dfy` | the power history: intake, hour and day buckets, the minute-piece walk, conservation, closed form, additivity |
| `PowerHistoryFigures.dfy` | every figure, interval and count of a report told from the readings, the query and the local clock alone |
| `PowerConflicts.dfy` | which readings give the same count of conflicts in every order |
| `ElectricalHour.dfy` | the hourly summary of a stream of readings, and its agreement with the power history |
| `RecordMerge.dfy`, `DeviceHealthHistory.dfy`, `DeviceHealthLaws.dfy` | device health buckets, the daily rebuild, the roll-up law |
| `DeviceHealthReadings.dfy` | what a bucket says of the observations folded into it, in whatever order they arrive |
| `AudioIngest.dfy` | the clip store with its quota and the resumable upload |
| `EvidencePrinter.dfy` | the broker evidence printer: bounded buffers, quoting, canonical text, signed envelope |
| `RiverRegression.dfy`, `RiverThreshold.dfy` | Gauss-Jordan elimination, two least-squares fits, and which systems the elimination accepts |
| `Pcm16Resampler.dfy` | the streaming resampler |
| `PanelFeed.dfy` | feed propagation over an electrical panel and its diagnostics |
| `FinanceDecimals.dfy`, `CategoryOrder.dfy` | exact decimal strings, the export summary, the parent-first ordering |
| `ObservationEngine.dfy` | the per-field observation register |
| `SseFrames.dfy` | the event-stream splitter |
| `CounterSeries.dfy`, `BucketCounters.dfy` | counter series, split and joined, and what the buckets' counters say of the raw readings |
| `Wrappers.dfy`, `Bytes.dfy`, `StableSort.dfy` | optional values and results, octets, the host language's stable sort |

`dafny verify dfyconfig.toml` checks everything.

Results that a reader of the source might not expect:

- The integrated intervals do not depend on the order of the readings (`PowerHistoryLaws.OrderIrrelevant`),
  the conflict count does (`PowerHistoryLaws.ConflictsDependOnOrder`). It does not exactly when the readings
  of every time are all equal, or two, or all unusable with every series equally often, or one usable reading
  among unusable ones of its series, or all distinct with no unusable one of a usable one's series
  (`PowerConflicts.OrderFreeExactlyWhen`).
- Rolling hourly buckets up into a day agrees with folding the day directly except for the missing count
  of a gauge, which differs exactly when more samples are expected up to the day's last observation than up
  to the gauge's last reading and than the gauge was read (`DeviceHealthLaws.MissingCounts`,
  `DeviceHealthLaws.CountsDiffer`).
- Device health buckets do not look at gaps between the readings inside them. A counter joined from buckets
  always has the readings' first and last values and resets, but its ordering flag agrees with theirs exactly
  when no gap lies inside a bucket or one lies across a bucket boundary; its delta agrees exactly then or
  after a reset (`BucketCounters.BucketsAgainstReadings`, `BucketCounters.HiddenGap`).
- Joining counter summaries in reverse time order tests for a reset the wrong way round: it reports one when
  the values rose. The two orders agree exactly when a reset was known or the values meet
  (`DeviceHealthReadings.CountersEitherWay`); buckets that are merged in time order never take that branch.
- An upload whose last chunk is appended but whose payload the store then refuses keeps the whole payload in
  its part file for good: `AudioIngest.StuckWhenRefused` gives the exact condition on the request and the
  store, `AudioIngest.FullPartStays` says that no later request helps, `AudioIngest.StuckRun` is a run from
  an empty store that ends there. `AudioIngest.DeliveryCompletes` is the other side.
- The solver's threshold refuses some regular systems (`RiverRegression.RegularButRefused`). It returns exactly
  when the greatest entry of the first column, the greatest of the minors of its row and the determinant
  (in magnitude) are large enough, each measured against the one before (`RiverThreshold.ReturnsExactlyWhen`).
- When downsampling, the resampler makes one sample more than the rounded length exactly for one range of
  remainders (`Pcm16Resampler.DownsamplingLength`).
- With repeated circuit ids, the last circuit decides for all of them (`PanelFeed.UnfedCircuits`).

## Model

| member | source | states |
|---|---|---|
| PowerHistory.AnalyzePowerHistory | libs/domain-telemetry/src/lib/power-history.ts:141-323 | refuses exactly a range that is empty or longer than 31 days, then a gap that is not positive or a negative threshold, then a schedule without length; otherwise the summary, the contiguous labelled hours and the days, in the order in which they begin, are the minute-cell sums of the bracketed intervals, and the three counts are those of the intake |
| PowerHistory.TakeIn | libs/domain-telemetry/src/lib/power-history.ts:192-223 | the intake loop computes the fold that keeps the first reading of a time and voids conflicting ones |
| PowerHistory.SamplesSorted | libs/domain-telemetry/src/lib/power-history.ts:224-224 | the samples are strictly sorted by time and hold exactly the times read |
| PowerHistory.BracketedChained | libs/domain-telemetry/src/lib/power-history.ts:264-276 | bracketed intervals are in time order and do not overlap |
| PowerHistory.BuildBuckets | libs/domain-telemetry/src/lib/power-history.ts:231-263 | the minute loop lays out contiguous hours, places every minute in its hour and its day, and spreads the expected seconds without loss |
| PowerHistory.WalkInterval | libs/domain-telemetry/src/lib/power-history.ts:267-301 | the piece walk always finds its bucket, ends, and adds exactly the interval's contribution to each hour, each day and the total |
| PowerHistory.Accumulate | libs/domain-telemetry/src/lib/power-history.ts:231-302 | after all intervals the buckets hold exactly the cells of the bracketed intervals |
| PowerHistory.ReportIsRight | libs/domain-telemetry/src/lib/power-history.ts:303-322 | the returned object reports those buckets |
| PowerIntegral.Conservation | libs/domain-telemetry/src/lib/power-history.ts:292-299 | splitting the minutes into classes (hours or days) loses and double-counts nothing, in any field |
| PowerIntegral.TotalIsDirect | libs/domain-telemetry/src/lib/power-history.ts:264-302 | the sum over minutes is the closed form: power times clipped length over the intervals |
| PowerIntegral.SumIsDirect | libs/domain-telemetry/src/lib/power-history.ts:275-301 | the same closed form for every contiguous range of minutes |
| PowerIntegral.RangeAdditivity | libs/domain-telemetry/src/lib/power-history.ts:240-302 | cutting a range anywhere, inside a minute or an interval, splits expected, covered, watt, active and outside seconds additively |
| PowerIntegral.CoverageBound | libs/domain-telemetry/src/lib/power-history.ts:264-302 | no selection of minutes is covered for longer than expected |
| PowerHistoryLaws.HoursAddUp | libs/domain-telemetry/src/lib/power-history.ts:292-299 | the hours add up to the total, in every field |
| PowerHistoryLaws.DaysAddUp | libs/domain-telemetry/src/lib/power-history.ts:292-299 | the days add up to the total, in every field |
| PowerHistoryLaws.ReportConserves | libs/domain-telemetry/src/lib/power-history.ts:303-318 | expected and covered seconds, energy, active minutes and energy outside the schedule agree over hours, days and summary; the summary gives no outside energy when some queried date has no known schedule |
| PowerHistoryLaws.NeverOvercovered | libs/domain-telemetry/src/lib/power-history.ts:93-107 | no reported hour, day or summary exceeds its expected seconds or 100 percent |
| PowerHistoryLaws.HourIsDirect | libs/domain-telemetry/src/lib/power-history.ts:264-302 | each hour holds the closed form of its own range |
| PowerHistoryLaws.QueryAdditivity | libs/domain-telemetry/src/lib/power-history.ts:141-323 | the reports of [from, mid) and [mid, to) add up to that of [from, to): expected and covered seconds, energy, active minutes, and outside energy when every date's schedule is known; peaks combine |
| PowerHistoryFigures.InsideScheduleAroundClock | libs/domain-telemetry/src/lib/power-history.ts:286-291 | a minute is inside the schedule exactly when, going round the clock from its start, it comes before its end |
| PowerHistoryFigures.ReportTells | libs/domain-telemetry/src/lib/power-history.ts:93-107 | every figure of every hour, day and summary by its minutes: covered and expected time, energy, average and peak power, active time, coverage, and the energy of the minutes with a known schedule that lie outside it around the clock; unknown exactly without coverage or without a known schedule |
| PowerHistoryFigures.HoursAreLocalHours | libs/domain-telemetry/src/lib/power-history.ts:231-253 | neighbouring minutes share a reported hour exactly when they share the local date and the local hour with its offset |
| PowerHistoryFigures.IntervalsExactly | libs/domain-telemetry/src/lib/power-history.ts:192-276 | the integrated intervals are exactly the neighbouring reading times at which all readings agree on a nonnegative power and one series, at most the gap apart, holding the earlier power |
| PowerHistoryFigures.CountsTell | libs/domain-telemetry/src/lib/power-history.ts:197-219 | invalid readings are those without time or usable power, duplicates the parsable readings beyond the first of each time |
| PowerHistoryLaws.IntakeIsFaithful | libs/domain-telemetry/src/lib/power-history.ts:197-223 | a power is kept exactly for the times whose readings all agree |
| PowerHistoryLaws.OrderIrrelevant | libs/domain-telemetry/src/lib/power-history.ts:192-224 | the integrated intervals depend only on the set of readings |
| PowerHistoryLaws.DuplicatesCounted | libs/domain-telemetry/src/lib/power-history.ts:210-219 | every parsable reading is the first of its time or counted as a duplicate, and conflicts are among the duplicates |
| PowerHistoryLaws.ConflictsDependOnOrder | libs/domain-telemetry/src/lib/power-history.ts:212-218 | the count of conflicts differs between two orders of the same readings |
| PowerConflicts.OrderFreeExactlyWhen | libs/domain-telemetry/src/lib/power-history.ts:210-219 | every order of the readings gives the same count of conflicts if and only if the readings of every single time are settled: all equal, or two, or all unusable and every series equally often, or one usable among unusable ones of its series, or all distinct without an unusable one of a usable one's series |
| PowerConflicts.ConflictsByTime | libs/domain-telemetry/src/lib/power-history.ts:197-219 | the count is the sum over the times: the conflicts of one time's readings plus those of all others |
| PowerConflicts.SettledSame | libs/domain-telemetry/src/lib/power-history.ts:212-218 | settled readings of one time count the same in every order |
| PowerConflicts.UnsettledGroup | libs/domain-telemetry/src/lib/power-history.ts:212-218 | readings of one time that are not settled have two orders with different counts |
| ElectricalHour.SummarizeElectricalHour | libs/domain-telemetry/src/lib/electrical-reading.ts:113-184 | refuses exactly a non-hour and mixed streams; otherwise resets, coverage, import and export are those of the sorted stream's stretches |
| ElectricalHour.HourTells | libs/domain-telemetry/src/lib/electrical-reading.ts:154-183 | the figures pair by pair of the sorted readings: covered seconds, energy drawn and fed back, unknown exactly without coverage, and the number of drops of a counter inside the hour |
| ElectricalHour.SignedHour | libs/domain-telemetry/src/lib/electrical-reading.ts:154-183 | coverage is at most 3600 seconds and import minus export is the signed integral |
| ElectricalHour.SameIntervals | libs/domain-telemetry/src/lib/electrical-reading.ts:156-172 | both modules integrate the same intervals of comparable readings |
| ElectricalHour.HourAgreesWithHistory | libs/domain-telemetry/src/lib/electrical-reading.ts:154-183 | the hour and the power history over it with a gap of 300 seconds report the same coverage and energy |
| DeviceHealthHistory.ApplyDeviceHealthObservation | libs/domain-devices/src/lib/device-health-history.ts:103-200 | the metric loop computes the next bucket, or throws, exactly as the fold of the metrics says |
| DeviceHealthHistory.SummarizeDailyFromHourly | libs/domain-devices/src/lib/device-health-history.ts:203-295 | the nested merge loops compute the day of the filtered, sorted hourly buckets, or throw |
| DeviceHealthHistory.MergeSeriesEntries | libs/domain-devices/src/lib/device-health-history.ts:246-269 | the merge of one counter's sessions is the fold of the session joins, and throws where it does |
| DeviceHealthLaws.SeriesCommute | libs/domain-devices/src/lib/device-health-history.ts:150-177 | taking a later counter reading before or after merging earlier sessions gives the same sessions |
| DeviceHealthLaws.ObservationCommutes | libs/domain-devices/src/lib/device-health-history.ts:103-200 | folding a later observation and merging earlier buckets commute, errors included |
| DeviceHealthLaws.HourlyFoldIsState | libs/domain-devices/src/lib/device-health-history.ts:103-200 | the hourly buckets of a day merge to the state of folding all its metrics |
| DeviceHealthLaws.DailyFoldIsState | libs/domain-devices/src/lib/device-health-history.ts:103-200 | the daily fold holds that same state with the day's counts |
| DeviceHealthLaws.RollUp | libs/domain-devices/src/lib/device-health-history.ts:103-295 | for one device and UTC day in increasing time order, whatever units and sources, rolling up hourly buckets throws exactly when the direct daily fold throws and otherwise gives the same bucket except for the gauges' missing counts |
| DeviceHealthLaws.StateReads | libs/domain-devices/src/lib/device-health-history.ts:124-149 | a folded gauge holds the number of its readings and the time of the last one |
| DeviceHealthLaws.MissingCounts | libs/domain-devices/src/lib/device-health-history.ts:140-273 | both missing counts in terms of the observations, and they agree if and only if no sample more is expected up to the day's last observation than up to the gauge's last reading, or the gauge was read as often as the day expects |
| DeviceHealthLaws.CountsDiffer | libs/domain-devices/src/lib/device-health-history.ts:140-273 | a gauge read in the first of two observations: none missing one way, one the other way |
| DeviceHealthReadings.BucketMetrics | libs/domain-devices/src/lib/device-health-history.ts:124-177 | in whatever order observations arrive, a gauge holds the number, sum, least, greatest, earliest and latest of its readings, and a counter for each boot session its earliest and latest reading, whether they arrived in order, its resets and its delta |
| DeviceHealthReadings.BucketCounts | libs/domain-devices/src/lib/device-health-history.ts:109-122 | start, end, first and last time, sample, expected and missing counts, coverage ratio and partiality of a bucket in terms of its observations |
| DeviceHealthReadings.RefusedExactly | libs/domain-devices/src/lib/device-health-history.ts:128-155 | folding throws exactly when a gauge, or a counter within one boot session, is read with two units or sources |
| DeviceHealthReadings.RebuiltDay | libs/domain-devices/src/lib/device-health-history.ts:203-295 | the day rebuilt from hourly buckets tells all of that of the day's observations |
| DeviceHealthReadings.RebuildingRefused | libs/domain-devices/src/lib/device-health-history.ts:203-295 | the hours or the rebuilding throw exactly when a metric of the day mixes units or sources |
| DeviceHealthReadings.OtherDaysIgnored | libs/domain-devices/src/lib/device-health-history.ts:210-216 | hourly buckets of other days and the order of the list play no part |
| DeviceHealthReadings.JoinedGaugeTells | libs/domain-devices/src/lib/device-health-history.ts:230-241 | joining two gauge summaries tells the readings of both, however their times lie |
| DeviceHealthReadings.CountersEitherWay | libs/domain-devices/src/lib/device-health-history.ts:254-267 | a counter summary joined to one that begins and ends earlier, field by field; in reverse order only the reset and the delta can differ, and do exactly when no reset was known and the values do not meet |
| DeviceHealthReadings.CountersNested | libs/domain-devices/src/lib/device-health-history.ts:254-267 | joining summaries of which one lies within the other, both ways |
| AudioIngest.Store.Receive | apps/audio-ingest/server.py:94-157 | the new state and the outcome are those of the specified step |
| AudioIngest.Store.SetLabel | apps/audio-ingest/server.py:159-189 | relabels the first row of the clip and nothing else |
| AudioIngest.Store.Delete | apps/audio-ingest/server.py:191-205 | removes the clip's file and its rows, or changes nothing |
| AudioIngest.Store.Put | apps/audio-ingest/server.py:375-428 | the new state and the answer are those of the specified chunk step |
| AudioIngest.ReceiveAnswers | apps/audio-ingest/server.py:94-157 | each outcome of receiving a clip, exactly: refused, known by its id or its audio, without room, or stored as one new unlabelled row and file |
| AudioIngest.PutAnswers | apps/audio-ingest/server.py:382-419 | the answer to a chunk and the new state, by its form and its place against the part |
| AudioIngest.LastChunkAnswers | apps/audio-ingest/server.py:420-428 | the answer to the chunk that completes a payload: refused, without room on the disk, known or stored |
| AudioIngest.DeleteTells | apps/audio-ingest/server.py:191-205 | the answer says whether the clip was stored; afterwards no row and no file of its id is left, and everything else is as before |
| AudioIngest.LabelTells | apps/audio-ingest/server.py:159-189 | the clip's row carries the label and nothing else changes |
| AudioIngest.ReceiveKeepsValid | apps/audio-ingest/server.py:125-157 | receiving keeps distinct ids and hashes, one file per row and the quota, and touches no stored clip |
| AudioIngest.PutKeepsValid | apps/audio-ingest/server.py:400-424 | a chunk, whatever it is, keeps every invariant and alters no stored clip |
| AudioIngest.EveryRunIsValid | apps/audio-ingest/server.py:94-424 | every state that any run of posts, chunks, labels and deletions reaches keeps the index invariants and the quota |
| AudioIngest.PutReportsTruth | apps/audio-ingest/server.py:401-419 | a reported offset is the length of the part; a conflict, a malformed, an old and a chunk without room change nothing, and no chunk touches another part |
| AudioIngest.PartIsAlwaysPrefix | apps/audio-ingest/server.py:382-425 | for any order, repetition or loss of chunks of one payload, mixed with other requests, the part is a prefix of the payload |
| AudioIngest.CompletionStoresPayload | apps/audio-ingest/server.py:412-425 | a completed upload stores exactly the payload, or finds its id or hash already stored |
| AudioIngest.ReceiveTwice | apps/audio-ingest/server.py:126-135 | receiving the same clip again changes nothing and says so |
| AudioIngest.PutAdvances | apps/audio-ingest/server.py:408-422 | the chunk at the reported offset is taken when there is room |
| AudioIngest.StuckWhenRefused | apps/audio-ingest/server.py:412-424 | a chunk that completes the payload is accepted exactly when the payload is admitted and intact and its id is stored with the same audio, or its audio is stored, or the disk has room for a second copy; otherwise the whole payload stays in the part file |
| AudioIngest.FullPartIsStuck | apps/audio-ingest/server.py:402-407 | a chunk of a payload that is already whole in its part file is answered with the full length and changes nothing |
| AudioIngest.FullPartStays | apps/audio-ingest/server.py:382-425 | over any further requests a whole part stays, and none of its chunks is ever accepted |
| AudioIngest.StuckRun | apps/audio-ingest/server.py:408-424 | one chunk to an empty store on a small disk leaves such a part |
| AudioIngest.DeliveryCompletes | apps/audio-ingest/server.py:400-425 | delivering the rest of a payload in order, with room and a payload that can be received, removes the part and stores the payload, or finds its id or audio stored |
| AudioIngest.StoredClipStays | apps/audio-ingest/server.py:94-424 | whatever is requested, short of its own deletion, a stored clip keeps its bytes and its row, the label aside |
| EvidencePrinter.Printer.AppendText | deploy/mosquitto/energrid-broker-evidence.c:126-134 | appends and terminates exactly when the text and its terminator fit, otherwise changes nothing; nothing beyond the capacity is written |
| EvidencePrinter.Printer.AppendQuoted | deploy/mosquitto/energrid-broker-evidence.c:136-165 | appends the quoted text exactly when it fits, stays terminated and inside the capacity |
| EvidencePrinter.CanonicalEvent | deploy/mosquitto/energrid-broker-evidence.c:167-187 | the buffer holds the whole canonical text, or the call fails exactly when that does not fit |
| EvidencePrinter.PrintSignature | deploy/mosquitto/energrid-broker-evidence.c:196-197 | the 65-byte buffer holds the lower-case hexadecimal digest and its terminator |
| EvidencePrinter.JsonWithSignature | deploy/mosquitto/energrid-broker-evidence.c:189-205 | the envelope is never truncated; failure exactly on a bad digest, too little room or a wrong last character |
| EvidencePrinter.CheckConfigValue | deploy/mosquitto/energrid-broker-evidence.c:69-76 | accepts exactly present, non-empty, short enough, printable values |
| EvidencePrinter.EmitEvent | deploy/mosquitto/energrid-broker-evidence.c:221-265 | publishes exactly the events that pass the checks and whose keyed hash succeeds, and publishes their envelope |
| EvidencePrinter.RateLimit.TakeSlot | deploy/mosquitto/energrid-broker-evidence.c:52-67 | the limiter's new state and answer are those of the specified step |
| EvidencePrinter.GrantedExactly | deploy/mosquitto/energrid-broker-evidence.c:52-67 | with a clock that does not go back, a request is admitted exactly when fewer than a hundred were looked at before it in the same second |
| EvidencePrinter.EscapesAre | deploy/mosquitto/energrid-broker-evidence.c:136-165 | which characters are printed behind a backslash, by letter or by four hexadecimal digits, and which as they are |
| EvidencePrinter.AdmissibleFits | deploy/mosquitto/energrid-broker-evidence.c:34-39 | every event that passes the checks fits both event buffers, so none is dropped for want of room |
| EvidencePrinter.QuotedReadsBack | deploy/mosquitto/energrid-broker-evidence.c:136-165 | un-escaping a quoted string as in section 7 of RFC 8259 gives back the string |
| EvidencePrinter.EventReadsBack | deploy/mosquitto/energrid-broker-evidence.c:167-187 | the reader gets all eight fields back from the canonical text, absent topic and hash included |
| EvidencePrinter.CanonicalInjective | deploy/mosquitto/energrid-broker-evidence.c:167-187 | events with the same canonical text are the same event |
| EvidencePrinter.EnvelopeInjective | deploy/mosquitto/energrid-broker-evidence.c:189-205 | the envelope determines the event and its digest |
| EvidencePrinter.CanonicalShape | deploy/mosquitto/energrid-broker-evidence.c:167-199 | the canonical text ends in a brace and holds no NUL, whatever the fields hold |
| RiverRegression.Solve3x3 | apps/core/scripts/backtest-river-propagation.ts:257-347 | the in-place elimination computes the specified solution and throws exactly where it does |
| RiverRegression.StepKeepsSolutions | apps/core/scripts/backtest-river-propagation.ts:268-342 | pivoting, normalising and eliminating keep the set of solutions |
| RiverRegression.SolutionIsUnique | apps/core/scripts/backtest-river-propagation.ts:257-347 | what is returned solves the system and nothing else does |
| RiverRegression.SingularIsRefused | apps/core/scripts/backtest-river-propagation.ts:292-300 | a system with several solutions or none is always refused |
| RiverRegression.RegularButRefused | apps/core/scripts/backtest-river-propagation.ts:292-300 | a regular system that the threshold refuses |
| RiverThreshold.ReturnsExactlyWhen | apps/core/scripts/backtest-river-propagation.ts:257-347 | with M1 the greatest magnitude in column 0, in row p, and M2 the greatest minor of row p with another row over the first two columns, the solver returns if and only if M1 reaches the threshold, M2 the threshold times M1, and the determinant the threshold times M2 |
| RiverThreshold.PivotIsFirstGreatest | apps/core/scripts/backtest-river-propagation.ts:268-290 | row p is the pivot row of column 0 |
| RiverThreshold.FitExactlyWhen | apps/core/scripts/backtest-river-propagation.ts:398-474 | the regression is fitted if and only if the normal equations of its days meet that condition |
| RiverRegression.FitRegression | apps/core/scripts/backtest-river-propagation.ts:398-481 | the nine running sums give the normal equations, and the result is their solution |
| RiverRegression.FitLocalOnlyRegression | apps/core/scripts/backtest-river-propagation.ts:349-396 | the result is the line through the means with slope covariance over variance, or zero slope without variance |
| RiverRegression.NoVarianceNoSlope | apps/core/scripts/backtest-river-propagation.ts:386-395 | without variance in the local changes the fit is the mean |
| RiverRegression.FitIsOptimal | apps/core/scripts/backtest-river-propagation.ts:398-481 | the fit has the least squared error of all coefficient triples and is the only one to reach it |
| RiverRegression.LocalFitIsOptimal | apps/core/scripts/backtest-river-propagation.ts:349-396 | the local fit is optimal among local-only models, also without variance |
| RiverRegression.UpstreamTermHelps | apps/core/scripts/backtest-river-propagation.ts:349-481 | the full fit's training error is never above the local fit's |
| RiverRegression.CollinearIsRefused | apps/core/scripts/backtest-river-propagation.ts:398-474 | data on which some combination of the terms is always zero is refused |
| Pcm16Resampler.Resampler.Push | packages/stt-stream-core/src/pcm16-resampler.ts:19-50 | errors exactly when finished or of odd length; otherwise the answer is the newly settled part of the output |
| Pcm16Resampler.Resampler.TakeReady | packages/stt-stream-core/src/pcm16-resampler.ts:31-46 | the loop takes every position in reach and never loses its interpolation context |
| Pcm16Resampler.Resampler.Finish | packages/stt-stream-core/src/pcm16-resampler.ts:52-78 | completes the output, never needs an unavailable sample, and returns nothing the second time |
| Pcm16Resampler.Create | packages/stt-stream-core/src/pcm16-resampler.ts:7-17 | accepts exactly positive rates |
| Pcm16Resampler.Stream | packages/stt-stream-core/src/pcm16-resampler.ts:19-71 | for every chunking, the concatenated answers are the one-shot resampling of the whole input |
| Pcm16Resampler.OutputInterpolates | packages/stt-stream-core/src/pcm16-resampler.ts:31-46 | output sample k is the mean of the source samples around k S / T weighted by the distances, rounded to the nearest, halves upwards, and the last source sample from there on |
| Pcm16Resampler.DecodedSample | packages/stt-stream-core/src/pcm16-resampler.ts:81-87 | a sample is its low byte plus 256 times its high byte in two's complement |
| Pcm16Resampler.ContextKept | packages/stt-stream-core/src/pcm16-resampler.ts:25-43 | a position not reached before looks back at most at the last sample of then |
| Pcm16Resampler.OutputSettled | packages/stt-stream-core/src/pcm16-resampler.ts:33-46 | output once made does not change when more input arrives |
| Pcm16Resampler.DecodeEncode | packages/stt-stream-core/src/pcm16-resampler.ts:81-93 | decoding encoded samples gives them back |
| Pcm16Resampler.EncodeDecode | packages/stt-stream-core/src/pcm16-resampler.ts:81-93 | encoding decoded bytes gives them back |
| Pcm16Resampler.InterpolateBetween | packages/stt-stream-core/src/pcm16-resampler.ts:95-98 | the result lies between the two samples, so the clamp never changes a value |
| Pcm16Resampler.TotalLength | packages/stt-stream-core/src/pcm16-resampler.ts:31-70 | the length lies strictly between N T / S - 1/2 and N T / S + 1 |
| Pcm16Resampler.UpsamplingLength | packages/stt-stream-core/src/pcm16-resampler.ts:57-61 | for T at least S the length is the rounded N T / S |
| Pcm16Resampler.DownsamplingLength | packages/stt-stream-core/src/pcm16-resampler.ts:31-61 | for T at most S it is one more exactly when the remainder of N T by S is at least T and below S / 2 |
| Pcm16Resampler.EqualRates | packages/stt-stream-core/src/pcm16-resampler.ts:31-46 | with equal rates the output is the input |
| PanelFeed.BuildFedDeviceUids | libs/domain-panel/src/lib/compile-panel-project.ts:217-278 | the loop returns exactly the devices that a chain of combs from a system feed reaches, each once, within one pass more than there are devices |
| PanelFeed.Pass | libs/domain-panel/src/lib/compile-panel-project.ts:252-275 | one pass adds only fed devices, and when it adds none the set is closed |
| PanelFeed.SeedFeed | libs/domain-panel/src/lib/compile-panel-project.ts:226-248 | the seeds are the devices with a live system wire, each once |
| PanelFeed.LiveWireTells | libs/domain-panel/src/lib/compile-panel-project.ts:226-241 | a live wire joins the system's live feed and a terminal at the top of the device, either way round |
| PanelFeed.CarriesTells | libs/domain-panel/src/lib/compile-panel-project.ts:257-269 | a comb with a source feeds every other device of its rail unless one ends before the other begins |
| PanelFeed.FedIsLeast | libs/domain-panel/src/lib/compile-panel-project.ts:217-278 | the fed devices are the least set holding the seeds and closed under combs |
| PanelFeed.FedIsMonotone | libs/domain-panel/src/lib/compile-panel-project.ts:217-278 | more devices, combs or wires never take a feed away |
| PanelFeed.FedIgnoresOrder | libs/domain-panel/src/lib/compile-panel-project.ts:217-278 | order and repetitions of devices, combs and wires do not matter |
| PanelFeed.AnalyzeCompiledPanel | libs/domain-panel/src/lib/analyze-panel.ts:14-149 | the loops raise exactly the diagnostics that the derived tables call for |
| PanelFeed.SuppliedState | libs/domain-panel/src/lib/compile-panel-project.ts:280-308 | a circuit's live flag says that its breaker is on the panel and fed |
| PanelFeed.CircuitStateFound | libs/domain-panel/src/lib/compile-panel-project.ts:287-307 | the state under an id is that of the last circuit with the id |
| PanelFeed.BreakerStateFound | libs/domain-panel/src/lib/compile-panel-project.ts:310-327 | every device has a state that says whether it is fed and has a circuit |
| PanelFeed.UnfedCircuits | libs/domain-panel/src/lib/analyze-panel.ts:39-86 | an unfed circuit is reported exactly when its breaker exists and the last circuit with its id is not supplied |
| PanelFeed.UnfedDistinctCircuits | libs/domain-panel/src/lib/analyze-panel.ts:39-86 | with distinct ids: exactly when the circuit's existing breaker is unreachable |
| PanelFeed.UnfedBreakers | libs/domain-panel/src/lib/analyze-panel.ts:115-145 | a breaker is reported unfed exactly when it is not a main breaker and unreachable |
| PanelFeed.LooseBreakers | libs/domain-panel/src/lib/analyze-panel.ts:121-132 | a breaker is reported without a circuit exactly when it is not a main breaker and no circuit names it |
| PanelFeed.CircuitReports | libs/domain-panel/src/lib/analyze-panel.ts:39-112 | the other reports on circuits, exactly: no breaker named, breaker not on the panel, no protective conductor, anything missing |
| PanelFeed.MainReports | libs/domain-panel/src/lib/analyze-panel.ts:24-37 | several main breakers are reported with their number |
| PanelFeed.PriorKept | libs/domain-panel/src/lib/analyze-panel.ts:14-19 | what compilation reported is kept |
| PanelFeed.AnalyzePanel | libs/domain-panel/src/lib/analyze-panel.ts:14-149 | over compilation and analysis together, the unfed reports follow reachability |
| FinanceDecimals.AddTextsIsExact | apps/api/scripts/personal-finance-transfer.js:158-172 | the sum is exact and canonical |
| FinanceDecimals.AddDecimalsIsExact | apps/api/scripts/personal-finance-transfer.js:158-172 | fails exactly on an invalid operand; otherwise exact and canonical, null counting as zero |
| FinanceDecimals.CanonicalUnique | apps/api/scripts/personal-finance-transfer.js:166-171 | canonical decimals of the same value are the same string |
| FinanceDecimals.AddCommutes | apps/api/scripts/personal-finance-transfer.js:158-172 | addition commutes as strings |
| FinanceDecimals.AddAssociates | apps/api/scripts/personal-finance-transfer.js:158-172 | addition associates as strings |
| FinanceDecimals.NormalizeIsCanonical | apps/api/scripts/personal-finance-transfer.js:175-183 | normalising gives the canonical form of the same value |
| FinanceDecimals.SameDecimalValueIsEquality | apps/api/scripts/personal-finance-transfer.js:174-185 | two cells compare equal exactly when both are null or both stand for the same number |
| FinanceDecimals.AddToEntry | apps/api/scripts/personal-finance-transfer.js:103-112 | one row updates its currency's counts and totals exactly, and fails exactly on an invalid amount |
| FinanceDecimals.ExportSummary | apps/api/scripts/personal-finance-transfer.js:91-116 | fails exactly when a cell that it adds is invalid; otherwise all counts and totals are exact per currency and canonical |
| CategoryOrder.CategoriesParentFirst | apps/api/scripts/personal-finance-transfer.js:271-283 | throws exactly when the parent links contain a cycle; otherwise a permutation with every present parent before its children |
| CategoryOrder.CyclesAgree | apps/api/scripts/personal-finance-transfer.js:274-280 | the visit's cycle is a chain of rows of which each names the next as its parent and the last one the first |
| CategoryOrder.Visit.Place | apps/api/scripts/personal-finance-transfer.js:274-280 | the visit ends, and either places the row after all its ancestors or has found a cycle |
| CategoryOrder.NoCycleInOrder | apps/api/scripts/personal-finance-transfer.js:276-279 | rows that can all be placed parents first have no cycle |
| ObservationEngine.ProcessDeviceObservation | libs/domain-devices/src/lib/device-observation-engine.ts:97-231 | the checks and the entry loop compute the specified decision |
| ObservationEngine.OfferExactly | libs/domain-devices/src/lib/device-observation-engine.ts:161-209 | what an observation offers for a field: its value under the key, from an allowed source, stamped with the time of measurement, or of receipt without one |
| ObservationEngine.ReasonTells | libs/domain-devices/src/lib/device-observation-engine.ts:97-228 | each reason exactly, and that refusals change and report nothing |
| ObservationEngine.DecisionKeys | libs/domain-devices/src/lib/device-observation-engine.ts:168-231 | each key of the observation is reported once, and the updated ones are the fields that changed |
| ObservationEngine.ProcessPerField | libs/domain-devices/src/lib/device-observation-engine.ts:172-212 | an observation acts on each field alone: its authorised reading replaces the field exactly when it is newer |
| ObservationEngine.OrderTimesIncrease | libs/domain-devices/src/lib/device-observation-engine.ts:190-209 | a field never disappears and changes only to a greater order time |
| ObservationEngine.RunHoldsLatest | libs/domain-devices/src/lib/device-observation-engine.ts:97-231 | after any run a field is the earliest-arriving of the authorised readings that were measured, or received when not measured, last, or was never offered |
| ObservationEngine.LatestIsUnique | libs/domain-devices/src/lib/device-observation-engine.ts:192-209 | at most one reading is the earliest-arriving of the latest, so that description determines the field |
| ObservationEngine.OrderDoesNotMatter | libs/domain-devices/src/lib/device-observation-engine.ts:97-231 | all delivery orders and repetitions of readings with distinct times end in the same state |
| ObservationEngine.ReplayChangesNothing | libs/domain-devices/src/lib/device-observation-engine.ts:192-200 | delivering an observation again at any later time changes nothing and updates no key |
| ObservationEngine.UpdatedKeysChanged | libs/domain-devices/src/lib/device-observation-engine.ts:168-211 | the updated keys are exactly the fields that changed |
| ObservationEngine.EveryKeyReported | libs/domain-devices/src/lib/device-observation-engine.ts:172-212 | every key is reported once, as updated or as ignored |
| SseFrames.TakePortalSseFrames | apps/portal/src/device-state-events.ts:27-51 | the loop returns the frames and the remainder of the specification |
| SseFrames.ParseFrame | apps/portal/src/device-state-events.ts:35-48 | the line loop finds the last event name and all data lines, and drops frames without data or with malformed data |
| SseFrames.FrameTells | apps/portal/src/device-state-events.ts:33-48 | a frame is the last event name its lines give, or "message", and the parsed text of its data lines joined by line feeds; without data lines, or when that does not parse, there is none |
| SseFrames.TakeAppend | apps/portal/src/device-state-events.ts:27-51 | cutting the text anywhere, also inside a separator, changes neither frames nor remainder |
| SseFrames.ReadStream | apps/portal/src/features/devices/useDeviceStateStream.ts:87-98 | feeding any number of chunks gives the frames and the remainder of the whole text, unless a chunk and what was left over exceed 65536 characters; the reader stops at the first such chunk, having read those before it |
| SseFrames.FrameReadsBack | apps/portal/src/device-state-events.ts:31-48 | a frame written in the event-stream format (section 9.2 of the HTML Living Standard), with LF or CRLF, is read back, and reading goes on right after it |
| CounterSeries.RawCounterSeries | libs/domain-devices/src/lib/device-health-query.ts:301-319 | the grouping loops compute one summary per boot session and throw exactly on mixed sources |
| CounterSeries.MergeCounterSeries | libs/domain-devices/src/lib/device-health-query.ts:336-357 | the joined sessions of both lists, or a throw exactly on mixed units or sources |
| CounterSeries.BucketCounterSeries | libs/domain-devices/src/lib/device-health-query.ts:359-375 | the joined sessions of all buckets |
| CounterSeries.RawSeriesTells | libs/domain-devices/src/lib/device-health-query.ts:301-319 | each boot session once, in the order of first readings, with first and last reading, resets, gaps over one and a half intervals, and the delta of its sorted readings |
| CounterSeries.SessionRows | libs/domain-devices/src/lib/device-health-query.ts:303-308 | the readings of a session are those of the metric with a value in that session, in time order |
| StableSort.SortIsStable | libs/domain-devices/src/lib/device-health-query.ts:310-310 | sorting by time is a rearrangement in which elements of equal time keep their order |
| CounterSeries.RefusedExactly | libs/domain-devices/src/lib/device-health-query.ts:309-311 | a raw series throws exactly when a session mixes sources |
| CounterSeries.JoinAllTells | libs/domain-devices/src/lib/device-health-query.ts:336-375 | each boot session once, telling its sorted summaries joined |
| CounterSeries.MergeRefusedExactly | libs/domain-devices/src/lib/device-health-query.ts:341-347 | a merge throws exactly when a session mixes units or sources |
| CounterSeries.SplitSeries | libs/domain-devices/src/lib/device-health-query.ts:301-357 | splitting time-ordered observations anywhere and merging the two series is the series of the whole, errors included |
| CounterSeries.BucketsJoin | libs/domain-devices/src/lib/device-health-query.ts:301-375 | joining the raw series of any number of consecutive parts gives the raw series of the whole (raw series look at gaps; the buckets' own counters do not, see the next rows) |
| BucketCounters.FoldTells | libs/domain-devices/src/lib/device-health-history.ts:150-177 | folding one bucket's observations in time order keeps a summary for every boot session, in order of appearance, with the first and last reading and the resets, and with the ordering always complete |
| BucketCounters.BucketsAgainstReadings | libs/domain-devices/src/lib/device-health-query.ts:359-375 | counters joined from any list of hourly and daily buckets, each with the counters of its own observations, against the raw series of all the observations: same sessions, order, first and last readings, resets and sources; the ordering agrees if and only if no gap is inside a bucket or one is across a boundary; the delta agrees if and only if that holds or there was a reset |
| BucketCounters.RolledUpCounters | libs/domain-devices/src/lib/device-health-history.ts:203-295 | a day rebuilt from its hourly buckets is such a bucket |
| BucketCounters.GaplessParts | libs/domain-devices/src/lib/device-health-query.ts:312-313 | a session's readings have no gap exactly when they have none inside the parts and none across them |
| BucketCounters.HiddenGap | libs/domain-devices/src/lib/device-health-history.ts:150-177 | two readings forty minutes apart in one hour: the bucket reports a complete ordering and a delta of 4, the raw series neither |
| CounterSeries.RawDeltas | libs/domain-devices/src/lib/device-health-query.ts:312-317 | every delta is the last value minus the first and never negative, whatever the observations |
| CounterSeries.JoinedDeltas | libs/domain-devices/src/lib/device-health-query.ts:348-355 | joining keeps that, whatever the summaries and their order |

## Left out

- PowerHistory.AnalyzePowerHistory: dates, hour keys and minutes of the day are functions of the minute index, and the parsing of timestamps and schedule texts is not part of this model.
- ElectricalHour.SummarizeElectricalHour: does not model the value statistics, first and last readings, sources and timestamp bases, which are one-line folds.
- DeviceHealthHistory.ApplyDeviceHealthObservation: models counter summaries as values, so that the update of a summary shared with the previous bucket is not captured; error texts are not kept.
- DeviceHealthLaws.RollUp: the branch of the daily merge for a session that begins earlier is modelled in the merge but never reached from the buckets of one time-ordered day.
- DeviceHealthReadings.BucketMetrics: says nothing of the missing counts of single gauges, which `DeviceHealthLaws.MissingCounts` gives for days in time order.
- PowerHistoryFigures.ReportTells: takes schedule times and minutes of the day between 0 and 1439, as their texts give them.
- AudioIngest.Store.Receive: hashing, WAV and metadata validation, the folder name and the sizes of other files are parameters, digests are compared in lower case, and the size of other files is taken to be the same before and after a chunk is appended.
- AudioIngest.Store.SetLabel: wake-word occurrences, review times and the session manifests are not modelled; `receive` passes the new row to the manifest writer twice, so no claim about manifests is made.
- AudioIngest.Store.Delete: one locked request is one step; states between the unlinking and the rewriting of the index, and crashes, are not modelled.
- EvidencePrinter.Printer.AppendQuoted: does not say which part of the text is left in the buffer on failure, since every caller then drops the buffer.
- EvidencePrinter.EmitEvent: is the part after a slot was taken from the rate limit; clock, event id, payload hash and keyed hash are inputs.
- RiverRegression.FitRegression: rounding of floating-point numbers is not modelled; joining the series by date and the reported metrics are left out.
- RiverRegression.FitLocalOnlyRegression: the NaN that no rows give is the missing result.
- Pcm16Resampler.Resampler.Push: positions are exact rationals where the source divides floating-point numbers.
- PanelFeed.BuildFedDeviceUids: does not say in which order the uids are returned; its callers turn the list into a set.
- PanelFeed.AnalyzeCompiledPanel: states which diagnostics are raised, not their order, their number or their texts; keys that every JavaScript object inherits are not modelled.
- FinanceDecimals.ExportSummary: the trimmed currency is an input, and a currency named like an inherited object key is not modelled.
- CategoryOrder.CategoriesParentFirst: takes distinct ids, which the payload validation enforces (apps/api/scripts/personal-finance-transfer.js:123-129).
- ObservationEngine.ProcessDeviceObservation: a timestamp is its text with the instant it parses to; date parsing is not part of this model.
- SseFrames.ReadStream: a stream is the list of its decoded chunks; timeouts and what the portal does with a frame are not modelled.
- SseFrames.TakePortalSseFrames: JSON parsing is a parameter; a lone carriage return is no line end, as in the source.
- BucketCounters.BucketsAgainstReadings: takes a metric that every observation reports as a counter, and says nothing of the unit, which the raw series takes from the catalogue of metrics and the buckets from the readings.
- CounterSeries.RawCounterSeries: error texts are not kept; a value that is not finite is a missing value.
- Device enrolment, automation policies, estimates, drafts, intents and routes: short guards and lookups that would only add easy members.
- Databases, migrations, message brokers, HTTP handling, speech and language providers and user interfaces: input and output, not logic.
- Time zones and the host's date formatting: functions of the minute index.
