# Verified model of the tqsdk cache tooling

This project models the stateful core of the `tqsdk-cache` command line tool and of one reader in
`tqsdk-core`, and proves what each of them keeps over every input, every run or every reachable state.

| file | models |
|---|---|
| `TradingDays.dfy`, `DayCounting.dfy` | the trading-day clock, and counting the days of a list of time ranges by sorting and merging, against the set of days |
| `Progress.dfy` | the fill ledger: a class whose methods update it in place, each equal to one step of a specification function `Apply` |
| `ProgressHistory.dfy`, `ProgressScopes.dfy`, `ProgressReports.dfy`, `ProgressDisplay.dfy` | what the ledger holds and shows after any run, told by the events of the run alone |
| `ProgressRuns.dfy`, `ProgressRows.dfy`, `ProgressBatches.dfy`, `ProgressEntries.dfy`, `ProgressFailures.dfy`, `ProgressRestored.dfy`, `ProgressSwitch.dfy` | what any run of ledger events keeps: fresh counts, ordered counts, open batches, row totals, forgotten failures, the start of a history fill |
| `Jsonl.dfy` | the JSONL writer, and the protocol of many lossy producers, a bounded queue, one terminal record and one writer |
| `Csv.dfy`, `Numerals.dfy`, `Scientific.dfy`, `Durations.dfy` | the text codecs and their readers |
| `RowSelection.dfy`, `Bisection.dfy`, `LlmRender.dfy` | the rows kept under a token budget, the search for a scale, the size estimate, the document written |
| `RenderShares.dfy`, `RenderCosts.dfy`, `RenderSearch.dfy`, `RenderMisses.dfy` | how the budget is shared out, what each part of a document costs, when the search finds the greatest scale that fits, and when it does not |
| `RenderReading.dfy` | what a reader finds in the document |
| `Coverage.dfy`, `ProvisionalMarks.dfy` | the two coverage tests, the mark of a provisional fill and its meaning in instants, day statistics |
| `CalendarStore.dfy`, `Calendars.dfy` | the content-addressed holiday store across crashes, and calendar queries |
| `Aggregation.dfy`, `AggregationRuns.dfy`, `AggregationRounds.dfy` | commit logs with retention, the aggregated multi-source cursor, whole runs in which commits come in between the steps of a read, and uninterrupted reads |

Where the code updates something in place the model is a class, or a method with loops, proved equal to a
specification function; the theorems are about that function. The JSONL protocol, the aggregated reads and the
calendar store are transition systems over their steps, because threads interleave, and processes crash, between
the steps. An aggregated read takes the lock of one log at a time, so creating a cursor, looking for a commit and
resynchronising are steps of their own.
Timestamps and dates are integers; a date is the number of days since 1970-01-01, and a trading day starts at
18:00 China time on the evening before, as in `tqbn/mod.rs`. A run of ledger events is *well formed* when
telemetry, a finish or a failure of a (batch, range, symbol) follows a start that named it, and nothing follows
its end.

Ten statements one might expect turned out to need a condition. Each is proved with the exact condition, or
with a concrete family of inputs on which it fails beside the condition under which it holds:

- Counting against a calendar equals the size of the day set exactly when no counted calendar day is listed
  twice (`DayCountIsDaySetSize`). Every calendar the tool loads ascends (`AscendingCalendarCountsDaySet`).
- A finish event lowers the total row count exactly when it newly completes a batch that streamed more rows than
  the finish reports and than the symbols it lists have streamed (`FinishLowersRowsIff`); well-formed runs can do
  so (`FinishCanLowerRows`), but not if every batch ends once and its end lists all symbols still open for it
  (`WholeBatchesNeverLoseRows`).
- Failing a batch forgets its telemetry for a symbol after every run from a ledger exactly when the ledger knows
  the symbol (`FailureForgetsEveryRunIff`), and at every moment of one run exactly when no event splits the symbol
  (`FailureForgetsAlongRunIff`). In well-formed runs from the empty ledger none does (`WellFormedFailureForgets`).
  All counts and scopes are restored after every run exactly when the ledger also is one of a history fill
  (`FailureRestoresEveryRunIff`).
- Every JSONL run with n updates whose writer stops normally ends with its terminal record if and only if n does
  not exceed the maximum of the revision counter (`StoppedRunsEndWithTerminalIff`).
- The search for a scale finds the greatest one that fits exactly when the scales it probes below it fit
  (`SearchIsExactIff`). It does when the rows of each block are of nearly equal length and not too short
  (`EvenRowsAreSearchedExactly`). Otherwise it can end far below: a block that keeps all its rows has a shorter
  data line (`FittingNeedNotBeDownwardClosed`), and the evenly spread rows of a larger count need not include
  those of a smaller one (`GridsNeedNotBeNested`). Equal length alone is not asked for, because all rows of a block
  can cost less than all but one (`BothRowsCostLess`).
- Decimal expansion preserves the value exactly when the mantissa has at most one decimal point; the code drops
  further points and still returns a string (`ExpansionDenotesSameNumber`, `ExtraPointIsDropped`).
- The single-range coverage test implies the sweeping one, for every list of ranges, exactly when the request is
  not empty (`SingleRangeImpliesSweepIff`).
- A crash between creating a snapshot file and completing it leaves a torn file (`CrashLeavesTornFile`). Reads
  never see it, but no later write of the same holidays gets past it (`TornFileBlocksItsHash`). A stored file with
  another source has the same effect (`MismatchBlocksWrites`); `WriteCanSucceedIff` says exactly when a write can
  succeed. Failed writes whose file can be removed leave none (`FailedWritesLeaveNoTornFile`).
- Aggregated reads deliver a source's exact log suffix if and only if no read resynchronises the source, which it
  does exactly when it finds the source's next commit trimmed (`DeliveryIsLogSuffix`). The commits in between are
  then lost without an error. Append-only logs are always delivered exactly (`RetainedLogIsDelivered`).
- A read that returns nothing leaves every source drained if nothing is published meanwhile
  (`NothingMeansDrained`); otherwise it has passed all that the sources held when it began (`NothingMeansPassed`).

## Model

| member | source | states |
|---|---|---|
| TradingDays.SkipWeekend | crates/tqsdk-data/src/history_series_cache/tqbn/mod.rs:1066-1071 | the loop ends on the first day from `d` on that is no weekend day |
| TradingDays.StepBackToBusinessDay | crates/tqsdk-data/src/history_series_cache/tqbn/mod.rs:1027-1038 | the loop ends on the last business day strictly before `d`; every day skipped is a weekend day |
| TradingDays.PartitionTheorem | crates/tqsdk-data/src/history_series_cache/tqbn/mod.rs:1007-1055 | an instant belongs to the trading day of a date if and only if it lies in that date's half-open range; a weekend date has the range of the next business day |
| TradingDays.RangesAreContiguous | crates/tqsdk-data/src/history_series_cache/tqbn/mod.rs:1027-1055 | the range of the previous business day ends where this one's starts, so the ranges leave neither gap nor overlap |
| TradingDays.TradingDayMonotone | crates/tqsdk-data/src/history_series_cache/tqbn/mod.rs:1007-1021 | a later instant never has an earlier trading day |
| TradingDays.FinishedBefore | crates/tqsdk-data/src/history_series_cache/tqbn/mod.rs:1027-1055 | a day's range has ended by the cursor exactly when the cursor is in a later trading day |
| TradingDays.ClockIsSet | crates/tqsdk-cache/src/lib.rs:1891-1902 | 1970-01-01 is a Thursday; the trading day of Friday 2026-07-17 begins on the Thursday at 18:00 China time, and Saturday 2026-07-18 belongs to Monday 2026-07-20, which ends at 18:00 |
| DayCounting.DaysForRanges | crates/tqsdk-cache/src/progress.rs:1195-1227 | for any list of ranges, reversed and empty ones included, the days collected are those touched by some range and, with a calendar, listed in it |
| DayCounting.BusinessDayIsTouchedIff | crates/tqsdk-cache/src/progress.rs:1195-1227 | a business day is counted for a range exactly when some instant of the range belongs to it |
| DayCounting.WeekendIsTouchedIff | crates/tqsdk-cache/src/progress.rs:1195-1227 | a weekend date is counted for a range, when there is no calendar, exactly when it lies between the first and the last trading day of the range |
| DayCounting.MergeSpan | crates/tqsdk-cache/src/progress.rs:1281-1295 | one merge step keeps the spans separated by at least one day and adds exactly the days of the new span |
| DayCounting.NormalizedTradingDayRanges | crates/tqsdk-cache/src/progress.rs:1267-1296 | the merged spans are ascending, disjoint and not adjacent, and cover exactly the days the input ranges touch |
| DayCounting.DayCountForRanges | crates/tqsdk-cache/src/progress.rs:1229-1253 | the count over the merged spans is the count over the set of touched days (calendar entries in it, when there is a calendar), so order, overlap and duplicates do not matter |
| DayCounting.TotalLengthCountsDays | crates/tqsdk-cache/src/progress.rs:1229-1253 | adding up the lengths of separated spans counts every covered day once |
| DayCounting.DayCountIsDaySetSize | crates/tqsdk-cache/src/progress.rs:1195-1253 | the fast count is at least the size of the explicit day set, and equal to it if and only if there is no calendar or no counted day is listed twice |
| DayCounting.DistinctCalendarCountsDaySet | crates/tqsdk-cache/src/progress.rs:1195-1253 | with a calendar of distinct days the fast count is the size of the explicit day set |
| DayCounting.DayCountMonotone | crates/tqsdk-cache/src/progress.rs:1229-1253 | ranges touching more days never count fewer |
| DayCounting.CompletedRangeMatchesCompletedDays | crates/tqsdk-cache/src/progress.rs:1255-1310 | the days of the range completed through a cursor are the days of the request whose range ended by the cursor: the day the cursor is inside is never credited |
| ProgressState.ProgressState.SetScopes | crates/tqsdk-cache/src/progress.rs:456-470 | the ledger takes the scope step of `Apply`: every scope once per symbol, then every symbol's day sets anew; nothing changes once a history fill has begun |
| ProgressState.ProgressState.CalendarReady | crates/tqsdk-cache/src/progress.rs:169-174 | the ledger takes the calendar step of `Apply`: in a history fill every symbol is recounted, before one its day sets are listed anew |
| ProgressState.ProgressState.RecalculateDays | crates/tqsdk-cache/src/progress.rs:850-870 | in a history fill every symbol is recounted, before one its four day sets become those of its range lists (covered = planned less missing, received kept only while missing); nothing else changes |
| ProgressState.ProgressState.RecalculateHistorySymbolDays | crates/tqsdk-cache/src/progress.rs:872-899 | the five counts of one symbol become the day counts of its requested, missing, received, received or streamed, and received or durable ranges; nothing else changes |
| ProgressState.ProgressState.ApplyDurability | crates/tqsdk-cache/src/progress.rs:901-907 | the ledger takes the durability step of `Apply`: a settled window is kept, any other replaced, the symbol recounted |
| ProgressState.ProgressState.ApplyPlanning | crates/tqsdk-cache/src/progress.rs:555-558 | the ledger takes the planning step of `Apply`, the first to mark a history fill and count days |
| ProgressState.ProgressState.ApplyBatchStarted | crates/tqsdk-cache/src/progress.rs:559-588 | the in-place loop over the listed symbols, duplicates included, has the effect of one simultaneous start of the set of them |
| ProgressState.ProgressState.ApplyTelemetry | crates/tqsdk-cache/src/progress.rs:589-628 | the ledger takes the telemetry step of `Apply`: rows and the streamed prefix only rise, and the prefix ends at the last day completed by the cursor |
| ProgressState.ProgressState.ApplyBatchFinished | crates/tqsdk-cache/src/progress.rs:629-680 | the loop over listed symbols has the effect of one simultaneous completion; the batch counts the larger of rows written and rows its listed symbols streamed |
| ProgressState.ProgressState.ApplyBatchFailed | crates/tqsdk-cache/src/progress.rs:681-707 | the loop over listed symbols has the effect of one simultaneous failure of those known; symbols not in the ledger are not created |
| ProgressState.ProgressState.ApplyFinished | crates/tqsdk-cache/src/progress.rs:552-710 | the end-of-fill event only marks the run as a history fill |
| ProgressState.ProgressState.CoverageCounts | crates/tqsdk-cache/src/progress.rs:952-986 | the totals shown are the sums over all symbols of the cached counts in a history fill, of the sizes of the day sets before one; rows are those of finished batches plus those of streams of batches not finished |
| ProgressState.ObserveStream | crates/tqsdk-cache/src/progress.rs:589-628 | one telemetry report opens its batch, brings the rows of its stream to at least those reported, and lowers no stream's rows and no streamed prefix |
| ProgressState.CheckpointList | crates/tqsdk-cache/src/progress.rs:872-899 | the checkpoint ranges listed are exactly those of the durability windows: up to the part to download again, or the whole window if its coverage is final |
| ProgressState.StreamedPrefixList | crates/tqsdk-cache/src/progress.rs:872-899 | the prefixes listed are exactly those of the open streams |
| ProgressHistory.TelemetryAddsCompletedDays | crates/tqsdk-cache/src/progress.rs:589-628 | a telemetry report adds to its stream exactly the days of the range that had ended by the cursor: not the day the cursor is inside, and nothing without a cursor |
| ProgressHistory.PrefixIsStreamed | crates/tqsdk-cache/src/progress.rs:614-623 | after any run the prefix of a stream touches exactly the days completed by some cursor reported on it since it last ended |
| ProgressHistory.ReceivedIsFinished | crates/tqsdk-cache/src/progress.rs:665-670 | after any run the received ranges of a symbol are those that a finish listed for it while it was known |
| ProgressHistory.ReceivedDaysAre | crates/tqsdk-cache/src/progress.rs:872-899 | after any run the received days of a symbol are those of its finished ranges and those that its streams not ended since have completed |
| ProgressHistory.WellFormedFinishIsKnown | crates/tqsdk-cache/src/progress.rs:650-670 | in a well-formed run every symbol that a finish lists is known |
| ProgressScopes.ScopesAreGiven | crates/tqsdk-cache/src/progress.rs:456-470 | after any run the requested and the missing ranges of a symbol are both those that scopes before the fill or a batch start gave it |
| ProgressScopes.WindowsHoldReports | crates/tqsdk-cache/src/progress.rs:381-390 | after any run a durability window holds the first report that settled it, or else its last one |
| ProgressScopes.ErrorIsLastFailure | crates/tqsdk-cache/src/progress.rs:681-707 | the error of a symbol is the message of the last failure that lists it while it is known |
| ProgressDisplay.CountsTellTheRun | crates/tqsdk-cache/src/progress.rs:872-899 | from planning on, told by the events alone: covered counts the finished days of a symbol, received those and the days its streams have completed, planned and missing the days of its scopes, checkpointed the finished days and those its durability windows leave safe |
| ProgressDisplay.MarksTellTheRun | crates/tqsdk-cache/src/progress.rs:552-710 | a run is a history fill, has begun a batch, has failed or has completed a given batch exactly when one of its events says so |
| ProgressDisplay.LatestReportsCount | crates/tqsdk-cache/src/progress.rs:555-588 | the calendar is the last one reported and the number of batches the last one announced |
| ProgressState.TotalsAreSums | crates/tqsdk-cache/src/progress.rs:952-986 | each of the five totals is the sum of that count over the symbols |
| ProgressSwitch.PlanningKeepsShownDays | crates/tqsdk-cache/src/progress.rs:850-899 | when planning turns any ledger of scopes, calendars and durability reports into a history fill, the planned and missing days shown never fall, and stay the same if and only if no counted calendar day is listed twice; nothing is shown as covered or received before |
| ProgressSpec.StartedTwice | crates/tqsdk-cache/src/progress.rs:559-588 | naming a symbol twice in a start is the same as naming it once |
| ProgressSpec.CompletedTwice | crates/tqsdk-cache/src/progress.rs:650-670 | naming a symbol twice in a finish is the same as naming it once |
| ProgressSpec.FailedTwice | crates/tqsdk-cache/src/progress.rs:681-707 | naming a symbol twice in a failure is the same as naming it once |
| ProgressRuns.StepKeepsCounts | crates/tqsdk-cache/src/progress.rs:552-710 | any event that finds every symbol's cached counts fresh leaves them fresh, and a planning event makes them so from any state |
| ProgressRuns.CountsStayCurrent | crates/tqsdk-cache/src/progress.rs:850-907 | in every run, well formed or not, that contains a planning event, the cached counts of every symbol are present and equal a recomputation from its range lists, streams, windows and the current calendar |
| ProgressRuns.StepKeepsInv | crates/tqsdk-cache/src/progress.rs:552-710 | the run invariant (ordered counts; received, open and streamed ranges among the missing; active exactly when a batch is open) survives every admissible event |
| ProgressRuns.WellFormedRunKeepsInv | crates/tqsdk-cache/src/progress.rs:552-710 | the run invariant holds after every well-formed run |
| ProgressRuns.CountsAreOrdered | crates/tqsdk-cache/src/progress.rs:552-710 | after every well-formed run, for each symbol and in total: covered <= received <= missing = planned, and covered <= checkpointed |
| ProgressRuns.FreshCountsAreOrdered | crates/tqsdk-cache/src/progress.rs:872-899 | a recount of any symbol of a well-formed run is ordered in that way, with or without a calendar |
| ProgressRuns.CheckpointCoversReceived | crates/tqsdk-cache/src/progress.rs:872-899 | raising the checkpointed count to at least the covered count never changes it |
| ProgressRuns.ActiveIffBatchOpen | crates/tqsdk-cache/src/progress.rs:559-707 | in a well-formed run a symbol is active if and only if some batch was started for it and has not ended for it |
| ProgressFailures.RunsAgree | crates/tqsdk-cache/src/progress.rs:589-707 | taking one batch's telemetry out of any run changes neither whether a symbol is known, nor its received ranges, nor its streams of other batches, unless some event splits the symbol: that telemetry introduces it, or scopes name it that a fill begun by that telemetry alone ignores |
| ProgressFailures.FailureForgetsTelemetry | crates/tqsdk-cache/src/progress.rs:681-707 | from any ledger, failing the batch after a run that does not split the symbol leaves the received ranges, streams and days, the open batches and the activity that it would have left had that batch's telemetry never occurred |
| ProgressFailures.FailureForgetsAlongRunIff | crates/tqsdk-cache/src/progress.rs:681-707 | failing the batch is forgotten for the symbol at every moment of a run if and only if no event of the run splits the symbol |
| ProgressFailures.FailureForgetsEveryRunIff | crates/tqsdk-cache/src/progress.rs:589-605 | failing the batch is forgotten for the symbol after every run from a ledger if and only if that ledger knows the symbol |
| ProgressFailures.WellFormedFailureForgets | crates/tqsdk-cache/src/progress.rs:681-707 | in a well-formed run from the empty ledger a failed batch is forgotten for every symbol it lists |
| ProgressFailures.FailureOfUnknownSymbolLeavesTrace | crates/tqsdk-cache/src/progress.rs:589-605 | from any ledger that does not know the symbol: telemetry of the batch, a finish of another batch, then the failure leave the symbol with a received range, where without the telemetry it is not in the ledger |
| ProgressRestored.FailureRestores | crates/tqsdk-cache/src/progress.rs:681-707 | if moreover both runs begin their history fill at the same moments, failing the batch also leaves the same scopes and durability windows and the same five counts |
| ProgressRestored.WellFormedFailureRestores | crates/tqsdk-cache/src/progress.rs:681-707 | in a well-formed run from the empty ledger failing a batch restores all five counts of every symbol it lists |
| ProgressRestored.FailureRestoresEveryRunIff | crates/tqsdk-cache/src/progress.rs:456-470 | failing the batch restores scopes, windows and counts of the symbol after every run from a ledger if and only if that ledger knows the symbol and is one of a history fill |
| ProgressEntries.ApplyEntry | crates/tqsdk-cache/src/progress.rs:552-710 | an event changes the scopes, windows and open batches of a symbol in a way that depends on these, on the event and on whether a history fill has begun, and on nothing else of the ledger |
| ProgressRuns.ReceivedDaysGrow | crates/tqsdk-cache/src/progress.rs:589-680 | along a well-formed run the received days of a symbol only grow as long as no batch fails for it |
| ProgressRuns.SettledWindowsStay | crates/tqsdk-cache/src/progress.rs:381-390 | a durability window with nothing to download again never changes in any later run |
| ProgressRows.StepKeepsBatchesRecorded | crates/tqsdk-cache/src/progress.rs:629-680 | a batch is marked completed exactly when it has a row count, after every event |
| ProgressRows.OpenRowsSplit | crates/tqsdk-cache/src/progress.rs:952-986 | marking a batch completed removes exactly the rows of its streams from the running sum |
| ProgressRows.FinishChangesRowsBy | crates/tqsdk-cache/src/progress.rs:629-680 | a finish changes the total by its own row count less what the batch's streams, of listed and unlisted symbols, had contributed |
| ProgressRows.ListedRowsCoverListed | crates/tqsdk-cache/src/progress.rs:629-649 | the sum over the listed symbols, duplicates included, is at least the rows each of them streamed, counted once |
| ProgressReports.StreamRowsAreReported | crates/tqsdk-cache/src/progress.rs:589-605 | while a batch has not finished, a stream is known exactly when it was started or reported on, and its rows are the most that telemetry reported on it, in any order |
| ProgressReports.RecordedRowsAreGreatest | crates/tqsdk-cache/src/progress.rs:629-649 | the rows recorded of a batch are the greatest that any of its finishes gave as written or that the symbols it listed had streamed by then |
| ProgressReports.ListedRowsAreSum | crates/tqsdk-cache/src/progress.rs:629-649 | a finish that lists no symbol twice counts the rows each listed symbol streamed in the batch, once |
| ProgressReports.SingleFinishIsKept | crates/tqsdk-cache/src/progress.rs:671-680 | a finish that lists a single known symbol keeps at least the rows written with its stream; one that lists several changes no stream |
| ProgressRows.FinishLowersRowsIff | crates/tqsdk-cache/src/progress.rs:629-680 | a finish lowers the total row count if and only if the batch is newly completed and its streams hold more rows than both the rows written and the rows of the symbols listed |
| ProgressRows.FinishCanLowerRows | crates/tqsdk-cache/src/progress.rs:629-680 | a well-formed run of a start, telemetry and a finish that lists no symbol and writes fewer rows than were streamed lowers the total, whatever the batch, range, symbol and row counts |
| ProgressRows.RowsNeverDecrease | crates/tqsdk-cache/src/progress.rs:952-986 | in every run whose finish events list each symbol that streamed in the batch, the total row count never decreases between any two points, late telemetry included |
| ProgressBatches.RunKeepsStreamsOpen | crates/tqsdk-data/src/backtest_history/orchestration.rs:755-800 | in a well-formed run in which batches end once and as a whole, every stream of a batch that has not ended belongs to a symbol the batch is open for |
| ProgressBatches.WholeBatchesListStreams | crates/tqsdk-data/src/backtest_history/orchestration.rs:755-800 | judged by its events alone: such a run lists, in each finish, every symbol that streamed in the batch |
| ProgressBatches.WholeBatchesNeverLoseRows | crates/tqsdk-cache/src/progress.rs:952-986 | in such a run the total row count never decreases between any two points |
| JsonlWriting.JsonlWriter.WriteRecord | crates/tqsdk-cache/src/progress.rs:1164-1181 | a record is appended exactly when it is newer than the last one written, which it then becomes; otherwise nothing changes |
| JsonlWriting.JsonlWriter.RenderJsonl | crates/tqsdk-cache/src/progress.rs:1146-1157 | whatever is queued up to the stop message, the output grows by exactly the records newer than all records before them |
| JsonlWriting.ServeOne | crates/tqsdk-cache/src/progress.rs:1164-1181 | comparing with the last written sequence alone decides "newer than all earlier records" |
| JsonlWriting.HighestBounds | crates/tqsdk-cache/src/progress.rs:1164-1181 | the sequence remembered is an upper bound of all sequences served and is one of them |
| JsonlProtocol.StepKeepsInv | crates/tqsdk-cache/src/progress.rs:212-265 | every step of producer, finisher and writer keeps the protocol invariant |
| JsonlProtocol.RunKeepsInv | crates/tqsdk-cache/src/progress.rs:212-265 | the protocol invariant holds in every reachable state with unsaturated revisions |
| JsonlProtocol.OutputIsOrderedAndTerminalIsLast | crates/tqsdk-cache/src/progress.rs:212-265 | in every interleaving the written sequences strictly increase, each record is the snapshot of its own revision, the terminal record is the newest snapshot, occurs at most once and only last, and is there once the writer has stopped normally |
| JsonlProtocol.StoppedRunsEndWithTerminalIff | crates/tqsdk-cache/src/progress.rs:212-265 | every run with n updates whose writer stopped normally has written its terminal record last, if and only if n does not exceed the maximum of the revision counter |
| JsonlProtocol.QuietRun | crates/tqsdk-cache/src/progress.rs:242-265 | updates that are each sent and received before the next are all written, in order, up to the maximum of the counter |
| JsonlProtocol.BurstRun | crates/tqsdk-cache/src/progress.rs:263-265 | updates sent while nothing is received fill the 64 places of the queue in order, and those after that are lost |
| JsonlProtocol.RevisionIsFreshIff | crates/tqsdk-cache/src/progress.rs:253 | a revision exceeds all earlier ones if and only if the counter has not passed its maximum |
| JsonlProtocol.SaturatedTerminalIsDropped | crates/tqsdk-cache/src/progress.rs:1176-1181 | once a record with the greatest revision is written, the writer drops every later terminal record |
| JsonlProtocol.ShutdownStepsAreBounded | crates/tqsdk-cache/src/progress.rs:154-162 | after the final update every step lowers a bounded measure, so shutdown ends |
| JsonlProtocol.ShutdownNeverBlocks | crates/tqsdk-cache/src/progress.rs:154-162 | until shutdown is over a blocking send or a receive is possible, even with a full queue or a dead writer |
| JsonlProtocol.FinishedRunEndsWithTerminal | crates/tqsdk-cache/src/progress.rs:212-233 | when nothing can happen any more, the terminal record has been written last unless writing failed |
| Csv.QuotedReadsBack | crates/tqsdk-cache/src/query.rs:2585-2591 | a quoted field with doubled quotes ends, for a reader, exactly where the printer closed it |
| Csv.RecordReadsBack | crates/tqsdk-cache/src/query.rs:2573-2591 | a reader following section 2 of RFC 4180 recovers every non-empty cell list, embedded commas, quotes and line breaks included, and stops at the line's end |
| Csv.PrinterIsInjective | crates/tqsdk-cache/src/query.rs:2573-2583 | two cell lists print alike if and only if they are equal, or one is empty and the other a single empty cell |
| Csv.DocumentReadsBack | crates/tqsdk-cache/src/query.rs:2573-2591 | a document of printed lines is split into the very records it was printed from, even when cells contain line breaks |
| RowSelection.SelectRowIndices | crates/tqsdk-cache/src/query.rs:1316-1351 | the set-filling loops compute the selection function whose properties follow |
| RowSelection.AddListed | crates/tqsdk-cache/src/query.rs:1327-1332 | the loop with its early exit takes candidates in order while there is room |
| RowSelection.AddGridRows | crates/tqsdk-cache/src/query.rs:1333-1340 | the loop with its early exit takes the grid rows in order while there is room |
| RowSelection.SelectKeeps | crates/tqsdk-cache/src/query.rs:1316-1351 | for any in-bounds important rows: exactly min(count, n) strictly increasing in-bounds rows, the first row kept and, when count > 1, the last |
| RowSelection.SelectKeepsImportant | crates/tqsdk-cache/src/query.rs:1327-1332 | an important row is kept whenever the two ends and the important rows up to it number at most count |
| RowSelection.SelectKeepsGrid | crates/tqsdk-cache/src/query.rs:1333-1340 | with any important rows, the evenly spaced row i(n-1)/(count-1) is kept whenever the ends, the important rows and the evenly spaced rows up to it number at most count |
| RowSelection.SelectFillsLast | crates/tqsdk-cache/src/query.rs:1341-1350 | a row that is no end, no important row and not evenly spaced is kept only to fill up: then all of those are kept and every earlier row is |
| RowSelection.SelectIsGrid | crates/tqsdk-cache/src/query.rs:1333-1340 | without important rows and 2 <= count < n, row i is floor(i(n-1)/(count-1)), and neighbours are between 1 and ceil((n-1)/(count-1)) apart |
| RowSelection.GridGap | crates/tqsdk-cache/src/query.rs:1333-1340 | neighbouring grid rows differ by at least one and at most the rounded-up spacing |
| LlmRender.EstimateLlmDocument | crates/tqsdk-cache/src/query.rs:1406-1425 | the streaming estimate is a third, rounded up, of the length of the text the writer emits plus its number of lines |
| LlmRender.WriteLlmDocument | crates/tqsdk-cache/src/query.rs:1440-1465 | the separators and the final line break put one line break after each visited line |
| RenderReading.BlockReadsBack | crates/tqsdk-cache/src/query.rs:515-547 | a reader who trusts the counts in the data line and in the last line of a block finds the lines before, the number of rows the block has, its header and exactly the rows kept |
| RenderReading.DocumentBlocksReadBack | crates/tqsdk-cache/src/query.rs:1353-1404 | every block of a document reads back in that way, in order, after two lines of frame |
| RenderReading.MetaReadsBack | crates/tqsdk-cache/src/query.rs:1362-1381 | the meta line tells number format and compression, says partial exactly when there were failures, and names the focus exactly when lossy |
| RenderReading.FailuresReadBack | crates/tqsdk-cache/src/query.rs:1385-1403 | the lines before the last read back as the failures in order, and the last tells whether there were any |
| LlmRender.EstimateLines | crates/tqsdk-cache/src/query.rs:1427-1438 | the estimate of bare rows is a third, rounded up, of the emitted text without its last line break, plus the number of rows |
| LlmRender.SelectedRows | crates/tqsdk-cache/src/query.rs:1308-1314 | each block gets the selection of its own scaled count |
| LlmRender.SearchScale | crates/tqsdk-cache/src/query.rs:1283-1305 | the loop returns the rows of the scale where the bisection of the fit test over 0..=1,000,000 ends, for any fit test |
| LlmRender.AllocateCompressedRows | crates/tqsdk-cache/src/query.rs:1246-1306 | fails exactly when the metadata alone is over budget or no block has weight, else returns the rows of the scale where the bisection ends |
| RenderShares.AllowancesAreByWeight | crates/tqsdk-cache/src/query.rs:1264-1281 | for every block the allowance k is by weight: with n rows of E tokens and total weight W, k > 0 implies (k-1)EW < n x residual x weight, and k < n implies kEW > n(residual x weight - W) |
| RenderShares.SharesAddUp | crates/tqsdk-cache/src/query.rs:1274-1276 | the shares of the residual budget of all blocks add up to at most the residual |
| RenderShares.ScaledAllowance | crates/tqsdk-cache/src/query.rs:1290-1294 | at a scale a block keeps that many millionths of its allowance, rounded down, and at the full scale all of it |
| Bisection.BisectIsGreatestIff | crates/tqsdk-cache/src/query.rs:1287-1305 | bisection of any test ends at the greatest value that passes if and only if the midpoints below it on the way to it pass |
| LlmRender.ChosenScaleIsEdge | crates/tqsdk-cache/src/query.rs:1287-1305 | whatever the fit test, the search ends at a scale that fits and whose successor, if any, does not |
| LlmRender.SearchIsExactIff | crates/tqsdk-cache/src/query.rs:1287-1305 | the search finds the greatest fitting scale if and only if the scales below it that are probed on the way to it fit; which these are does not depend on the data |
| LlmRender.EdgeIsGreatest | crates/tqsdk-cache/src/query.rs:1287-1305 | when every scale below a fitting one fits, the edge is the greatest fitting scale |
| RenderCosts.DocumentCost | crates/tqsdk-cache/src/query.rs:1406-1425 | the estimate of a document is a third, rounded up, of the sum of a frame and of its blocks, where a block costs its shell, the two row counts it prints and its rows |
| RenderSearch.EvenRowsAreDownwardClosed | crates/tqsdk-cache/src/query.rs:1287-1305 | when in every block the shortest and the longest row are close enough that n rows, with the shorter data line that brings, cost no less than any n - 1, every scale below a fitting one fits |
| RenderSearch.EvenRowsAreSearchedExactly | crates/tqsdk-cache/src/query.rs:1246-1306 | with such rows the search finds the greatest fitting scale |
| RenderMisses.BothRowsCostLess | crates/tqsdk-cache/src/query.rs:515-547 | a document keeping both rows of a block can cost strictly less than one keeping the first only, because the data line shortens |
| RenderMisses.FittingNeedNotBeDownwardClosed | crates/tqsdk-cache/src/query.rs:1246-1306 | for two blocks of a long and a short row and of one very long row, at the cost of the first block's rows as budget: the whole data does not fit, the full scale of the real allowances fits with two rows, and the search ends at 499,999 with none |
| RenderMisses.GridsNeedNotBeNested | crates/tqsdk-cache/src/query.rs:1246-1351 | for seven rows of which the middle one is longer, at the cost of four evenly spread ones as budget: the whole data does not fit, the full scale fits with four rows, and the search ends at 749,999 with two, because the three evenly spread ones include the long row |
| RenderMisses.MissesAreNotDownwardClosed | crates/tqsdk-cache/src/query.rs:1287-1305 | wherever the search ends below a full scale that fits, the fit test of the request is not downward closed |
| LlmRender.PrepareLlmRender | crates/tqsdk-cache/src/query.rs:1196-1244 | a plan exists if and only if everything fits, or compression is on, the metadata fits and some block has weight; it is the whole data or the rows of the chosen scale and is within budget; each failure is told apart, and the second over-budget error cannot occur |
| LlmRender.WriteRawOutput | crates/tqsdk-cache/src/query.rs:1091-1108 | end to end, ceil(bytes/3) + lines of the text emitted is at most the budget, and the text is the document of the plan |
| LlmRender.DocumentIsRecovered | crates/tqsdk-cache/src/query.rs:1353-1404 | a CSV reader splits the whole document into records that print to exactly the lines visited |
| Scientific.ReadsAt | crates/tqsdk-cache/src/query.rs:2523-2557 | a digit string with a point is readable exactly when it has at most one, and then denotes its digits scaled by the position of the point |
| Scientific.PlaceReadsBack | crates/tqsdk-cache/src/query.rs:2541-2553 | in all three branches (point left of, right of and within the digits) the placed text denotes the digits scaled by the position |
| Scientific.ExpansionDenotesSameNumber | crates/tqsdk-cache/src/query.rs:2523-2557 | any string returned has at most 32 characters and is a readable number; the input is readable exactly when its mantissa has at most one point, and then both are the same number, for both signs |
| Scientific.ExtraPointIsDropped | crates/tqsdk-cache/src/query.rs:2523-2557 | 1.2.3e0 is no number and yet is expanded, to 1.23 |
| Scientific.ExpansionFailsIff | crates/tqsdk-cache/src/query.rs:2523-2557 | a readable input of n digits with the shifted point at p is refused if and only if p leaves 32 bits or the sign and 2 - p + n, p or n + 1 characters (point left of, right of or within the digits) make more than 32 |
| Scientific.ExponentReadsBack | crates/tqsdk-cache/src/query.rs:2527 | an exponent is read with its sign, with or without a plus, and refused exactly beyond 32 bits |
| Coverage.RangesCover | crates/tqsdk-cache/src/query.rs:2479-2497 | for a non-empty request and any unsorted, overlapping list: true if and only if every instant lies in some range; for an empty request: if and only if some range strictly surrounds it |
| Coverage.SingleRangeImpliesCover | crates/tqsdk-cache/src/main.rs:5486-5490 | one range around the request covers every instant of it |
| Coverage.SingleRangeImpliesSweepIff | crates/tqsdk-cache/src/main.rs:5486-5490 | the single-range test implies the sweeping test for every list of ranges if and only if the request is not empty |
| Coverage.SingleRangeIsExactWhenApart | crates/tqsdk-cache/src/main.rs:5486-5490 | on ranges that neither overlap nor touch, the single-range test is exact |
| Provisional.ProvisionalCompleteThrough | crates/tqsdk-cache/src/main.rs:5401-5443 | a mark is returned if and only if every closed part is cached, every open part has a mark and there is one; it is then the least of them; an error occurs exactly when the first symbol not to pass is one whose lookup fails |
| ProvisionalMarks.PassesMeans | crates/tqsdk-cache/src/main.rs:5408-5433 | a symbol lets the computation go on exactly when one cached range holds all instants of its range before the open day, and those in it are held by one or have a checkpoint |
| ProvisionalMarks.LookupFailsMeans | crates/tqsdk-cache/src/main.rs:5420-5431 | a checkpoint lookup can fail a fill only for instants of the open day that no single cached range holds |
| ProvisionalMarks.MarkIsLastComplete | crates/tqsdk-cache/src/main.rs:5401-5443 | the shared mark is the last instant up to which every open part goes and is held by one cached range or reached by its checkpoint |
| ProvisionalMarks.MarkStopsAtCheckpoint | crates/tqsdk-cache/src/main.rs:5434-5440 | a mark before the end of every open part is one that the checkpoint of some symbol does not pass, whose open part no single cached range holds |
| Provisional.MarkIsReached | crates/tqsdk-cache/src/main.rs:5401-5443 | up to the shared mark, or the end of its open part, every instant of every symbol is in final coverage or below its checkpoint |
| Provisional.ProvisionalFillCompleteIff | crates/tqsdk-cache/src/main.rs:5445-5454 | a provisional fill is complete if and only if every symbol passes, some open part exists and all of them reach, and are complete to, the requested instant; so a symbol whose range ends earlier inside the open day keeps it incomplete |
| ProvisionalMarks.CompleteFillMeans | crates/tqsdk-cache/src/main.rs:5445-5454 | a provisional fill is complete exactly when every symbol passes, some open part exists, and each goes as far as the requested instant and is held by one cached range or has its checkpoint there or later |
| Provisional.CompleteFillHasNoHole | crates/tqsdk-cache/src/main.rs:5445-5454 | a complete provisional fill leaves no instant of any symbol unaccounted for |
| Provisional.FillSymbolDayStats | crates/tqsdk-cache/src/main.rs:5456-5484 | planned, covered, missing and received count the window's days, those cached afterwards, the rest, and the saturating increase |
| ProvisionalMarks.InWindowMeans | crates/tqsdk-cache/src/main.rs:5463-5468 | a day counts as planned exactly when all of its instants lie in the window |
| ProvisionalMarks.DayCachedMeans | crates/tqsdk-cache/src/main.rs:5470-5475 | a day counts as covered exactly when one cached range holds all of its instants |
| Provisional.ReceivedDaysAreTheNewOnes | crates/tqsdk-cache/src/main.rs:5456-5484 | when a fill only adds coverage, the received count is the number of days newly covered |
| CalendarStore.StepKeepsInv | crates/tqsdk-cache/src/lib.rs:1641-1698 | every file-system step, failure or crash keeps: readable snapshot files are valid and match their names, and an active pointer names a complete one; what a failed write leaves behind is said by the two rows on failed writes |
| CalendarStore.ReadsNeverFail | crates/tqsdk-cache/src/lib.rs:519-549 | after any sequence of writes cut anywhere by crashes, reading succeeds; the active pointer, when present, names a complete valid snapshot of its hash |
| CalendarStore.ReadsAreGenuine | crates/tqsdk-cache/src/lib.rs:519-549 | whatever is on disk, a read returns nothing but the parsed content of the active file, valid and with the active hash |
| CalendarStore.TamperingIsNoticed | crates/tqsdk-cache/src/lib.rs:377-435 | a valid snapshot stops being valid when its schema, source, timestamp, first or last year, hash or holidays are tampered with |
| CalendarStore.DisorderIsNoticed | crates/tqsdk-cache/src/lib.rs:412-416 | holidays that do not strictly ascend are refused wherever they fail to |
| CalendarStore.PointerTamperingIsNoticed | crates/tqsdk-cache/src/lib.rs:477-500 | a pointer with another schema, or with a malformed hash or timestamp, is refused |
| CalendarStore.ValidSnapshotsAreDetermined | crates/tqsdk-cache/src/lib.rs:377-435 | the years of a valid snapshot span all its holidays, and an injective hash determines holidays and years |
| CalendarStore.ReadAfterWrite | crates/tqsdk-cache/src/lib.rs:555-584 | a read after a successful write returns the source, holidays and hash that were written |
| CalendarStore.OnlyRenameChangesReads | crates/tqsdk-cache/src/lib.rs:1667-1698 | no step but the rename of the pointer changes what a reader sees, so a crash shows the old or the new calendar |
| CalendarStore.StoredFilesAreImmutable | crates/tqsdk-cache/src/lib.rs:1641-1665 | a snapshot file that no writer is creating never changes and never disappears |
| CalendarStore.TornFileBlocksItsHash | crates/tqsdk-cache/src/lib.rs:1641-1665 | once a torn file stands under a hash, no later write passes the check of that hash and it is never activated |
| CalendarStore.CrashLeavesTornFile | crates/tqsdk-cache/src/lib.rs:1641-1665 | a crash right after the file of a free hash is created leaves it torn |
| CalendarStore.FailedWriteLeavesNoTrace | crates/tqsdk-cache/src/lib.rs:1651-1665 | a write that fails at any point before its file is synced leaves the store as it was |
| CalendarStore.FailedWritesLeaveNoTornFile | crates/tqsdk-cache/src/lib.rs:1641-1665 | unless a crash, or a file that cannot be removed again, comes while a file is being created, every stored file is complete whenever the writer is at rest, however many writes failed |
| CalendarStore.MismatchBlocksWrites | crates/tqsdk-cache/src/lib.rs:555-584 | while a torn file, or one with another source or other holidays, stands under a snapshot's hash, no run gets a write of that snapshot past the check |
| CalendarStore.WriteCanSucceedIff | crates/tqsdk-cache/src/lib.rs:555-584 | some run, with however many attempts, ends in a successful write of a snapshot if and only if its hash is free or the stored file is complete and has the same source and holidays |
| Calendars.Covers | crates/tqsdk-cache/src/lib.rs:153-179 | the two-pointer scan answers whether every date of a non-reversed interval is listed, on any valid calendar, and fails exactly on an invalid one |
| Calendars.TradingDaysBetween | crates/tqsdk-cache/src/lib.rs:181-202 | succeeds exactly when the calendar is valid and lists the whole interval, and returns in ascending order exactly its trading days |
| Calendars.Validate | crates/tqsdk-cache/src/lib.rs:377-435 | comparing neighbours accepts exactly the snapshots whose dates strictly ascend and that meet the other checks (schema, source, timestamp, at least one date, first and last year, content hash) |
| Calendars.WeekdaysWithoutHolidays | crates/tqsdk-cache/src/lib.rs:345-375 | succeeds exactly when the snapshot is valid and its years take in the non-reversed interval, and returns in ascending order exactly the dates of the interval that are neither weekend days nor holidays |
| Calendars.AscendingCalendarCountsDaySet | crates/tqsdk-cache/src/lib.rs:345-375 | counting against any such calendar is the size of the explicit day set |
| CommitLogs.RuntimeReader.constructor | crates/tqsdk-core/src/runtime/commit_log.rs:293-305 | a new log is empty and nothing has been trimmed |
| CommitLogs.RuntimeReader.Publish | crates/tqsdk-core/src/runtime/commit_log.rs:366-424 | the commit is appended to the history under the next revision and only entries from the front are dropped, however many |
| CommitLogs.RuntimeReader.Cursor | crates/tqsdk-core/src/runtime/reader.rs:190-197 | a new cursor stands behind the newest commit |
| CommitLogs.RuntimeReader.NextChecked | crates/tqsdk-core/src/runtime/commit_log.rs:162-175 | reports lag exactly when the wanted commit was trimmed; otherwise delivers the commit of that revision and moves past it, or nothing at the head |
| CommitLogs.RuntimeReader.Next | crates/tqsdk-core/src/runtime/commit_log.rs:182-200 | as above, but a lagging cursor is moved behind the head and gets nothing |
| Aggregation.AggregatedRuntimeReader.InsertSource | crates/tqsdk-core/src/aggregation.rs:44-55 | replaces the reader of a known name in place or appends; names stay unique, order and other sources unchanged |
| Aggregation.AggregatedRuntimeReader.RemoveSource | crates/tqsdk-core/src/aggregation.rs:57-63 | removes and returns the source of that name, if any, and keeps the order of the rest |
| Aggregation.AggregatedRuntimeReader.Cursor | crates/tqsdk-core/src/aggregation.rs:86-94 | a fresh cursor standing at the head of every source |
| Aggregation.AggregatedRuntimeReader.Next | crates/tqsdk-core/src/aggregation.rs:96-111 | one pass over the sources has the effect of the specified round: deliver from the first source that has a commit, creating or moving cursors up to it only |
| Aggregation.RoundProgress | crates/tqsdk-core/src/aggregation.rs:96-111 | a delivery lowers the total backlog, by exactly one when no source lags; getting nothing means the backlog is zero |
| Aggregation.EmptyBacklogIffDrained | crates/tqsdk-core/src/aggregation.rs:96-111 | the backlog is never negative, and zero if and only if every source is drained |
| AggregationRounds.RoundPerSource | crates/tqsdk-core/src/aggregation.rs:96-111 | a round leaves a source alone unless no source before it has a retained commit; a source it reaches delivers the commit at its cursor, stays at its head, or is moved past a trimmed gap |
| AggregationRounds.ReadEffect | crates/tqsdk-core/src/aggregation.rs:96-111 | an uninterrupted read delivers one source's next commit from the retained log, leaves a source alone, or skips a trimmed gap of a source it reaches |
| AggregationRuns.RunTracks | crates/tqsdk-core/src/aggregation.rs:96-111 | in every run of publishing, trimming, reordering and the steps of reads, each source's deliveries are in order, genuine and without repeats; commits are lost if and only if a read resynchronised the source |
| AggregationRuns.DeliveryIsLogSuffix | crates/tqsdk-core/src/aggregation.rs:44-111 | the commits delivered for a source are exactly its log from where the cursor started if and only if no read of the run resynchronised the source, whatever is published between the steps of the reads |
| AggregationRuns.SkippedIsTrimmed | crates/tqsdk-core/src/runtime/commit_log.rs:182-200 | a read resynchronises a source only while its next commit is trimmed, however long after it found it so |
| AggregationRuns.RetainedLogIsDelivered | crates/tqsdk-core/src/aggregation.rs:44-111 | a log that still retains the commit where the cursor started, and so every append-only log, is delivered exactly, in any interleaving |
| AggregationRuns.NothingMeansPassed | crates/tqsdk-core/src/aggregation.rs:96-111 | a read that returns nothing, whatever is published meanwhile, has passed every commit that the listed sources held when it began |
| AggregationRounds.UninterruptedReadIsRound | crates/tqsdk-core/src/aggregation.rs:96-111 | visiting the sources step by step, with nothing in between, does what one specified round does |
| AggregationRounds.NothingMeansDrained | crates/tqsdk-core/src/aggregation.rs:96-111 | when an uninterrupted read returns nothing, every listed source is at its head |
| Durations.LabelReadsBack | crates/tqsdk-cache/src/query.rs:1765-1792 | every duration from one nanosecond to the largest 64-bit value is printed in a form the duration parser reads back |
| Durations.LabelIsCoarsest | crates/tqsdk-cache/src/query.rs:1776-1792 | the label is in the coarsest unit from days to nanoseconds that divides the duration |
| Durations.LabelParsesIff | crates/tqsdk-cache/src/query.rs:2350-2385 | a number with the suffix of a unit is that many units, and refused exactly when that is zero or beyond 64 bits |
| Durations.OffsetUnitIsCoarsest | crates/tqsdk-cache/src/query.rs:1735-1756 | offsets are counted in the bar period if all rows lie on its grid, else in the coarsest calendar unit whose grid they lie on |
| Numerals.DecimalHasNoLeadingZero | crates/tqsdk-cache/src/query.rs:1776-1792 | no number is printed with a leading zero |
| Durations.SignedReadsBack | crates/tqsdk-cache/src/query.rs:495-498 | a printed offset is read back, whatever its sign |
| Durations.TimestampsAreRecovered | crates/tqsdk-cache/src/query.rs:1735-1763 | reference + printed offset x printed unit gives every row's timestamp exactly: the unit chosen always divides all offsets |

## Left out

Ledger:

- The legacy events (`apply_progress`, `apply_telemetry`, final reports), and with them replacing all scopes by a plan and marking single days received.
- Display-only fields: phase, retries, event sequence, latest day, inspection, planning text, elapsed time; and all terminal, plain-text and JSON rendering.
- Limits of 64-bit timestamps and of the date type in the day functions, and saturation of row sums: these are unbounded integers here.

JSONL protocol:

- A line cut short by a write error: the error ends the writer and the record counts as not written.
- JsonlProtocol.OutputIsOrderedAndTerminalIsLast: assumes, as the other protocol theorems do, that the revision counter has not saturated; RevisionIsFreshIff shows where that begins and SaturatedTerminalIsDropped what then fails.

Rendering and codecs:

- How row cells, headers, summaries and RFC 3339 timestamps are formatted, and which rows a focus mode calls important: rows, header and important rows are inputs, with the important rows in bounds.
- LlmRender.WriteRawOutput: models the branch that writes an LLM document, not the one that writes JSON lines, whose shape is left out.
- Sanitising of failure messages (messages are taken as already sanitised), write errors while emitting the document, float formatting.
- A character stands for one byte, so UTF-8 lengths are not modelled. Saturation is modelled in row selection and row allowances, not in byte and line sums.
- RenderShares.AllowancesAreByWeight: assumes that neither residual x weight nor rows x share saturates; the model itself saturates there.
- A decimal position of exactly the smallest 32-bit integer, whose negation overflows in the code, is taken as "no expansion".

Coverage and calendars:

- The checkpoint lookup of a provisional fill is an input: an error, nothing or an instant.
- `CalendarStore` takes the content hash, the hash syntax, the year of a date and the timestamp syntax as parameters, and takes it that cut-off JSON does not parse. Loss of power, concurrent writers and left-over temporary files are not modelled.
- Parsing of date strings, and which check of a calendar failed: an invalid calendar is one error. Binary search in the holiday list is membership. A `Calendars` calendar is its list of days, without the schema and source fields.

Aggregated cursor:

- Retention by bytes: how many entries are kept is arbitrary, which includes every byte policy.
- Telemetry, notifications and snapshot reads of the readers. `AggregationRuns` has one aggregated cursor and keeps each source name bound to one reader; replacing a reader under its name is modelled for `InsertSource` only.

Not modelled at all: network, authentication, session clients, file locks, the cache file encodings, tick migration, the adapter registry, command line parsing.
