# Call metrics pipeline

A telephony monitoring service polls a vendor for the calls of each monitored number (an exophone),
and keeps one snapshot row per exophone and IST day. Polling windows overlap on purpose, runs fail,
and operators can rebuild a day by backfill (fetch the whole day again) or by reprocess (read the
saved response pages again). This project models that pipeline in Dafny and proves what the row then
means: which calls it counts, how often, and how the running row relates to a recomputation from
scratch.

## How the model is built

| module | part of the system |
|---|---|
| `Text`, `Records` | text helpers, call records, call_logs rows, timestamps |
| `Breakdowns`, `Hourly` | the nested leg-status map and the hourly slots, their stored forms and merges |
| `Counting`, `Engine`, `EngineLaws` | the metrics engine: meaning of each counter, the pass over a batch, laws of the summary |
| `Snapshots`, `SnapshotLaws` | the daily row: accumulation, overwrite, decimal columns, drift |
| `Dedup` | the per-day Sid set and the filter on it |
| `SqlLiteral`, `CallLogs` | the printed INSERT IGNORE statement, its reading by the server, the table |
| `Pagination`, `Retry`, `Windows` | page cursors, retries with back-off and alerts, fetch windows of a day of runs |
| `Pipeline`, `PipelineLaws`, `Refinement`, `ExactlyOnce` | live jobs, backfill and reprocess on one shared state, and whole runs of them |
| `Overlap` | live jobs, backfills and reprocesses of one exophone that overlap, as interleaved atomic steps |
| `Pool`, `BulkBackfill` | the bounded goroutine pool and the bulk backfill run, as interleaved atomic steps |
| `Reals` | arithmetic facts over `real` |

Code that changes state step by step is a class or a loop here too (`SidCache`, `SnapshotTable`,
`CallLogTable`, `Platform`, `WorkerPool`, `Progress`, and the methods of `Engine`, `Breakdowns`,
`Pagination` and `Retry`); each method is proved against a specification function, and the laws are
about those functions. Every counter has one reference meaning, `Count(vn, feature, records)`: how
many records of a list have a feature; what the features, rates, windows, filters and retries mean in
the words of the data is stated beside them, without the functions that compute them (`EngineLaws.StatusBuckets`,
`SnapshotLaws.RatesOfARow`, `Windows.ComputeWindow`, `Pipeline.CollectedByNumber`, `Pipeline.RetriesDecide`,
`Pagination.AnswersAreFetched`, `BulkBackfill.RecordTellsWhatHappened`). Concurrent parts are step relations whose theorems quantify
over all interleavings.

Times are whole seconds, `float64` is `real`, a two-decimal column rounds to the nearest hundredth
with halves away from zero (`Round2`). The vendor, the clock, the jitter, how far a pipeline to the
cache gets (`Link`) and the moments at which a context cuts a wait short are parameters. In the run theorems of
`PipelineLaws`, `Refinement` and `ExactlyOnce` the handlers and jobs of one exophone are atomic and
follow each other. The code takes no lock that would ensure this, and a slow job stays due and is
dispatched again; `Overlap` proves what is left when they interleave: which steps can make a call
count twice, and exactly what is lost.

In the run theorems a *clean* event has a reachable cache and, for a backfill, a fetch without
repeated Sids. `Elsewhere` stands for all work on other exophones and days; a backfill or reprocess
of an earlier day puts its Sids into the set of the day on which it runs.

## What the code does not give

Each of these has a lemma with the exact condition, or a witness.

- Connected calls depend on how a day is cut into batches (`EngineLaws.ConnectedLaw`,
  `EngineLaws.PanelCallSplitInTwo`), and so AnswerRate can exceed 100, for instance in
  `SnapshotLaws.AnswerRateOf200`: before it is stored exactly when `EngineLaws.AccumulatedAnswerRate` says,
  and in the column, which rounds, exactly when `SnapshotLaws.StoredRates` says.
- DropRate exceeds 100 before it is stored exactly when leg-1 records charged to leg 2 outnumber the
  undropped leg-2 records (`EngineLaws.RateBounds`), and in the column exactly when
  `SnapshotLaws.StoredRates` says; for instance in `SnapshotLaws.DropRateOf200`.
- The stored average drifts (`SnapshotLaws.DriftHappens`, bounded by `SnapshotLaws.DriftBound`) unless the
  true mean is a whole number of hundredths after every batch, and only then it does not
  (`SnapshotLaws.NoDriftIffWhole`).
- A job that meets a cache failure counts calls without registering them, and the overlap makes the next
  job count them again (`PipelineLaws.OutageCountsTwice`). The row repeats no Sid if and only if no event
  since its last overwrite brings a repeat (`PipelineLaws.RowRepeatsExactly`,
  `PipelineLaws.LiveRunRepeatsExactly`).
- A failed or slow run moves last_run_at, so the next window starts after calls that were never
  fetched (`Windows.NextRunClosesTheGap`, `ExactlyOnce.LateRunsLoseCalls`).
- Calls created after the last counted end of a day and before midnight are never fetched by live jobs
  (`Windows.EveningIsLost`).
- Overlapping live jobs lose calls (`Overlap.OverlapLosesACall`): a store drops exactly what its job had
  not read (`Overlap.StoreLosesUnreadCalls`), and over a whole run nothing is lost if and only if every
  job with calls to store finds the row as it read it (`Overlap.LiveJobsLoseNothingIffFenced`).
- A live job that filters between the overwrite of a backfill and its registration can count calls
  twice: `PipelineLaws.RegisteringLateCountsTwice` for one such pair, `Overlap.AtMostOnce` and
  `Overlap.CarelessStepsCountTwice` for every interleaving. The comment at
  internal/workers/job_worker.go:596-597 covers only backfills that have already registered.
- Replies such as 404 end a job successfully although nothing was read (`Pipeline.SilentSuccess`).
- A negative retry limit reports success without any call (`Retry.SuccessMeansLastCallSucceeded`).
- RETRY_EXHAUSTED is also raised for a last call that is not retryable and for a context that ends
  the job at the limit (`Retry.ExhaustedAlert`).
- A chain of more than 500 pages is cut and reported as a success (`Pagination.WholeChainIsFetched`).
- Reprocess also counts calls that no live job counted: those on readable pages before an unreadable
  2xx page, which ends a chain and fails the job (`Refinement.AbandonedPageIsCounted`). It changes
  TotalCalls if and only if there is such a call, and by their number
  (`Refinement.ReprocessAddsUncountedCalls`).
- A chain interrupted in any other way leaves nothing for reprocess: its pages are saved under the
  status that ended it, or not at all after a transport error (`Refinement.WhatAbandonedChainsSave`,
  `Refinement.OtherStatusesSaveNothing`), so the promise of internal/workers/job_worker.go:393-395, that
  reprocess can reconstruct an interrupted job, holds only for unreadable pages.
- Merging two breakdown columns rewrites an undecodable text, while the shortcut leaves it alone
  when nothing comes in (`Breakdowns.ShortcutAgrees`).
- The engine's number normalisation tells two spellings of a number apart when the number starts
  with 91; the one used by reprocess does not (`Text.EngineSpellings`, `Text.FilterSpellings`).
- Wait may return while a Submit that already holds a slot is still under way
  (`Pool.WaitMissesUnreturnedSubmit`); a Wait waits for exactly the functions that are past wg.Add when
  it begins (`Pool.WaitCoversExactlyThePastAdd`).
- The bulk progress record shows the previous run's Total at first (`BulkBackfill.StaleTotal`).

Where comments and code differ, the model follows the code: internal/metrics/engine.go:106-107 give
DropRate and Leg1DropRate a denominator of Total, the code divides by the leg totals;
internal/handlers/backfill.go:314-315 promise one pair at a time, the code runs three workers;
internal/workers/job_worker.go:335-336 name an upsert as what absorbs duplicates, the code relies on
the Sid set.

## Model

| member | source | states |
|---|---|---|
| `ExactlyOnce.CallsAreCountedExactlyOnce` | internal/workers/job_worker.go:337-354 | Over every day of serial jobs whose counted runs are in time, every call created between the start of the first counted window and the end of the last is in the row once, nothing else is, and TotalCalls is the number of those calls; fetches may overlap, repeat calls and fail |
| `ExactlyOnce.LateRunsLoseCalls` | internal/workers/job_worker.go:350-354 | If some counted run of a day is late, there is a second between those two ends such that no day of live jobs with these runs counts a call created at it |
| `ExactlyOnce.CoveredCallsAreCounted` | internal/workers/job_worker.go:435-444 | Over every such day, late or not, the Sids in the row and in the dedup set are exactly those of the calls that a counted window covers |
| `ExactlyOnce.RunDay` | internal/workers/dispatcher.go:11-33 | The running system executes a day of jobs against a truthful vendor: the object state ends as the event run does, each tick has the window computed from the stored last_run_at, and exactly-once follows for TotalCalls |
| `Refinement.ReprocessConfirmsTheLiveRow` | internal/handlers/reprocess.go:60-169 | Fast form refines slow form: on any day of live jobs, failed ones included, that leaves no saved call uncounted and saves first copies as counted, reprocessing counts the same records and leaves every column as accumulated, except Connected, which drops by the unpaired leg-1 records, and the average, which moves by at most half a cent per batch plus one |
| `Refinement.ReprocessAddsUncountedCalls` | internal/handlers/reprocess.go:60-169 | Exact law over every day of live jobs, failed ones included: after reprocess the row counts the Sids of all saved calls; counted Sids and TotalCalls stay if and only if no saved call went uncounted, and otherwise TotalCalls rises by their number |
| `Refinement.AbandonedPageIsCounted` | internal/exotel/calls.go:97-107 | Witness: one good page, then an unreadable 2xx page; the live row counts nothing and reprocess counts one call |
| `Refinement.OnePageIsSaved` | internal/exotel/calls.go:97-107 | The fetch of that witness is what the cursor loop returns, and the job that gets it fails |
| `Refinement.WhatAbandonedChainsSave` | internal/workers/job_worker.go:393-414 | A fetch without a response leaves reprocess the pages before an unreadable 2xx page, and nothing in every other case |
| `Refinement.OtherStatusesSaveNothing` | internal/exotel/calls.go:86-95 | A chain cut by a status outside 2xx leaves reprocess nothing, however many pages it read |
| `Refinement.ThoroughDaysSaveWhatTheyCount` | internal/workers/job_worker.go:393-442 | If every job counted its records or saved no readable page, the pages hold exactly what was counted |
| `Refinement.SettledCallsKeepTheirContent` | internal/handlers/reprocess.go:60-90 | If the vendor never changes a call it has reported, first saved copies are the counted ones |
| `Refinement.ReprocessSeesEverySavedCall` | internal/handlers/reprocess.go:60-90 | The number filter keeps the first copies of all saved calls if and only if each has the number as PhoneNumber, To or From |
| `Refinement.CollectedIsCounted` | internal/handlers/reprocess.go:60-90 | Reprocess collects exactly the counted records, in some order, if and only if no saved call went uncounted and first copies are saved as counted |
| `EngineLaws.SummaryOfSameRecords` | internal/metrics/engine.go:116-327 | The summary of records without repeated Sids does not depend on their order |
| `Refinement.LiveDay` | internal/workers/job_worker.go:393-442 | After a day of live jobs, failed ones included, the row counts the first occurrences of everything fetched, the set holds their Sids and the pages hold everything saved |
| `Refinement.CountedRecordsAreSaved` | internal/workers/job_worker.go:397-406 | The pages saved by a job that counted its records hold exactly those records |
| `Refinement.RegisteredSidsAreSaved` | internal/repository/snapshot_repo.go:566-589 | Every Sid registered by live jobs, same-day backfills and reprocesses from pages is on a page that reprocess reads, also when the row no longer counts it |
| `Refinement.ReprocessCompletesTheDay` | internal/handlers/reprocess.go:29-175 | After any clean mix of live jobs (also failed ones), backfills and reprocesses from pages, a reprocess makes the row count exactly the registered Sids, if all saved records mention the number |
| `Refinement.ReprocessWritesTheMentioned` | internal/handlers/reprocess.go:60-163 | If a readable page holds a call of the number, the new row counts each such call once and no other |
| `Refinement.ReprocessFallsBack` | internal/handlers/reprocess.go:92-115 | If none does, the new row counts exactly the Sids stored in call_logs for that exophone and date, and without any nothing changes |
| `PipelineLaws.EveryCallOnce` | internal/workers/job_worker.go:599-615 | Over every run mixing live jobs, backfills, reprocesses and work for other days with the cache up: no Sid twice in the row, all of them registered, TotalCalls is the number of different Sids |
| `PipelineLaws.StepKeepsCountedOnce` | internal/handlers/backfill.go:196-245 | Each kind of step keeps that invariant and only adds to the dedup set |
| `PipelineLaws.RowAlwaysFaithful` | internal/snapshots/generator.go:67-161 | Over every run, with or without the cache, every column of the row is what its counted records say and the average is within the drift bound |
| `PipelineLaws.StepKeepsRowFaithful` | internal/snapshots/generator.go:94-161 | Each kind of step keeps the row in agreement with the records it stands for |
| `PipelineLaws.LastOverwriteDecides` | internal/handlers/reprocess.go:123-175 | At the end of a clean run the row counts exactly the registered Sids if and only if the last overwrite covered every Sid registered before it, when no other day's Sids were put in after it |
| `PipelineLaws.StepKeepsComplete` | internal/handlers/backfill.go:234-245 | One step: accumulation keeps row and set equal or unequal; an overwrite makes them equal exactly when it covers the set |
| `PipelineLaws.LiveOnlyIsComplete` | internal/workers/job_worker.go:435-491 | Without overwrites, and without Sids put in by work for other days, the row always counts exactly the registered Sids |
| `PipelineLaws.CountingWithoutTheCache` | internal/cache/dedup.go:53-59 | The one job that meets a cache failure, however far the pipeline got: it counts all it fetched, and the row stays free of repeats exactly when the fetch repeats nothing and brings nothing already counted |
| `PipelineLaws.RowRepeatsExactly` | internal/workers/job_worker.go:599-615 | Exact law over every run from any day, with any mix of events and cache failures: the row repeats no Sid if and only if its last overwrite has no repeat and every later job with the cache up shares only registered calls with the row, every one without it brings distinct calls that the row does not hold |
| `PipelineLaws.LiveRunRepeatsExactly` | internal/workers/job_worker.go:599-615 | For live jobs alone: the row repeats no Sid if and only if every single job brings no repeat |
| `PipelineLaws.LiveStepRepeats` | internal/workers/job_worker.go:599-615 | One job with any cache: distinct before and no repeat brought, if and only if distinct after |
| `PipelineLaws.OutageCountsTwice` | internal/cache/dedup.go:53-59 | Witness: a job without the cache, then one with it, over the same call; the first brings no repeat and the row counts the call twice |
| `PipelineLaws.RegisteringLateCountsTwice` | internal/handlers/backfill.go:234-245 | Between overwriting the row and registering its Sids a live job counts calls twice exactly when it shares unregistered calls with the new row |
| `PipelineLaws.OutageRegistersTheFirst` | internal/cache/dedup.go:46-59 | A pipeline that breaks after n commands leaves the first n fetched Sids in the set |
| `PipelineLaws.LiveJobsSaveTheirReply` | internal/workers/job_worker.go:393-414 | A job, counted or not, saves the pages of its last call under its status, else the raw reply |
| `PipelineLaws.BackfillsNeedASuccess` | internal/handlers/backfill.go:141-249 | A fetch that failed or ended outside 2xx changes nothing; any other is saved and makes the row count exactly what it brought |
| `PipelineLaws.CountedCallsAreLogged` | internal/workers/job_worker.go:443-447 | Everything a live job adds to the row is in call_logs, whose old rows stay; with logging off the table does not change |
| `PipelineLaws.OverwrittenCallsAreLogged` | internal/handlers/reprocess.go:123-129 | The same for everything an overwritten row counts |
| `Overlap.AtMostOnce` | internal/workers/job_worker.go:435-491 | Over every interleaving of careful steps of live jobs, backfills and reprocesses (filter, read, store; overwrite, register) the row counts no call twice and TotalCalls is the number of its Sids |
| `Overlap.CarelessStepsCountTwice` | internal/handlers/backfill.go:234-245 | And only then: after a careless filter or overwrite the others can go on so that the row counts a call twice |
| `Overlap.LiveJobsCountAtMostOnce` | internal/workers/job_worker.go:435-491 | Over every interleaving of any number of live jobs alone the row counts no call twice and only registered ones |
| `Overlap.StoreLosesUnreadCalls` | internal/snapshots/generator.go:80-161 | A store loses exactly the registered calls of the row that its job had not read and no job holds, and restores the lost ones it had read |
| `Overlap.OverwriteLosesUncoveredCalls` | internal/handlers/reprocess.go:123-163 | The same for an overwrite and the calls it does not bring |
| `Overlap.RegisteringLosesDroppedCalls` | internal/handlers/reprocess.go:170-175 | Registering loses exactly the calls that a store has meanwhile dropped from the row |
| `Overlap.OtherStepsLoseNothing` | internal/workers/job_worker.go:599-615 | No other step loses a call |
| `Overlap.FencedStepsLoseNothing` | internal/snapshots/generator.go:80-161 | With backfills and reprocesses too: if no job with calls to store finds the row changed, overwrites bring every registered call and registrations find theirs in the row, nothing is lost |
| `Overlap.LiveJobsLoseNothingIffFenced` | internal/snapshots/generator.go:80-161 | Exact law over every interleaving of live jobs: once all are through, the row counts exactly the registered calls if and only if every job with calls to store found the row as it had read it |
| `Overlap.UnfencedStoreFallsBehind` | internal/snapshots/generator.go:80-161 | The first store onto a changed row leaves the row and every row read before without some registered call that no job holds |
| `Overlap.BehindStays` | internal/snapshots/generator.go:80-161 | No later step of a live job makes up for it |
| `Overlap.OverlapLosesACall` | internal/workers/dispatcher.go:24-33 | Witness: two jobs that both read before either stores lose the first one's call for good |
| `Overlap.StoreAccumulates` | internal/snapshots/generator.go:80-161 | Storing onto the columns read is the accumulation of the batch onto them |
| `Overlap.OverwrittenColumns` | internal/handlers/reprocess.go:123-163 | A row written from scratch has the columns of the summary of its records |
| `Overlap.StepKeepsInv` | internal/workers/job_worker.go:435-491 | A careful step keeps pending batches disjoint from each other, from the row they have yet to read and from the rows read before |
| `Pipeline.Platform.ExecuteCalls` | internal/workers/job_worker.go:326-507 | The whole job on the object state: retries, saved pages, filter, call_logs, accumulation give LiveStep of the old day; a failed job changes nothing but the saved pages; exactly one of the two retry alerts on failure and neither on success; after n <= MaxRetries server or transport errors and no wait cut short, the next reply decides, and a 2xx page then means n + 1 calls, success and no alert; no other exophone or day changes |
| `Pipeline.Platform.CountRecords` | internal/workers/job_worker.go:435-491 | The counting half: dedup set, row and call_logs after filtering, processing and accumulating |
| `Pipeline.Platform.ExecuteJob` | internal/workers/job_worker.go:116-132 | The window comes from the stored job row and is the one of `Windows.WindowHoldsTheWanted`; last_run_at and next_run_at move on success and on failure alike |
| `Pipeline.Platform.AdvanceNextRun` | internal/repository/job_repo.go:24-34 | last_run_at, next_run_at and the status of one job row; unknown jobs change nothing |
| `Pipeline.Platform.BackfillExophoneSnapshot` | internal/handlers/backfill.go:141-249 | A usable fetch is saved, the row overwritten and the Sids registered in the set of the day on which it runs; an unusable one changes nothing |
| `Pipeline.Platform.Overwrite` | internal/handlers/reprocess.go:103-175 | Replacing a row by the summary of a record list and registering its Sids, with the frame: other days change only in that set and in call_logs |
| `Pipeline.Platform.CollectRecords` | internal/handlers/reprocess.go:60-90 | The nested page loop returns the first occurrences, in order, among the filtered records of the readable 2xx pages: each Sid once, those of exactly the calls whose PhoneNumber, To or From has the canonical form of the number; for a ten-digit number every call in which one of the three is any spelling of it is collected by Sid, and no call in which none is |
| `Pipeline.CollectedByNumber` | internal/handlers/reprocess.go:60-90 | The same of the record list that all reprocess laws speak about |
| `Pipeline.CollectedInEverySpelling` | internal/handlers/reprocess.go:73-85 | The spelling law for any list collected by number |
| `Pipeline.Platform.ReprocessExophoneSnapshot` | internal/handlers/reprocess.go:29-212 | Overwrites from the saved pages, else from the stored rows of the day, else reports that there is no data; `Refinement.ReprocessWritesTheMentioned` and `Refinement.ReprocessFallsBack` say from which calls |
| `Pipeline.SilentSuccess` | internal/workers/job_worker.go:376-391 | A job reports success without any page read exactly for replies outside 2xx below 500 other than 401, 403 and 429 |
| `Pipeline.AttemptClasses` | internal/workers/job_worker.go:366-391 | A reply is tried again if and only if the fetch failed or its status is at least 500, and given up if and only if it did not fail and its status is 401, 403 or 429 |
| `Pipeline.RetriesDecide` | internal/workers/job_worker.go:366-391 | The retry laws of ExecuteCalls in terms of the replies, also beyond the limit: MaxRetries + 1 such errors end the job with an error |
| `Pipeline.CountRetries` | internal/workers/job_worker.go:374-388 | The retry counter is the number of calls that failed retryably |
| `Windows.ComputeWindow` | internal/workers/job_worker.go:337-354 | The window covers exactly the seconds up to now that are of the same IST day, at most four periods back, and at most one period back on a first run or one minute before last_run_at on a later one |
| `Windows.WindowHoldsTheWanted` | internal/workers/job_worker.go:337-354 | The same of the window that all run laws speak about |
| `Windows.StartOfTheDay` | internal/workers/job_worker.go:343-354 | When the first run of a day counts, the counted stretch starts as far back as that run may look: one period without an earlier run, else a minute before it, within the day and four periods |
| `Windows.GapFreeIffInTime` | internal/workers/job_worker.go:331-354 | Over every serial run, of any number of days, the counted windows form one interval without gaps if and only if every counted run comes within 4 periods (and a second) of the previous counted end, finds last_run_at at most 61 s after it, and has no midnight in between that leaves a second before it |
| `Windows.EveningIsLost` | internal/workers/job_worker.go:349-351 | Seconds between the last counted end of a day and the next midnight are covered by no window of that or any later run |
| `Windows.SkippedForGood` | internal/workers/job_worker.go:337-354 | A second that a counted run leaves behind is covered by no later run |
| `Windows.WindowsStayInTheirDay` | internal/workers/job_worker.go:338-351 | A window covers only seconds of the IST day it ends on |
| `Windows.StartsMoveForward` | internal/workers/job_worker.go:337-354 | No window starts before an earlier one |
| `Windows.InTimeMeansTouching` | internal/workers/job_worker.go:345-354 | One run: in time exactly when its window starts at most one second after the previous counted end |
| `Windows.RunShape` | internal/workers/job_worker.go:337-354 | Window starts move forward, and nothing outside the stretch from first start to last end is covered |
| `Windows.LateLeavesGap` | internal/workers/job_worker.go:352-354 | A late run leaves a second that no window of the day covers |
| `Windows.NextRunClosesTheGap` | internal/repository/job_repo.go:24-34 | The seconds since the last counted end are covered by the next counted run if and only if that run is in time, however many runs failed in between |
| `Windows.FailedRunLosesItsWindow` | internal/repository/job_repo.go:26-33 | Success, failure, success: calls are lost unless the failed run ended within 61 s of the first fetch, the next one came within 4 periods, and no midnight lies in between |
| `Windows.PromptRunsAreInTime` | internal/workers/job_worker.go:337-354 | Runs of one day that all succeed, finish within 60 s of their `to` and follow each other within 4 periods are in time |
| `Windows.MidnightIsEarlier` | internal/workers/job_worker.go:338-339 | The cap is the start of the IST calendar day of `to` |
| `Engine.ProcessCallRecords` | internal/metrics/engine.go:116-327 | The summary and the call logs of any batch, each counter, rate, average, hour and peak stated through how many records have which feature; in the words of the records themselves: `EngineLaws.StatusBuckets`, `EngineLaws.CompletedCalls`, `EngineLaws.LegTotals`, `EngineLaws.LegStatusCells`, `EngineLaws.HourlySlots`, `EngineLaws.RatesOfABatch` and `EngineLaws.LogsCarryTheRecords` |
| `Engine.TallyRecords` | internal/metrics/engine.go:123-252 | The accumulating loop computes all counts, the hourly slots, the nested map and the rows |
| `Engine.CountStatus` | internal/metrics/engine.go:166-219 | The status switch adds one to the bucket of the record's outcome and to nothing else; `EngineLaws.StatusBuckets` and `EngineLaws.CompletedCalls` say which words and durations that is |
| `Engine.CountLegStatuses` | internal/metrics/engine.go:223-240 | The two leg-status switches, with both spellings of no-answer and canceled |
| `Engine.CountRecord` | internal/metrics/engine.go:158-240 | One record adds exactly its own contribution to the counters |
| `Counting.LegRules` | internal/metrics/engine.go:38-63 | Direction counts in any capitalisation; when it is unknown any spelling of the monitored number is recognised, unless that starts with 91, when the trunk spelling is put on the other leg |
| `Text.EngineSpellings` | internal/metrics/engine.go:58-63 | The four usual spellings of a subscriber number normalise alike if and only if the number does not start with 91 |
| `Text.NormaliseTakesOffPrefixes` | internal/metrics/engine.go:58-63 | An optional +91, then an optional 91, then an optional 0 come off, each once |
| `Text.FilterSpellings` | internal/utils/phone.go:16-41 | The canonical form used by reprocess is the same for all spellings of any ten-digit number |
| `Text.CanonicalForm` | internal/utils/phone.go:16-41 | Ten digits, alone or after 91 or 091, give the last ten after a zero; any other digits stay; no digits give the empty text |
| `Text.LowerCaseIgnoresCapitals` | internal/metrics/engine.go:172-174 | Two texts lower-case alike if and only if they differ in capitals only |
| `Counting.EveryCallIsCountedOnce` | internal/metrics/engine.go:158-219 | Each record is on one leg and in one disposition |
| `Counting.CountConcat` | internal/snapshots/generator.go:94-109 | Every counter is additive over batches |
| `Counting.CountersConcat` | internal/snapshots/generator.go:94-116 | All counters of two batches together are the sums of the two |
| `Counting.BatchMarginals` | internal/metrics/engine.go:223-251 | The breakdown cells sum to Total, leg-1 counters are its row sums and leg-2 counters its column sums |
| `Counting.MarginalsAdd` | internal/snapshots/generator.go:110-117 | Adding counters and merging maps keeps that |
| `Counting.BreakdownCells` | internal/metrics/engine.go:242-251 | Each cell counts the records with that pair of leg statuses |
| `Counting.BreakdownConcat` | internal/metrics/engine.go:242-251 | The map of two batches is the merge of their maps |
| `Counting.HistConcat` | internal/snapshots/generator.go:126-134 | The hourly slots of two batches are the sums of theirs |
| `Counting.HistCountsTimed` | internal/metrics/engine.go:146-156 | The 24 slots sum to the records that carry a start or creation time |
| `Hourly.FindPeak` | internal/metrics/engine.go:295-302 | The peak scan finds the least hour of a maximum |
| `Hourly.PeakIsUnique` | internal/snapshots/generator.go:137-145 | There is only one such hour |
| `Hourly.SlotsReadBack` | internal/snapshots/generator.go:126-134 | Written slots read back; a column never written, or broken, counts as no calls |
| `EngineLaws.Conservation` | internal/metrics/engine.go:158-265 | Leg totals sum to Total; Connected, drops, failed, no-answer, busy, canceled, other and the removed agent halves sum to Total |
| `EngineLaws.StatusBuckets` | internal/metrics/engine.go:166-219 | On every batch Failed, Busy, NoAnswer, Canceled and Other are the numbers of records whose status is, in any capitalisation, failed, busy, one of the two spellings of no-answer, one of the two of canceled, or none of these nor completed |
| `EngineLaws.CompletedCalls` | internal/metrics/engine.go:176-265 | On every batch, for completed records: Connected is the number with a conversation, of the customer side only when there is one; DroppedLeg1 the agent-side records without a conversation and without a leg-2 status; DroppedLeg2 all others without a conversation |
| `EngineLaws.LegTotals` | internal/metrics/engine.go:38-63 | Leg1Total is the number of records without a parent that are inbound, outbound or to the monitored number, Leg2Total the number of all others |
| `EngineLaws.LegStatusCells` | internal/metrics/engine.go:242-251 | Each cell of the summary's breakdown is the number of records whose two lower-cased leg statuses are its keys |
| `EngineLaws.HourlySlots` | internal/metrics/engine.go:146-156 | Each hourly slot is the number of records whose start time, else creation time, is written with that hour; unparseable text is hour 0 |
| `EngineLaws.DurationsAreSummed` | internal/metrics/engine.go:164 | The duration total is the sum of the durations |
| `EngineLaws.LogsCarryTheRecords` | internal/metrics/engine.go:129-162 | Every call_logs row repeats its record field by field under the job's transaction, account and exophone, with its leg and its parsed times |
| `EngineLaws.HourlyIndex` | internal/metrics/engine.go:433-443 | Hourly slots and peak of every summary; a record with an unparseable time is counted, in hour 0 |
| `EngineLaws.ConnectedLaw` | internal/metrics/engine.go:263-265 | Exact law: accumulated minus whole-list Connected is 0 without leg-2 records, else the connected leg-1 records of batches without a leg-2 record; equal if and only if that number is 0 |
| `EngineLaws.AccumulatedConnectedSplits` | internal/snapshots/generator.go:100 | What accumulation adds up for Connected: the leg-2 ones plus the unpaired leg-1 ones |
| `EngineLaws.PanelCallSplitInTwo` | internal/metrics/engine.go:260-265 | Witness: one bridged panel call counts once in one batch and twice when its records arrive in two |
| `EngineLaws.RateBounds` | internal/metrics/engine.go:267-293 | Connected lies between 0 and its denominator; AnswerRate, Leg1DropRate and Leg2DropRate are percentages; DropRate is one if and only if leg-1 records charged to leg 2 do not outnumber the undropped leg-2 records |
| `EngineLaws.RatesOfABatch` | internal/metrics/engine.go:267-293 | Every rate of a batch is 100 times its numerator over its denominator: Connected and DroppedLeg2 over the leg-2 records when there are any, else over all; DroppedLeg1 over the leg-1 records; Leg2DropRate over all; zero for an empty batch |
| `EngineLaws.AccumulatedAnswerRate` | internal/snapshots/generator.go:147-157 | The day's AnswerRate, before it is stored, is a percentage if and only if unpaired leg-1 records do not outnumber unconnected leg-2 ones |
| `SnapshotLaws.StoredRates` | internal/snapshots/generator.go:147-157 | The stored AnswerRate and DropRate are percentages if and only if there is no leg-2 record or 20000 times their numerator is below 20001 times the leg-2 records |
| `SnapshotLaws.AnswerRateOf200` | internal/snapshots/generator.go:147-157 | Witness: one bridged call whose halves arrive in two batches gives an AnswerRate of 200 |
| `SnapshotLaws.DropRateOf200` | internal/metrics/engine.go:274-281 | Witness: a leg-1 drop charged to leg 2 beside a dropped leg-2 record gives a DropRate of 200 |
| `EngineLaws.DropBounds` | internal/metrics/engine.go:192-207 | How drops split over legs and their bounds |
| `EngineLaws.CallLogRoundTrip` | internal/handlers/reprocess.go:214-233 | Records to rows and back: processing again gives the same summary |
| `EngineLaws.RereadIsStoredAndRebuilt` | internal/handlers/reprocess.go:214-233 | Exactly what a record loses on that trip: phone number, creation and end time, recording, and the offset of its start |
| `EngineLaws.RereadKeepsFeatures` | internal/metrics/engine.go:129-162 | No counted feature depends on what is lost |
| `EngineLaws.ParsedTimes` | internal/metrics/engine.go:433-443 | A time without an offset is read as IST, one with an offset keeps it |
| `Snapshots.SnapshotTable.AccumulateCallMetrics` | internal/snapshots/generator.go:67-162 | The new row is the stored accumulation of the old row (or of the empty one); an empty batch writes nothing; other rows stay; `SnapshotLaws.FoldRepresents` and `SnapshotLaws.RatesOfARow` say what it then holds |
| `Snapshots.SnapshotTable.Upsert` | internal/repository/snapshot_repo.go:12-65 | Every column of one row is replaced, decimals rounded by the column |
| `Snapshots.AddSlots` | internal/snapshots/generator.go:127-133 | Slot-wise addition of the hourly arrays |
| `SnapshotLaws.FoldRepresents` | internal/snapshots/generator.go:94-161 | After any run of batches every column but the average equals the one computed from all records at once; `SnapshotLaws.RatesOfARow` gives the rates of such a row by their denominators |
| `SnapshotLaws.RatesOfARow` | internal/snapshots/generator.go:147-161 | On any row that stands for its records, however cut into batches: AnswerRate and SuccessRate are, to two decimals, 100 times Connected over the leg-2 records, or over all when there is none; DropRate likewise of DroppedLeg2; Leg1DropRate of DroppedLeg1 over the leg-1 records |
| `SnapshotLaws.DayConservation` | internal/snapshots/generator.go:94-145 | On any row that stands for its records: leg totals sum to Total, dispositions and the uncounted agent halves sum to Total, DroppedCalls is the sum of its parts, leg counters are marginals, slots sum to the timed records, PeakHour is the least busiest hour |
| `SnapshotLaws.AccumulateRepresents` | internal/snapshots/generator.go:94-161 | One accumulation keeps that |
| `SnapshotLaws.OverwriteRepresents` | internal/handlers/reprocess.go:123-156 | A row written from scratch has the same relation to its one list |
| `SnapshotLaws.RowsAgree` | internal/snapshots/generator.go:94-161 | Two rows over the same records, cut differently, agree on all columns but the average and what follows from Connected, which differs by the unpaired records |
| `SnapshotLaws.AccumulateAverage` | internal/snapshots/generator.go:119-124 | One store adds half a cent of error for each call counted so far |
| `SnapshotLaws.DriftBound` | internal/snapshots/generator.go:119-124 | After k batches the stored average is within 0.005 k of the true one |
| `SnapshotLaws.DriftStep` | scripts/init.sql:246 | The error step for arbitrary totals and batch sizes |
| `SnapshotLaws.UnroundedAverageIsExact` | internal/snapshots/generator.go:119-124 | Without rounding the reconstructed duration total is exact |
| `SnapshotLaws.UnroundedAverage` | internal/snapshots/generator.go:119-124 | Without rounding the average is the duration total over the number of calls |
| `SnapshotLaws.DriftHappens` | scripts/init.sql:246 | Witness: 0.34 is stored where the whole list gives 0.33 |
| `SnapshotLaws.NoDriftIffWhole` | internal/snapshots/generator.go:119-124 | Exact law: the stored average is the true one after every batch if and only if 100 times the durations is divisible by the number of calls after every batch |
| `SnapshotLaws.ExactStore` | internal/snapshots/generator.go:119-124 | One store onto an exact average is exact if and only if the new mean is a whole number of hundredths |
| `SnapshotLaws.RoundingError` | scripts/init.sql:246 | Storing moves a value by at most 0.005 |
| `SnapshotLaws.StoredInHundredths` | scripts/init.sql:246-254 | A stored value is the nearest whole number of hundredths, halves away from zero |
| `SnapshotLaws.AccumulateKeepsMarginals` | internal/snapshots/generator.go:101-117 | From any row whose counters are marginals of its map, accumulation keeps them so and resets DroppedCalls to the sum of its parts |
| `Breakdowns.MergeLegBreakdown` | internal/metrics/engine.go:342-366 | The decoding loop over the two texts writes the encoded sum |
| `Breakdowns.MergeWithBreakdownMap` | internal/metrics/engine.go:371-400 | The shortcut on a map, leaving the text alone when nothing comes in |
| `Breakdowns.AddInto` | internal/metrics/engine.go:388-395 | The nested merge loops compute the key-wise sum |
| `Breakdowns.MergeAlgebra` | internal/metrics/engine.go:342-366 | Commutative, associative, the empty column is the identity, and every cell reads back as the sum, decodable or not |
| `Breakdowns.ShortcutAgrees` | internal/metrics/engine.go:368-400 | Both merges decode to the same map; the texts differ exactly when nothing comes in and the stored text is undecodable or an encoded empty map |
| `Breakdowns.PlusCells` | internal/metrics/engine.go:353-360 | Merging adds every cell |
| `Breakdowns.TotalsAfterPlus` | internal/metrics/engine.go:353-360 | Merging adds all row, column and grand totals |
| `Breakdowns.TotalsAfterBump` | internal/metrics/engine.go:242-251 | Counting one record adds one to its row, its column and the grand total |
| `Dedup.SidCache.AddCallSids` | internal/cache/dedup.go:36-74 | Parallel answers: new exactly when neither the day's set nor an earlier position holds the Sid; the set grows by all Sids; after a pipeline error all are reported new and those sent before it stay in the set; other keys stay |
| `Dedup.SidCache.Pipelined` | internal/cache/dedup.go:46-52 | The SADD commands answer 1 exactly for Sids that neither the set nor an earlier command held |
| `Dedup.SidCache.FilterNewRecords` | internal/workers/job_worker.go:599-615 | Keeps the first occurrences of unseen Sids, in order; everything when the cache is down |
| `Dedup.FreshKeepsEachSidOnce` | internal/workers/job_worker.go:592-615 | The kept records repeat no Sid and have exactly the unseen Sids |
| `Dedup.FreshKeepsFirsts` | internal/workers/job_worker.go:592-615 | The kept records are exactly those at positions whose Sid is neither in the set nor at an earlier position |
| `Dedup.FreshConcat` | internal/workers/job_worker.go:592-615 | Filtering in two jobs is filtering once |
| `Dedup.FreshOfUnseen` | internal/workers/job_worker.go:592-615 | Unseen distinct records pass unchanged |
| `Dedup.FirstOccurrencesUnderTest` | internal/handlers/reprocess.go:66-90 | Filtering by number before deduplicating changes nothing if and only if every first occurrence passes |
| `Records.DistinctConcat` | internal/handlers/reprocess.go:57-90 | Two lists together repeat no Sid if and only if neither does and they share none |
| `CallLogs.CallLogTable.SaveCallLogs` | internal/repository/transaction_repo.go:45-61 | 500-row statements leave the table as one insert of the whole list would |
| `CallLogs.CallLogTable.ExecIgnoreInsert` | internal/repository/transaction_repo.go:74-106 | One insert-ignore statement: the first row of each key wins |
| `CallLogs.InsertIgnoreKeepsFirst` | scripts/init.sql:147-148 | Old rows stay in place, keys stay unique, every submitted key is held, and nothing else is added |
| `CallLogs.InsertIgnoreConcat` | internal/repository/transaction_repo.go:48-59 | Chunking does not matter |
| `CallLogs.ResubmissionIsHarmless` | scripts/init.sql:147-148 | Inserting the same rows again changes nothing |
| `CallLogs.LogsOfDayAreDistinct` | internal/repository/snapshot_repo.go:551-564 | The fallback rows of one exophone and day repeat no Sid |
| `CallLogs.LogsOfDayExactly` | internal/repository/snapshot_repo.go:551-564 | The fallback rows are exactly those of the exophone that started on the date |
| `CallLogs.BuildIgnoreInsert` | internal/repository/transaction_repo.go:74-106 | The statement is its fixed beginning with the column list, followed by the rows; the server reads every column of every row back as it was, each under its own name in the column list; times are printed without the escape |
| `CallLogs.PrintedLogIsItsRow` | internal/repository/transaction_repo.go:86-104 | One printed row: texts escaped, times not, which makes no difference to times without quotes |
| `CallLogs.PrintedRowsReadBack` | internal/repository/transaction_repo.go:82-104 | Every column of every printed row is read back as it was |
| `CallLogs.DecimalReadsBack` | internal/repository/transaction_repo.go:95-103 | A printed number, negative ones too, stands for itself |
| `SqlLiteral.LiteralRoundTrip` | internal/repository/transaction_repo.go:63-69 | Reading the quoted escape of any text returns that text and stops at its own closing quote |
| `SqlLiteral.EscapeStep` | internal/repository/transaction_repo.go:65-69 | One character at a time: the two replacements, in either order, escape the first character and go on |
| `SqlLiteral.ReplacementsCommute` | internal/repository/transaction_repo.go:65-69 | On every text the two ordered replacements equal the other order and one per-character map |
| `SqlLiteral.RowRoundTrip` | internal/repository/transaction_repo.go:95-103 | A printed row is read back column by column whatever follows it |
| `SqlLiteral.ValuesRoundTrip` | internal/repository/transaction_repo.go:82-104 | A printed list of rows is read back as those rows |
| `Pagination.FetchCalls` | internal/exotel/calls.go:59-132 | Terminates within 500 requests for any source of pages; the result in terms of the chain of good pages and of the reply that ended it, error kinds included; the pages a vendor answers to its own cursors, up to the one without a cursor or the 500th, are all returned in order |
| `Pagination.AnswersAreFetched` | internal/exotel/calls.go:59-132 | The last part as a law, with the status: first the request without a cursor, then each cursor of the page before |
| `Pagination.BrokenOffFetch` | internal/exotel/calls.go:70-107 | A chain that breaks off gives no calls: transport errors and unreadable 2xx pages are failures, other statuses are reported as they are, and the pages before are kept unless the transport failed |
| `Pagination.FetchesEndOrBreakOff` | internal/exotel/calls.go:59-132 | Every fetch is of one of these two kinds |
| `Pagination.FetchIsDetermined` | internal/exotel/calls.go:59-132 | The replies leave one result |
| `Pagination.WholeChainIsFetched` | internal/exotel/calls.go:114-121 | A chain of at most 500 pages is returned whole and in order; a longer one is cut at 500 and still reported as success |
| `Pagination.FetchesAreConsistent` | internal/exotel/calls.go:80-132 | A response is present exactly for a 2xx fetch without error, and then it is what the page bodies hold, one body a page |
| `Pagination.OneBodyPerPage` | internal/exotel/calls.go:109-111 | One saved body for each good page |
| `Retry.DoWithRetry` | internal/utils/retry.go:50-77 | Calls made and error returned for any script of results and of cut-short waits, within the back-off budget min(MaxRetries x MaxDelay, Base x (2^(MaxRetries+1) - 2)) |
| `Retry.OutcomeIsDetermined` | internal/utils/retry.go:50-77 | The script leaves one outcome |
| `Retry.SuccessMeansLastCallSucceeded` | internal/utils/retry.go:50-77 | For MaxRetries >= 0 between 1 and MaxRetries+1 calls, and success exactly when the last one succeeded; for a negative limit success without any call |
| `Retry.BackoffBounds` | internal/utils/retry.go:38-46 | One delay lies between 0 and both caps |
| `Retry.DelayIsTheFraction` | internal/utils/retry.go:38-46 | The delay is the whole milliseconds of the random fraction of min(MaxDelay, BaseDelay x 2^attempt) |
| `Retry.BudgetGrows` | internal/utils/retry.go:38-46 | The budget of fewer retries fits the budget of more |
| `Retry.ExhaustedAlert` | internal/workers/job_worker.go:618-640 | When RETRY_EXHAUSTED is raised: real exhaustion, a final call that failed for good, or a context that ended the job after as many failures as there are retries |
| `Pool.PoolSafety` | internal/workers/pool.go:40-59 | Over all interleavings: executing functions <= tokens <= maxWorkers, the counter is the number of functions between Add and Done, and every function that was past wg.Add when a Wait began is finished when it returns |
| `Pool.WaitCoversExactlyThePastAdd` | internal/workers/pool.go:40-59 | Exact law: a Wait begun now returns only after a function has finished, in every continuation, if and only if the function is past wg.Add now |
| `Pool.WaitPassesBy` | internal/workers/pool.go:40-59 | For any other function: the rest finish, Wait returns, and it is where it was |
| `Pool.Drain` | internal/workers/pool.go:43-53 | From any state the functions past Add can finish on their own and bring the counter to zero |
| `Pool.StepKeepsInv` | internal/workers/pool.go:40-54 | Every atomic step keeps the pool invariant |
| `Pool.EveryScheduleCompletes` | internal/workers/pool.go:43-53 | Without new arrivals every schedule takes exactly the remaining number of steps, after which all functions, panicked ones too, are finished and all waits returned |
| `Pool.StuckOnlyAtRest` | internal/workers/pool.go:40-59 | With at least one slot there is no deadlock: nothing can step if and only if all is finished |
| `Pool.ProgressCountsDown` | internal/workers/pool.go:40-59 | Every step takes one from what remains |
| `Pool.NoSlotsNoWork` | internal/workers/pool.go:32-36 | A pool of size 0 never runs anything |
| `Pool.WaitMissesUnreturnedSubmit` | internal/workers/pool.go:40-59 | Witness: Wait may return while a Submit holds its slot but has not yet reached Add |
| `Pool.WorkerPool.SendSlot` | internal/workers/pool.go:41 | Acquiring a token on the object state |
| `Pool.WorkerPool.AddOne` | internal/workers/pool.go:42 | wg.Add on the object state |
| `Pool.WorkerPool.ReceiveSlot` | internal/workers/pool.go:45 | The deferred receive never blocks: the token is there |
| `Pool.WorkerPool.DoneOne` | internal/workers/pool.go:46 | The counter never goes below zero, and reaching zero wakes the waiters |
| `BulkBackfill.AcceptedRunDelivers` | internal/handlers/backfill.go:340-550 | Any interleaving of an accepted run and of refused starts: when Running clears, Done is exophones x dates and each queued pair has one result for each time it was queued |
| `BulkBackfill.ProgressAddsUp` | internal/handlers/backfill.go:363-546 | At every moment of every run Done + queued + held = Total, one result a finished pair, Failed counts the error results |
| `BulkBackfill.RecordTellsWhatHappened` | internal/handlers/backfill.go:424-546 | Over every run: the results are the reports since the last accepted start, in order, each with the pair its worker held and the outcome reported; Failed is the number of failures reported since then and Done that of all reports |
| `BulkBackfill.TakenPairIsHeld` | internal/handlers/backfill.go:413-421 | The pair a worker holds is the head of the queue when it took it, and stays so until it reports |
| `BulkBackfill.StepsOfAFilledRun` | internal/handlers/backfill.go:404-550 | Three workers: n queued pairs take 2n + 3 steps and the clear |
| `BulkBackfill.StepKeepsInv` | internal/handlers/backfill.go:340-550 | Every step keeps the bookkeeping invariant |
| `BulkBackfill.ClearDelivers` | internal/handlers/backfill.go:547-550 | Clearing Running finds everything delivered |
| `BulkBackfill.WorkersFinish` | internal/handlers/backfill.go:413-546 | Every schedule of the three workers ends, after exactly the remaining number of steps |
| `BulkBackfill.SomeoneCanWork` | internal/handlers/backfill.go:413-546 | As long as a worker is present some worker can step |
| `BulkBackfill.WorkCountsDown` | internal/handlers/backfill.go:413-546 | Every worker step takes one from what remains |
| `BulkBackfill.EnqueueAll` | internal/handlers/backfill.go:404-411 | The filling loops queue every exophone on every date in order, never exceeding the channel capacity |
| `BulkBackfill.PairsCount` | internal/handlers/backfill.go:364-411 | The queue has exophones x dates entries and holds exactly those pairs |
| `BulkBackfill.PairAt` | internal/handlers/backfill.go:404-411 | Pair number i x dates + j is exophone i on date j |
| `BulkBackfill.Progress.TryStart` | internal/handlers/backfill.go:340-350 | The guarded start on the shared record |
| `BulkBackfill.Progress.Prepare` | internal/handlers/backfill.go:352-367 | Giving up without exophones, else publishing Total |
| `BulkBackfill.Progress.ReportOne` | internal/handlers/backfill.go:424-433 | One locked report: Done rises by one, Failed by one for a failure, and the result carries the pair the worker held and its outcome |
| `BulkBackfill.Progress.ClearRunning` | internal/handlers/backfill.go:547-550 | Clearing the flag, with everything delivered |

## Left out

- Timestamp texts: a text is given as what the parser makes of it (blank, bare, with offset, garbage).
- JSON: a column is empty, an encoding that decodes back, or undecodable; partial decoding of a broken
  array, invalid UTF-8 and numbers outside 64 bits are not modelled.
- `strings.ToLower` outside ASCII; every word compared against is ASCII.
- Integer widths: counters are unbounded; no list of calls comes near the 32-bit columns.
- Floating-point rounding of rates and averages before they are stored; reals are used.
- Database errors, overflow of DECIMAL(5,2) by DropRate, an empty text in a JSON column, and expiry of the
  Sid set after 25 hours. A cache that fails, also half way through a pipeline, is modelled.
- Jobs that interleave inside one Redis pipeline, and jobs that run across midnight. In `Overlap` the cache
  answers, and a row overwritten without calls is the same as no row.
- Refinement.ReprocessConfirmsTheLiveRow: compares text columns by what they decode to, because the order
  of keys in encoded JSON is not modelled.
- Refinement.ReprocessCompletesTheDay: runs with a reprocess that fell back to call_logs are excluded, since
  its records need not be on any saved page.
- Pipeline.Platform.ExecuteCalls: the latency and drop-rate alerts that a successful job can raise.
- Engine.ProcessCallRecords: the metric rows built at the end repeat counters and rates under names.
- ExactlyOnce.RunDay: the due query and the dispatch through the pool are replaced by turns of one job that
  follow each other, and the vendor is a function from windows to fetch results rather than a server behind
  page requests; `Overlap`, `Pool` and `Pagination.FetchesAreConsistent` are what links them.
- Retry.DoWithRetry: the operation is a script of results; a wait that the context cuts short is charged in full.
- Pool: that adding to a wait group in the same moment as its last waiter wakes is a misuse the runtime may
  panic on; and a negative size, which the constructor of a channel rejects.
- BulkBackfill: what a worker does with one pair is an outcome; that effect is `Pipeline.Platform.BackfillExophoneSnapshot`.
  A panic in a worker, which ends the process, and the 10-second pause after a 429 are not modelled.
- The order of saved pages by started_at and of fallback rows by start_time: pages are in the order saved.
- The per-exophone map of running backfills, retry policies stored
  as JSON, URL parsing of the next-page link, price and answered-by fields: single-branch code or foreign calls.
- `utils.IsRetryable`: nothing in the pipeline calls it.
- `RecomputeCallMetricsForDate` and the leg-status refresh command: SQL aggregates with other leg and drop rules.
- Dashboards, exports, health snapshots, heartbeat and stream jobs, webhooks, cron toggles and the web frontend.
