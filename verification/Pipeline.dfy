// One exophone's day: live CALLS jobs, same-day backfills and reprocesses over the shared
// cache, snapshot row, saved responses and call_logs.
module Pipeline {
  import opened Text
  import opened Records
  import opened Engine
  import opened Snapshots
  import opened Dedup
  import opened CallLogs
  import opened Pagination
  import opened Retry
  import opened Windows

  datatype JobResponse = JobResponse(httpStatus: int, body: Body)

  // The state kept for one exophone and day. The batches are the record lists the row was
  // built from since it was last overwritten.
  datatype Day = Day(
    seen: set<string>,
    row: Option<SnapshotRow>,
    responses: seq<JobResponse>,
    logs: seq<CallLog>,
    batches: seq<seq<CallRecord>>)

  // ---- What one fetch means to a live job ----

  // How the retry closure of a CALLS job reads the result of a fetch.
  function AttemptOf(fetch: FetchResult): Attempt {
    if fetch.failed then FailedRetryable
    else if fetch.httpStatus == 401 || fetch.httpStatus == 403 then FailedForGood
    else if fetch.httpStatus == 429 then FailedForGood
    else if fetch.httpStatus >= 500 then FailedRetryable
    else Succeeded
  }

  function Script(fetches: nat -> FetchResult): nat -> Attempt {
    (k: nat) => AttemptOf(fetches(k))
  }

  // The rows saved for a job's last fetch: one per page, or the raw body without pages.
  function SavedResponses(fetch: Option<FetchResult>): seq<JobResponse> {
    if fetch.None? then [JobResponse(0, Unreadable)]
    else if fetch.value.pageBodies != [] then PageResponses(fetch.value)
    else [JobResponse(fetch.value.httpStatus, fetch.value.rawBody)]
  }

  function PageResponses(fetch: FetchResult): seq<JobResponse> {
    seq(|fetch.pageBodies|, i requires 0 <= i < |fetch.pageBodies| => JobResponse(fetch.httpStatus, fetch.pageBodies[i]))
  }

  // A job that ends without an error and has a response to process.
  predicate HasRecords(fetch: Option<FetchResult>) {
    fetch.Some? && AttemptOf(fetch.value) == Succeeded && fetch.value.response.Some?
  }

  // Reporting success without having read any page: exactly the replies outside 2xx that
  // are neither authentication failures, rate limiting nor server errors.
  lemma SilentSuccess(fetch: FetchResult)
    requires Consistent(fetch)
    ensures AttemptOf(fetch) == Succeeded && fetch.response.None?
        <==> !fetch.failed && !IsSuccess(fetch.httpStatus) && fetch.httpStatus < 500
             && fetch.httpStatus !in {401, 403, 429}
    ensures HasRecords(Some(fetch)) <==> fetch.response.Some?
  {
  }

  // ---- Which replies are tried again ----

  // A reply is tried again exactly when the fetch failed or the status is a server error, and
  // given up for good exactly on a refused login or a rate limit.
  lemma AttemptClasses(fetch: FetchResult)
    ensures AttemptOf(fetch) == FailedRetryable <==> fetch.failed || fetch.httpStatus >= 500
    ensures AttemptOf(fetch) == FailedForGood <==> !fetch.failed && fetch.httpStatus in {401, 403, 429}
  {
  }

  predicate IsTransient(fetch: FetchResult) {
    fetch.failed || fetch.httpStatus >= 500
  }

  predicate IsRefused(fetch: FetchResult) {
    !fetch.failed && fetch.httpStatus in {401, 403, 429}
  }

  // The first n replies are transport errors or server errors, and no wait is cut short.
  ghost predicate Stumbles(fetches: nat -> FetchResult, cutShort: nat -> bool, n: nat) {
    (forall k: nat :: k < n ==> IsTransient(fetches(k))) && (forall k: nat :: 1 <= k <= n ==> !cutShort(k))
  }

  // What the retries come to, in terms of the replies: within the limit the first other reply
  // decides, and beyond it the job has failed.
  ghost predicate RetriesAsPromised(cfg: RetryConfig, fetches: nat -> FetchResult, cutShort: nat -> bool,
                                    calls: nat, err: Option<Failure>)
  {
    && (forall n: nat :: n <= cfg.maxRetries && Stumbles(fetches, cutShort, n) && !IsTransient(fetches(n))
          ==> calls == n + 1 && (err == None <==> !IsRefused(fetches(n))))
    && (forall n: nat :: n == cfg.maxRetries && Stumbles(fetches, cutShort, n) && IsTransient(fetches(n))
          ==> calls == n + 1 && err != None)
  }

  // Within the limit the (n+1)-th reply is a 2xx page.
  ghost predicate PageAfter(cfg: RetryConfig, fetches: nat -> FetchResult, cutShort: nat -> bool, n: nat) {
    n <= cfg.maxRetries && Stumbles(fetches, cutShort, n) && !fetches(n).failed && 200 <= fetches(n).httpStatus < 300
  }

  lemma RetriesDecide(cfg: RetryConfig, fetches: nat -> FetchResult, cutShort: nat -> bool,
                      calls: nat, err: Option<Failure>)
    requires IsOutcome(cfg, Script(fetches), cutShort, calls, err)
    ensures RetriesAsPromised(cfg, fetches, cutShort, calls, err)
    ensures forall n: nat :: PageAfter(cfg, fetches, cutShort, n) ==> err == None && calls == n + 1
    ensures if err == None then calls == 0 || AttemptOf(fetches(calls - 1)) == Succeeded
            else calls > 0 && AttemptOf(fetches(calls - 1)) != Succeeded
  {
    hide AttemptOf;
    var script := Script(fetches);
    forall k: nat
      ensures script(k) == FailedRetryable <==> IsTransient(fetches(k))
      ensures script(k) == FailedForGood <==> IsRefused(fetches(k))
    {
      AttemptClasses(fetches(k));
    }
  }

  // ---- Steps ----

  function Involves(number: string, r: CallRecord): bool {
    var vn := NormalizePhone(number);
    vn == "" || NormalizePhone(r.phoneNumber) == vn || NormalizePhone(r.to) == vn || NormalizePhone(r.from) == vn
  }

  function VnFilter(number: string): CallRecord -> bool {
    (r: CallRecord) => Involves(number, r)
  }

  // The record is on a saved page of a 2xx reply that reads as calls.
  ghost predicate OnReadablePage(rows: seq<JobResponse>, r: CallRecord) {
    exists i :: 0 <= i < |rows| && 200 <= rows[i].httpStatus < 300 && rows[i].body.Calls? && r in rows[i].body.records
  }

  // The number a call came in on, was made to and was made from.
  function NumbersOf(r: CallRecord): set<string> {
    {r.phoneNumber, r.to, r.from}
  }

  // One of the three has the number's canonical form; a number without digits takes any call.
  ghost predicate Mentions(r: CallRecord, number: string) {
    NormalizePhone(number) == "" || exists m :: m in NumbersOf(r) && NormalizePhone(m) == NormalizePhone(number)
  }

  function UsableBodies(responses: seq<JobResponse>): seq<Body> {
    if responses == [] then []
    else
      var last := responses[|responses| - 1];
      UsableBodies(responses[..|responses| - 1]) + if IsSuccess(last.httpStatus) then [last.body] else []
  }

  function Register(seen: set<string>, rs: seq<CallRecord>, link: Link): set<string> {
    seen + Sids(Sent(link, rs))
  }

  // The records a live job goes on to count.
  function Counted(seen: set<string>, rs: seq<CallRecord>, link: Link): seq<CallRecord> {
    if link.Up? then Fresh(seen, rs) else rs
  }

  ghost function AccumulateInto(row: Option<SnapshotRow>, s: CallSummary): Option<SnapshotRow> {
    if s.total == 0 then row
    else Some(Stored(Accumulated(if row.Some? then row.value else EMPTY_ROW, s)))
  }

  ghost function CountStep(d: Day, origin: Origin, rs: seq<CallRecord>, link: Link, skipLogs: bool): Day {
    var counted := Counted(d.seen, rs, link);
    Day(
      Register(d.seen, rs, link),
      AccumulateInto(d.row, SummaryOf(origin.exophone.number, counted)),
      d.responses,
      if skipLogs then d.logs else InsertIgnore(d.logs, LogsOf(origin, counted)),
      if counted == [] then d.batches else d.batches + [counted])
  }

  function Save(d: Day, saved: seq<JobResponse>): Day {
    d.(responses := d.responses + saved)
  }

  ghost function LiveStep(d: Day, origin: Origin, fetch: Option<FetchResult>, link: Link, skipLogs: bool): Day {
    var after := Save(d, SavedResponses(fetch));
    if HasRecords(fetch) then CountStep(after, origin, fetch.value.response.value, link, skipLogs) else after
  }

  // Overwriting the row with the summary of a record list, then registering its Sids.
  ghost function OverwriteStep(d: Day, origin: Origin, rs: seq<CallRecord>, link: Link, skipLogs: bool): Day {
    Day(
      Register(d.seen, rs, link),
      Some(Stored(RowOf(SummaryOf(origin.exophone.number, rs)))),
      d.responses,
      if skipLogs then d.logs else InsertIgnore(d.logs, LogsOf(origin, rs)),
      [rs])
  }

  predicate BackfillUsable(fetch: FetchResult) {
    !fetch.failed && IsSuccess(fetch.httpStatus)
  }

  function BackfillRecords(fetch: FetchResult): seq<CallRecord> {
    if fetch.response.Some? then fetch.response.value else []
  }

  ghost function BackfillStep(d: Day, origin: Origin, fetch: FetchResult, link: Link, skipLogs: bool): Day {
    if !BackfillUsable(fetch) then d
    else
      OverwriteStep(Save(d, PageResponses(fetch)), origin, BackfillRecords(fetch), link, skipLogs)
  }

  // The records reprocess rebuilds the day from: the first occurrences among the saved
  // pages that involve the number, or the stored rows when there are none.
  function ReprocessRecords(d: Day, exophone: Exophone, date: int): seq<CallRecord> {
    var fromPages := Fresh({}, Keep(VnFilter(exophone.number), RecordsIn(UsableBodies(d.responses))));
    if fromPages != [] then fromPages else RecordsOfLogs(LogsOfDay(d.logs, exophone.id, date))
  }

  ghost function ReprocessStep(d: Day, origin: Origin, date: int, link: Link, skipLogs: bool): Day {
    var rs := ReprocessRecords(d, origin.exophone, date);
    if rs == [] then d else OverwriteStep(d, origin, rs, link, skipLogs)
  }

  // ---- The running system ----

  datatype JobRow = JobRow(frequencyMinutes: int, lastRunAt: Option<int>, nextRunAt: int, succeeded: bool)

  function At<T>(m: map<Key, seq<T>>, key: Key): seq<T> {
    if key in m then m[key] else []
  }

  class Platform {
    const cache: SidCache
    const snapshots: SnapshotTable
    const callLogs: CallLogTable
    var responses: map<Key, seq<JobResponse>>
    var jobs: map<nat, JobRow>
    var alerts: seq<Alert>
    ghost var batches: map<Key, seq<seq<CallRecord>>>

    constructor (cache: SidCache, snapshots: SnapshotTable, callLogs: CallLogTable, jobs: map<nat, JobRow>)
      ensures this.cache == cache && this.snapshots == snapshots && this.callLogs == callLogs && this.jobs == jobs
      ensures responses == map[] && alerts == [] && batches == map[]
    {
      this.cache, this.snapshots, this.callLogs, this.jobs := cache, snapshots, callLogs, jobs;
      responses, alerts, batches := map[], [], map[];
    }

    ghost function DayAt(key: Key): Day
      reads this`responses, this`batches, cache, snapshots, callLogs
    {
      Day(SetAt(cache.sets, key), snapshots.Get(key), At(responses, key), callLogs.rows, At(batches, key))
    }

    // Nothing of any other exophone or day has changed, apart from the shared call_logs.
    twostate predicate OnlyTouches(key: Key)
      reads this`responses, this`batches, cache, snapshots, callLogs
    {
      forall k :: k != key ==> DayAt(k) == old(DayAt(k)).(logs := callLogs.rows)
    }

    // The same for a backfill or reprocess of a day: the Sids always go into the set of the
    // day on which it runs, so that a run for an earlier day leaves its mark on today.
    twostate predicate OnlyRegisters(key: Key, today: Key, records: seq<CallRecord>, link: Link)
      reads this`responses, this`batches, cache, snapshots, callLogs
    {
      forall k :: k != key ==> DayAt(k) == old(DayAt(k)).(
        logs := callLogs.rows,
        seen := Register(old(DayAt(k)).seen, records, if k == today then link else Down(0)))
    }

    // Fetch with retries, save the pages, drop known Sids, count, accumulate.
    method ExecuteCalls(origin: Origin, key: Key, cfg: RetryConfig, fetches: nat -> FetchResult, cutShort: nat -> bool,
                        jitter: nat -> real, link: Link, skipLogs: bool)
      returns (ok: bool, ghost calls: nat, ghost err: Option<Failure>)
      requires forall k :: 0.0 <= jitter(k) < 1.0
      modifies this`responses, this`alerts, this`batches, cache, snapshots, callLogs
      ensures IsOutcome(cfg, Script(fetches), cutShort, calls, err) && (ok <==> err == None)
      ensures alerts == old(alerts)
        + if err == None then [] else [AlertFor(RetryCount(Script(fetches), calls), cfg.maxRetries)]
      ensures DayAt(key) == LiveStep(old(DayAt(key)), origin, LastFetch(fetches, calls), link, skipLogs)
      ensures ok ==> calls == 0 || AttemptOf(fetches(calls - 1)) == Succeeded
      ensures !ok ==> DayAt(key) == old(DayAt(key)).(responses := DayAt(key).responses)
      ensures RetriesAsPromised(cfg, fetches, cutShort, calls, err)
      ensures forall n: nat ::
        PageAfter(cfg, fetches, cutShort, n) ==> ok && calls == n + 1 && alerts == old(alerts)
      ensures OnlyTouches(key)
    {
      hide SummaryOf, Stored, Accumulated, Fresh, InsertIgnore, LogsOf, WithinBackoffBudget, IsOutcome, PageAfter,
           RetriesAsPromised;
      var n, e, waited := DoWithRetry(cfg, Script(fetches), cutShort, jitter);
      calls, err := n, e;
      RetriesDecide(cfg, fetches, cutShort, n, e);
      var last := LastFetch(fetches, n);
      responses := responses[key := At(responses, key) + SavedResponses(last)];
      if e != None {
        var retryCount := CountRetries(Script(fetches), n);
        alerts := alerts + [AlertFor(retryCount, cfg.maxRetries)];
        ok := false;
        return;
      }
      ok := true;
      if last.Some? && last.value.response.Some? {
        CountRecords(origin, key, last.value.response.value, link, skipLogs);
      }
    }

    // The counting half of a live job.
    method CountRecords(origin: Origin, key: Key, fetched: seq<CallRecord>, link: Link, skipLogs: bool)
      modifies this`batches, cache, snapshots, callLogs
      ensures DayAt(key) == CountStep(old(DayAt(key)), origin, fetched, link, skipLogs)
      ensures OnlyTouches(key)
    {
      hide SummaryOf, Stored, Accumulated, AccumulateInto, Fresh, InsertIgnore, LogsOf, Sids, Sent, SetAt;
      var records := cache.FilterNewRecords(key, fetched, link);
      var logs, summary := ProcessCallRecords(origin, records);
      if !skipLogs {
        callLogs.SaveCallLogs(logs);
      }
      SummaryTotal(origin.exophone.number, records);
      ghost var before := snapshots.rows;
      snapshots.AccumulateCallMetrics(key, summary);
      AccumulatedRows(before, snapshots.rows, key, summary);
      if records != [] {
        batches := batches[key := At(batches, key) + [records]];
      }
    }

    // Computes the window, runs the job against the vendor for that window, and moves
    // last_run_at and next_run_at whether it succeeded or not.
    method ExecuteJob(jobId: nat, origin: Origin, key: Key, to: int, finished: int, cfg: RetryConfig,
                      vendor: Window -> nat -> FetchResult, cutShort: nat -> bool, jitter: nat -> real,
                      link: Link, skipLogs: bool)
      returns (ok: bool, ghost calls: nat)
      requires jobId in jobs
      requires forall k :: 0.0 <= jitter(k) < 1.0
      modifies this, cache, snapshots, callLogs
      ensures var job := old(jobs[jobId]);
        var w := WindowOf(to, job.frequencyMinutes, job.lastRunAt);
        && jobs == old(jobs)[jobId := JobRow(job.frequencyMinutes, Some(finished), finished + 60 * job.frequencyMinutes, ok)]
        && DayAt(key) == LiveStep(old(DayAt(key)), origin, LastFetch(vendor(w), calls), link, skipLogs)
      ensures OnlyTouches(key)
    {
      hide LiveStep, IsOutcome, RetriesAsPromised, PageAfter, Wanted, AttemptOf;
      var job := jobs[jobId];
      var w := ComputeWindow(to, job.frequencyMinutes, job.lastRunAt);
      ghost var err;
      ok, calls, err := ExecuteCalls(origin, key, cfg, vendor(w), cutShort, jitter, link, skipLogs);
      AdvanceNextRun(jobId, job.frequencyMinutes, finished, ok);
    }

    method AdvanceNextRun(jobId: nat, frequencyMinutes: int, now: int, succeeded: bool)
      modifies this`jobs
      ensures jobs == if jobId in old(jobs)
        then old(jobs)[jobId := JobRow(old(jobs)[jobId].frequencyMinutes, Some(now), now + 60 * frequencyMinutes, succeeded)]
        else old(jobs)
    {
      var next := now + frequencyMinutes * 60;
      if jobId in jobs {
        jobs := jobs[jobId := jobs[jobId].(nextRunAt := next, lastRunAt := Some(now), succeeded := succeeded)];
      }
    }

    // Replaces the row by the summary of these records and registers their Sids.
    method Overwrite(origin: Origin, key: Key, today: Key, records: seq<CallRecord>, link: Link, skipLogs: bool)
      modifies this`batches, cache, snapshots, callLogs
      ensures DayAt(key) == OverwriteStep(old(DayAt(key)), origin, records, if key == today then link else Down(0), skipLogs)
      ensures OnlyRegisters(key, today, records, link)
    {
      hide SummaryOf, Stored, RowOf, InsertIgnore, LogsOf, Sids, Sent, SetAt;
      var logs, summary := ProcessCallRecords(origin, records);
      if !skipLogs && |logs| > 0 {
        callLogs.SaveCallLogs(logs);
      }
      if |logs| == 0 {
        NothingToInsert(callLogs.rows, origin, records);
      }
      snapshots.Upsert(key, RowOf(summary));
      var sids := SidList(records);
      SentSids(link, records);
      forall k ensures old(SetAt(cache.sets, k)) + Sids(Sent(Down(0), records)) == old(SetAt(cache.sets, k)) {
        NothingSent(old(SetAt(cache.sets, k)), records);
      }
      var isNew := cache.AddCallSids(today, sids, link);
      batches := batches[key := [records]];
    }

    method BackfillExophoneSnapshot(origin: Origin, key: Key, today: Key, result: FetchResult, link: Link,
                                    skipLogs: bool)
      modifies this`responses, this`batches, cache, snapshots, callLogs
      ensures DayAt(key) == BackfillStep(old(DayAt(key)), origin, result, if key == today then link else Down(0), skipLogs)
      ensures OnlyRegisters(key, today, if BackfillUsable(result) then BackfillRecords(result) else [], link)
    {
      hide OverwriteStep;
      if result.failed || !IsSuccess(result.httpStatus) {
        return;
      }
      responses := responses[key := At(responses, key) + PageResponses(result)];
      label saved:
      assert DayAt(key) == Save(old(DayAt(key)), PageResponses(result));
      Overwrite(origin, key, today, BackfillRecords(result), link, skipLogs);
    }

    // The parsing and first-occurrence loop of reprocess.
    method CollectRecords(key: Key, number: string) returns (allRecords: seq<CallRecord>)
      ensures allRecords == Fresh({}, Keep(VnFilter(number), RecordsIn(UsableBodies(DayAt(key).responses))))
      ensures CollectsByNumber(DayAt(key).responses, number, allRecords)
      ensures forall n ::
        IsTenDigits(n) && number in Spellings(n) ==> CollectsEverySpelling(DayAt(key).responses, n, allRecords)
    {
      hide Keep, Fresh, Involves, UsableBodies, RecordsIn;
      ghost var test := VnFilter(number);
      var rows := At(responses, key);
      var seen: set<string> := {};
      allRecords := [];
      NothingCollected(test);
      for i := 0 to |rows|
        invariant allRecords == Fresh({}, Keep(test, RecordsIn(UsableBodies(rows[..i]))))
        invariant seen == Sids(allRecords)
      {
        assert rows[..i + 1] == rows[..i] + [rows[i]];
        ghost var before := RecordsIn(UsableBodies(rows[..i]));
        UsableSnoc(rows[..i], rows[i]);
        assert before + [] == before;
        if IsSuccess(rows[i].httpStatus) {
          if rows[i].body.Calls? {
            var page := rows[i].body.records;
            assert before + page[..0] == before;
            for j := 0 to |page|
              invariant allRecords == Fresh({}, Keep(test, before + page[..j]))
              invariant seen == Sids(allRecords)
            {
              var rec := page[j];
              CollectOne(test, before + page[..j], rec);
              assert before + page[..j + 1] == (before + page[..j]) + [rec];
              if Involves(number, rec) {
                if rec.sid !in seen {
                  SidsConcat(allRecords, [rec]);
                  assert Sids([rec]) == {rec.sid};
                  seen := seen + {rec.sid};
                  allRecords := allRecords + [rec];
                }
              }
            }
            assert page[..|page|] == page;
          }
        }
      }
      assert rows[..|rows|] == rows;
      CollectedByNumber(rows, number);
      forall n | IsTenDigits(n) && number in Spellings(n)
        ensures CollectsEverySpelling(rows, n, allRecords)
      {
        CollectedInEverySpelling(rows, number, n, allRecords);
      }
    }

    method ReprocessExophoneSnapshot(origin: Origin, key: Key, today: Key, link: Link, skipLogs: bool)
      returns (found: bool)
      requires key.exophoneId == origin.exophone.id
      modifies this`batches, cache, snapshots, callLogs
      ensures found <==> ReprocessRecords(old(DayAt(key)), origin.exophone, key.date) != []
      ensures DayAt(key) == ReprocessStep(old(DayAt(key)), origin, key.date, if key == today then link else Down(0), skipLogs)
      ensures OnlyRegisters(key, today, ReprocessRecords(old(DayAt(key)), origin.exophone, key.date), link)
    {
      hide OverwriteStep, Fresh, Keep;
      var allRecords := CollectRecords(key, origin.exophone.number);
      if |allRecords| == 0 {
        var logs := LogsOfDay(callLogs.rows, key.exophoneId, key.date);
        if |logs| == 0 {
          return false;
        }
        allRecords := RecordsOfLogs(logs);
      }
      Overwrite(origin, key, today, allRecords, link, skipLogs);
      found := true;
    }
  }

  function RowAt(rows: map<Key, SnapshotRow>, key: Key): Option<SnapshotRow> {
    if key in rows then Some(rows[key]) else None
  }

  // What the accumulation of a summary makes of each row of the table.
  lemma AccumulatedRows(before: map<Key, SnapshotRow>, after: map<Key, SnapshotRow>, key: Key, s: CallSummary)
    requires s.total == 0 ==> after == before
    requires s.total > 0 ==>
      after == before[key := Stored(Accumulated(if key in before then before[key] else EMPTY_ROW, s))]
    ensures RowAt(after, key) == AccumulateInto(RowAt(before, key), s)
    ensures forall k :: k != key ==> RowAt(after, k) == RowAt(before, k)
  {
    hide Stored, Accumulated;
  }

  // ---- What the collected records are ----

  // Each Sid once; those of the calls on readable pages that mention the number, and no other;
  // and nothing that is not on such a page.
  ghost predicate CollectsByNumber(rows: seq<JobResponse>, number: string, collected: seq<CallRecord>) {
    && Distinct(collected)
    && (forall r :: r in collected ==> OnReadablePage(rows, r) && Mentions(r, number))
    && (forall r :: OnReadablePage(rows, r) && Mentions(r, number) ==> r.sid in Sids(collected))
  }

  predicate IsTenDigits(n: string) {
    |n| == 10 && IsDigits(n)
  }

  predicate SpelledIn(r: CallRecord, n: string) {
    r.phoneNumber in Spellings(n) || r.to in Spellings(n) || r.from in Spellings(n)
  }

  // For a ten-digit number: a call whose phone number, destination or origin is any spelling of
  // it is collected by Sid, and a call of which none has its canonical form is not collected.
  ghost predicate CollectsEverySpelling(rows: seq<JobResponse>, n: string, collected: seq<CallRecord>) {
    && (forall r :: OnReadablePage(rows, r) && SpelledIn(r, n) ==> r.sid in Sids(collected))
    && (forall r: CallRecord :: (forall m :: m in NumbersOf(r) ==> NormalizePhone(m) != "0" + n) ==> r !in collected)
  }

  lemma {:induction false} ReadableRecordsExactly(rows: seq<JobResponse>)
    ensures forall r :: r in RecordsIn(UsableBodies(rows)) <==> OnReadablePage(rows, r)
  {
    hide RecordsIn, UsableBodies;
    if rows == [] {
      NothingUsable();
    } else {
      var n := |rows| - 1;
      var front, last := rows[..n], rows[n];
      ReadableRecordsExactly(front);
      assert rows == front + [last];
      UsableSnoc(front, last);
      forall r ensures r in RecordsIn(UsableBodies(rows)) <==> OnReadablePage(rows, r) {
        if OnReadablePage(front, r) {
          var i :| 0 <= i < n && 200 <= front[i].httpStatus < 300 && front[i].body.Calls? && r in front[i].body.records;
          assert rows[i] == front[i];
        }
        if i :| 0 <= i < |rows| && 200 <= rows[i].httpStatus < 300 && rows[i].body.Calls? && r in rows[i].body.records {
          assert i < n ==> front[i] == rows[i];
        }
        if r in ReadableRecords(last) {
          assert rows[n] == last;
        }
      }
    }
  }

  lemma NothingUsable()
    ensures RecordsIn(UsableBodies([])) == []
  {
  }

  lemma FilterKeepsMentions(number: string)
    ensures forall r :: VnFilter(number)(r) <==> Mentions(r, number)
  {
    hide NormalizePhone;
    forall r ensures VnFilter(number)(r) <==> Mentions(r, number) {
      assert r.phoneNumber in NumbersOf(r) && r.to in NumbersOf(r) && r.from in NumbersOf(r);
    }
  }

  lemma CollectedByNumber(rows: seq<JobResponse>, number: string)
    ensures CollectsByNumber(rows, number, Fresh({}, Keep(VnFilter(number), RecordsIn(UsableBodies(rows)))))
  {
    hide Keep, Fresh, RecordsIn, UsableBodies, Involves, Mentions, OnReadablePage, Distinct;
    var test, all := VnFilter(number), RecordsIn(UsableBodies(rows));
    var kept := Keep(test, all);
    ReadableRecordsExactly(rows);
    KeptExactly(test, all);
    KeptPassTest(test, {}, kept);
    FreshKeepsEachSidOnce({}, kept);
    FilterKeepsMentions(number);
    assert Sids(kept) - {} == Sids(kept);
  }

  lemma CollectedInEverySpelling(rows: seq<JobResponse>, number: string, n: string, collected: seq<CallRecord>)
    requires CollectsByNumber(rows, number, collected)
    requires IsTenDigits(n) && number in Spellings(n)
    ensures CollectsEverySpelling(rows, n, collected)
  {
    hide NormalizePhone, OnReadablePage, Distinct, Sids;
    FilterSpellings(n);
    assert NormalizePhone(number) == "0" + n;
    forall r | OnReadablePage(rows, r) && SpelledIn(r, n)
      ensures r.sid in Sids(collected)
    {
      var m := if r.phoneNumber in Spellings(n) then r.phoneNumber else if r.to in Spellings(n) then r.to else r.from;
      assert m in NumbersOf(r) && NormalizePhone(m) == "0" + n;
      assert Mentions(r, number);
    }
  }

  lemma NothingToInsert(table: seq<CallLog>, origin: Origin, rs: seq<CallRecord>)
    requires |LogsOf(origin, rs)| == 0
    ensures InsertIgnore(table, LogsOf(origin, rs)) == table
  {
  }

  lemma NothingCollected(test: CallRecord -> bool)
    ensures Fresh({}, Keep(test, RecordsIn(UsableBodies([])))) == []
  {
  }

  function ReadableRecords(r: JobResponse): seq<CallRecord> {
    if IsSuccess(r.httpStatus) && r.body.Calls? then r.body.records else []
  }

  lemma UsableOneMore(responses: seq<JobResponse>, r: JobResponse)
    ensures UsableBodies(responses + [r]) == UsableBodies(responses) + if IsSuccess(r.httpStatus) then [r.body] else []
  {
    assert (responses + [r])[..|responses|] == responses;
  }

  lemma UsableSnoc(responses: seq<JobResponse>, r: JobResponse)
    ensures RecordsIn(UsableBodies(responses + [r])) == RecordsIn(UsableBodies(responses)) + ReadableRecords(r)
  {
    hide UsableBodies, RecordsIn;
    UsableOneMore(responses, r);
    var bodies := UsableBodies(responses);
    if IsSuccess(r.httpStatus) {
      RecordsSnoc(bodies, r.body);
    } else {
      assert UsableBodies(responses + [r]) == bodies + [] == bodies;
      assert RecordsIn(bodies) + [] == RecordsIn(bodies);
    }
  }

  lemma CollectOne(test: CallRecord -> bool, rs: seq<CallRecord>, r: CallRecord)
    ensures Fresh({}, Keep(test, rs + [r]))
         == Fresh({}, Keep(test, rs))
            + if test(r) && r.sid !in Sids(Fresh({}, Keep(test, rs))) then [r] else []
  {
    hide Fresh;
    assert (rs + [r])[..|rs|] == rs;
    var kept := Keep(test, rs);
    assert kept + [] == kept && Fresh({}, kept) + [] == Fresh({}, kept);
    FreshSnoc({}, kept, r);
    FreshKeepsEachSidOnce({}, kept);
    assert Sids(kept) - {} == Sids(kept);
    assert Keep(test, rs + [r]) == if test(r) then kept + [r] else kept;
  }

  function LastFetch(fetches: nat -> FetchResult, calls: nat): Option<FetchResult> {
    if calls == 0 then None else Some(fetches(calls - 1))
  }

  lemma SummaryTotal(vn: string, rs: seq<CallRecord>)
    ensures SummaryOf(vn, rs).total == |rs|
  {
  }

  method CountRetries(script: nat -> Attempt, calls: nat) returns (n: nat)
    ensures n == RetryCount(script, calls)
  {
    n := 0;
    for k := 0 to calls
      invariant n == RetryCount(script, k)
    {
      if script(k) == FailedRetryable {
        n := n + 1;
      }
    }
  }
}
