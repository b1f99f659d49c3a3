// The running snapshot of a day of live jobs against the slow form: reprocessing every
// record from the saved pages.
module Refinement {
  import opened Text
  import opened Reals
  import opened Records
  import opened Breakdowns
  import opened Hourly
  import opened Counting
  import opened Engine
  import opened EngineLaws
  import opened Snapshots
  import opened SnapshotLaws
  import opened Dedup
  import opened CallLogs
  import opened Pagination
  import opened Retry
  import opened Pipeline
  import opened PipelineLaws

  // The records that a job's saved pages hold, and those the job went on to filter and count.
  function SavedRecords(fetch: Option<FetchResult>): seq<CallRecord> {
    RecordsIn(UsableBodies(SavedResponses(fetch)))
  }

  function FetchedRecords(fetch: Option<FetchResult>): seq<CallRecord> {
    if HasRecords(fetch) then fetch.value.response.value else []
  }

  lemma {:induction false} UsableConcat(a: seq<JobResponse>, b: seq<JobResponse>)
    ensures RecordsIn(UsableBodies(a + b)) == RecordsIn(UsableBodies(a)) + RecordsIn(UsableBodies(b))
  {
    hide UsableBodies, RecordsIn;
    if b == [] {
      assert a + b == a;
      NothingUsable();
    } else {
      var front, last := b[..|b| - 1], b[|b| - 1];
      UsableConcat(a, front);
      assert front + [last] == b && (a + front) + [last] == a + b;
      UsableSnoc(a + front, last);
      UsableSnoc(front, last);
    }
  }

  lemma {:induction false} PagesAreUsable(fetch: FetchResult, n: nat)
    requires n <= |fetch.pageBodies|
    ensures UsableBodies(PageResponses(fetch)[..n]) == if IsSuccess(fetch.httpStatus) then fetch.pageBodies[..n] else []
  {
    if n > 0 {
      hide UsableBodies, PageResponses, IsSuccess;
      PagesAreUsable(fetch, n - 1);
      PagesSnoc(fetch, n);
      UsableOneMore(PageResponses(fetch)[..n - 1], JobResponse(fetch.httpStatus, fetch.pageBodies[n - 1]));
      assert fetch.pageBodies[..n] == fetch.pageBodies[..n - 1] + [fetch.pageBodies[n - 1]];
    }
  }

  lemma PagesSnoc(fetch: FetchResult, n: nat)
    requires 0 < n <= |fetch.pageBodies|
    ensures |PageResponses(fetch)| == |fetch.pageBodies|
    ensures PageResponses(fetch)[..n]
         == PageResponses(fetch)[..n - 1] + [JobResponse(fetch.httpStatus, fetch.pageBodies[n - 1])]
  {
  }

  // The saved pages of a job that counted its records hold exactly those records.
  lemma CountedRecordsAreSaved(fetch: FetchResult)
    requires Consistent(fetch) && HasRecords(Some(fetch))
    ensures SavedRecords(Some(fetch)) == FetchedRecords(Some(fetch))
  {
    PagesAreUsable(fetch, |fetch.pageBodies|);
    assert PageResponses(fetch)[..|fetch.pageBodies|] == PageResponses(fetch);
    assert fetch.pageBodies[..|fetch.pageBodies|] == fetch.pageBodies;
  }

  // What a fetch without a response leaves for reprocess: nothing, unless the chain ended at
  // a 2xx page that could not be read; then the pages before it. A chain cut by any other
  // status is saved under that status, and one cut by a transport error is not saved.
  lemma WhatAbandonedChainsSave(api: Api, pages: seq<Reply>, fetch: FetchResult)
    requires IsFetch(api, pages, fetch) && fetch.response.None?
    ensures SavedRecords(Some(fetch))
         == if fetch.failed && IsSuccess(fetch.httpStatus) then RecordsIn(BodiesOf(pages)) else []
    ensures FetchedRecords(Some(fetch)) == []
  {
    hide IsChain;
    NothingUsable();
    if fetch.pageBodies != [] {
      PagesAreUsable(fetch, |fetch.pageBodies|);
      assert PageResponses(fetch)[..|fetch.pageBodies|] == PageResponses(fetch);
      assert fetch.pageBodies[..|fetch.pageBodies|] == fetch.pageBodies;
    } else {
      var raw := JobResponse(fetch.httpStatus, fetch.rawBody);
      UsableSnoc([], raw);
      assert [] + [raw] == [raw];
      assert RecordsIn(BodiesOf(pages)) == [] || fetch.pageBodies == BodiesOf(pages) || fetch.httpStatus == 0;
    }
  }

  lemma OtherStatusesSaveNothing(fetch: FetchResult)
    requires Consistent(fetch) && fetch.response.None? && !IsSuccess(fetch.httpStatus)
    ensures SavedRecords(Some(fetch)) == []
  {
    NothingUsable();
    PagesAreUsable(fetch, |fetch.pageBodies|);
    assert PageResponses(fetch)[..|fetch.pageBodies|] == PageResponses(fetch);
    if fetch.pageBodies == [] {
      UsableSnoc([], JobResponse(fetch.httpStatus, fetch.rawBody));
      assert [] + [JobResponse(fetch.httpStatus, fetch.rawBody)] == [JobResponse(fetch.httpStatus, fetch.rawBody)];
    }
  }

  // ---- Days of live jobs ----

  // Any live job with the cache up, also one that fails, or work on another exophone.
  ghost predicate Orderly(e: Event) {
    match e
    case Live(_, fetch, link, _) => link.Up? && (fetch.Some? ==> Consistent(fetch.value))
    case Elsewhere(registered, _) => registered == []
    case _ => false
  }

  ghost predicate AllOrderly(es: seq<Event>) {
    forall i :: 0 <= i < |es| ==> Orderly(es[i])
  }

  function FetchedBy(e: Event): seq<CallRecord> {
    if e.Live? then FetchedRecords(e.fetch) else []
  }

  function SavedBy(e: Event): seq<CallRecord> {
    if e.Live? then SavedRecords(e.fetch) else []
  }

  // Everything the day's jobs went on to count, and everything on their saved pages.
  function AllFetched(es: seq<Event>): seq<CallRecord> {
    if es == [] then [] else AllFetched(es[..|es| - 1]) + FetchedBy(es[|es| - 1])
  }

  function AllSaved(es: seq<Event>): seq<CallRecord> {
    if es == [] then [] else AllSaved(es[..|es| - 1]) + SavedBy(es[|es| - 1])
  }

  lemma OrderlyStep(x: Exophone, date: int, d: Day, e: Event)
    requires Orderly(e)
    ensures var after := Step(x, date, d, e);
      && InRow(after) == InRow(d) + Fresh(d.seen, FetchedBy(e))
      && after.seen == d.seen + Sids(FetchedBy(e))
      && RecordsIn(UsableBodies(after.responses)) == RecordsIn(UsableBodies(d.responses)) + SavedBy(e)
  {
    hide SummaryOf, InsertIgnore, LogsOf, RecordsIn, UsableBodies, SavedResponses, Flatten;
    var pages := RecordsIn(UsableBodies(d.responses));
    assert pages + [] == pages && InRow(d) + [] == InRow(d);
    assert Fresh(d.seen, []) == [] && Sids([]) == {};
    if e.Live? {
      UsableConcat(d.responses, SavedResponses(e.fetch));
      if HasRecords(e.fetch) {
        var before := Save(d, SavedResponses(e.fetch));
        LiveCounts(before, Origin(e.transactionId, x), e.fetch.value.response.value, e.skipLogs);
      }
    }
  }

  // After a day of such jobs the row counts the first occurrences of everything fetched, and
  // the pages hold everything saved.
  lemma {:induction false} LiveDay(x: Exophone, date: int, logs: seq<CallLog>, es: seq<Event>)
    requires AllOrderly(es)
    ensures var d := Run(x, date, FreshDay(logs), es);
      && InRow(d) == Fresh({}, AllFetched(es))
      && d.seen == Sids(AllFetched(es))
      && RecordsIn(UsableBodies(d.responses)) == AllSaved(es)
  {
    hide Step, Orderly, FetchedBy, SavedBy;
    if es == [] {
      NothingUsable();
    } else {
      var front, e := es[..|es| - 1], es[|es| - 1];
      LiveDay(x, date, logs, front);
      OrderlyStep(x, date, Run(x, date, FreshDay(logs), front), e);
      FreshConcat({}, AllFetched(front), FetchedBy(e));
      SidsConcat(AllFetched(front), FetchedBy(e));
      assert {} + Sids(AllFetched(front)) == Sids(AllFetched(front));
    }
  }

  lemma {:induction false} FetchedIsSaved(es: seq<Event>)
    requires AllOrderly(es)
    ensures Sids(AllFetched(es)) <= Sids(AllSaved(es))
  {
    hide SavedRecords, FetchedRecords, HasRecords, Consistent;
    if es != [] {
      var front, e := es[..|es| - 1], es[|es| - 1];
      FetchedIsSaved(front);
      SidsConcat(AllFetched(front), FetchedBy(e));
      SidsConcat(AllSaved(front), SavedBy(e));
      FetchedBySaved(e);
    }
  }

  lemma FetchedBySaved(e: Event)
    requires Orderly(e)
    ensures FetchedBy(e) == SavedBy(e) || FetchedBy(e) == []
  {
    if e.Live? && HasRecords(e.fetch) {
      CountedRecordsAreSaved(e.fetch.value);
    }
  }

  // ---- What reprocess collects ----

  function Collected(x: Exophone, d: Day): seq<CallRecord> {
    Fresh({}, Keep(VnFilter(x.number), RecordsIn(UsableBodies(d.responses))))
  }

  // The calls on saved pages that no job counted.
  function Uncounted(es: seq<Event>): set<string> {
    Sids(AllSaved(es)) - Sids(AllFetched(es))
  }

  // The number filter leaves the first copies of all saved calls alone, if and only if every
  // one of them mentions the monitored number.
  lemma ReprocessSeesEverySavedCall(x: Exophone, date: int, logs: seq<CallLog>, es: seq<Event>)
    requires AllOrderly(es)
    ensures Collected(x, Run(x, date, FreshDay(logs), es)) == Fresh({}, AllSaved(es))
        <==> forall r :: r in Fresh({}, AllSaved(es)) ==> Mentions(r, x.number)
  {
    hide Run, Keep, Fresh, Mentions, RecordsIn, UsableBodies, InRow;
    LiveDay(x, date, logs, es);
    FilterKeepsMentions(x.number);
    FirstOccurrencesUnderTest(VnFilter(x.number), AllSaved(es));
  }

  // A call is saved first with the content it was counted with.
  ghost predicate FirstCopiesCounted(es: seq<Event>) {
    forall r :: r in Fresh({}, AllSaved(es)) && r.sid in Sids(AllFetched(es)) ==> r in Fresh({}, AllFetched(es))
  }

  // It is so when the vendor never changes a call it has reported ...
  lemma SettledCallsKeepTheirContent(es: seq<Event>)
    requires AllOrderly(es)
    requires forall r, c :: r in AllSaved(es) && c in AllFetched(es) && r.sid == c.sid ==> r == c
    ensures FirstCopiesCounted(es)
  {
    KeptPassTest(r => true, {}, AllSaved(es));
    KeptPassTest(r => true, {}, AllFetched(es));
    FreshKeepsEachSidOnce({}, AllFetched(es));
    forall r | r in Fresh({}, AllSaved(es)) && r.sid in Sids(AllFetched(es)) ensures r in Fresh({}, AllFetched(es)) {
      assert r.sid in Sids(Fresh({}, AllFetched(es)));
      var c :| c in Fresh({}, AllFetched(es)) && c.sid == r.sid;
    }
  }

  // ... and when every job either counted its records or saved no readable page, for then
  // the pages hold exactly what was counted.
  lemma {:induction false} ThoroughDaysSaveWhatTheyCount(es: seq<Event>)
    requires AllOrderly(es)
    requires forall i :: 0 <= i < |es| ==> FetchedBy(es[i]) != [] || SavedBy(es[i]) == []
    ensures AllSaved(es) == AllFetched(es) && FirstCopiesCounted(es) && Uncounted(es) == {}
  {
    hide SavedBy, FetchedBy, Orderly, Fresh;
    if es != [] {
      var front, e := es[..|es| - 1], es[|es| - 1];
      assert Orderly(e);
      ThoroughDaysSaveWhatTheyCount(front);
      FetchedBySaved(e);
    }
  }

  lemma AverageError(vn: string, row: SnapshotRow, bs: seq<seq<CallRecord>>)
    requires Flatten(bs) != [] && AverageWithin(row, bs)
    ensures Abs(row.avgDurationSec - Durations(Flatten(bs)) as real / |Flatten(bs)| as real) <= HALF_CENT * |bs| as real
  {
    hide Flatten, Durations, Exposure;
    ExposureBound(bs);
    SharedError(row.avgDurationSec, |Flatten(bs)|, Durations(Flatten(bs)), Exposure(bs), |bs|);
  }

  lemma CollectedRows(x: Exophone, date: int, logs: seq<CallLog>, es: seq<Event>, link: Link, skipLogs: bool)
    requires AllOrderly(es) && AllSaved(es) != []
    requires forall r :: r in Fresh({}, AllSaved(es)) ==> Mentions(r, x.number)
    ensures var d := Run(x, date, FreshDay(logs), es);
      var rs := Fresh({}, AllSaved(es));
      var after := Step(x, date, d, Reprocess(link, skipLogs));
      && rs != [] && InRow(after) == rs
      && after.row == Some(Stored(RowOf(SummaryOf(x.number, rs))))
  {
    hide Run, Keep, Fresh, Mentions, RecordsIn, UsableBodies, Stored, RowOf, SummaryOf, InsertIgnore, LogsOf, Flatten;
    var d := Run(x, date, FreshDay(logs), es);
    ReprocessSeesEverySavedCall(x, date, logs, es);
    FreshKeepsEachSidOnce({}, AllSaved(es));
    var first := AllSaved(es)[0];
    assert first in AllSaved(es) && first.sid in Sids(AllSaved(es)) - {};
    assert Sids([]) == {};
    var rs := Fresh({}, AllSaved(es));
    assert rs != [];
    assert ReprocessRecords(d, x, date) == rs;
    OverwriteCounts(d, Origin("REPROCESS", x), rs, link, skipLogs);
  }

  // The exact law of what reprocess adds to a day of live jobs, failed ones included: it
  // counts every saved call once, so it leaves the counted Sids and TotalCalls alone if and
  // only if no saved call went uncounted, and otherwise raises TotalCalls by their number.
  lemma ReprocessAddsUncountedCalls(x: Exophone, date: int, logs: seq<CallLog>, es: seq<Event>, link: Link, skipLogs: bool)
    requires AllOrderly(es) && AllSaved(es) != []
    requires forall r :: r in Fresh({}, AllSaved(es)) ==> Mentions(r, x.number)
    ensures var d := Run(x, date, FreshDay(logs), es);
      var after := Step(x, date, d, Reprocess(link, skipLogs));
      && Sids(InRow(after)) == Sids(AllSaved(es)) && Sids(InRow(d)) == Sids(AllFetched(es))
      && (Sids(InRow(after)) == Sids(InRow(d)) <==> Uncounted(es) == {})
      && TotalCalls(after) == TotalCalls(d) + |Uncounted(es)|
  {
    hide Run, Step, Fresh, Mentions, Stored, RowOf, SummaryOf, Flatten, Distinct, Sids, AllSaved, AllFetched;
    var d := Run(x, date, FreshDay(logs), es);
    var saved, fetched := AllSaved(es), AllFetched(es);
    CollectedRows(x, date, logs, es, link, skipLogs);
    LiveDay(x, date, logs, es);
    FetchedIsSaved(es);
    FreshKeepsEachSidOnce({}, saved);
    FreshKeepsEachSidOnce({}, fetched);
    assert Sids(saved) - {} == Sids(saved) && Sids(fetched) - {} == Sids(fetched);
    DistinctCount(Fresh({}, saved));
    DistinctCount(Fresh({}, fetched));
    SummaryTotal(x.number, Fresh({}, saved));
    StoredTotal(SummaryOf(x.number, Fresh({}, saved)));
    LiveTotal(x, date, logs, es);
    assert Sids(saved) == Sids(fetched) + Uncounted(es);
  }

  lemma StoredTotal(s: CallSummary)
    ensures Stored(RowOf(s)).total == s.total
  {
  }

  lemma LiveTotal(x: Exophone, date: int, logs: seq<CallLog>, es: seq<Event>)
    ensures TotalCalls(Run(x, date, FreshDay(logs), es)) == |InRow(Run(x, date, FreshDay(logs), es))|
  {
    hide Run, Represents, AverageWithin, Flatten;
    RowAlwaysFaithful(x, date, logs, es);
    NothingFlattened();
    var d := Run(x, date, FreshDay(logs), es);
    if d.row.Some? {
      RepresentsTotal(x.number, d.row.value, d.batches);
    }
  }

  // The fast form against the slow form: on a day of live jobs that leaves no saved call
  // uncounted, reprocessing leaves every column as the jobs had accumulated it, except that
  // connected calls lose the unpaired leg-1 records and the average moves by at most half a
  // cent per batch, plus one.
  lemma ReprocessConfirmsTheLiveRow(x: Exophone, date: int, logs: seq<CallLog>, es: seq<Event>, link: Link, skipLogs: bool)
    requires AllOrderly(es) && AllSaved(es) != []
    requires Uncounted(es) == {} && FirstCopiesCounted(es)
    requires forall r :: r in Fresh({}, AllSaved(es)) ==> Mentions(r, x.number)
    ensures var d := Run(x, date, FreshDay(logs), es);
      var after := Step(x, date, d, Reprocess(link, skipLogs));
      && d.row.Some? && after.row.Some? && SameRecords(InRow(after), InRow(d))
      && SameButAverageAndConnected(d.row.value, after.row.value)
      && d.row.value.connected - after.row.value.connected
         == (if d.row.value.counters.leg2Total == 0 then 0 else Unpaired(x.number, d.batches))
      && (d.row.value.counters.leg2Total == 0 || Unpaired(x.number, d.batches) == 0
          ==> d.row.value.answerRate == after.row.value.answerRate && d.row.value.successRate == after.row.value.successRate)
      && Abs(d.row.value.avgDurationSec - after.row.value.avgDurationSec) <= HALF_CENT * (|d.batches| + 1) as real
  {
    hide Run, Step, Fresh, Mentions, Represents, AverageWithin, Stored, RowOf, SummaryOf, Flatten, Durations, Unpaired,
         DecodeHours, SameRecords;
    var d := Run(x, date, FreshDay(logs), es);
    var rs := InRow(d);
    CollectedRows(x, date, logs, es, link, skipLogs);
    LiveDay(x, date, logs, es);
    CollectedIsCounted(es);
    SummaryOfSameRecords(x.number, Fresh({}, AllSaved(es)), rs);
    RowAlwaysFaithful(x, date, logs, es);
    NothingFlattened();
    NothingElse(Fresh({}, AllSaved(es)), rs);
    OverwriteRepresents(x.number, rs);
    RowsDiffer(x.number, d.row.value, d.batches, Stored(RowOf(SummaryOf(x.number, rs))));
  }

  // How far a row accumulated in batches may be from the row of all its records at once.
  lemma RowsDiffer(vn: string, live: SnapshotRow, bs: seq<seq<CallRecord>>, whole: SnapshotRow)
    requires Flatten(bs) != [] && Represents(vn, live, bs) && AverageWithin(live, bs)
    requires Represents(vn, whole, [Flatten(bs)]) && AverageWithin(whole, [Flatten(bs)])
    ensures SameButAverageAndConnected(live, whole)
    ensures live.connected - whole.connected == if live.counters.leg2Total == 0 then 0 else Unpaired(vn, bs)
    ensures live.counters.leg2Total == 0 || Unpaired(vn, bs) == 0
      ==> live.answerRate == whole.answerRate && live.successRate == whole.successRate
    ensures Abs(live.avgDurationSec - whole.avgDurationSec) <= HALF_CENT * (|bs| + 1) as real
  {
    hide Represents, AverageWithin, Flatten, Durations, Unpaired, DecodeHours;
    var rs := Flatten(bs);
    RowsAgree(vn, live, bs, whole);
    AverageError(vn, live, bs);
    OneBatch(rs);
    AverageError(vn, whole, [rs]);
    assert HALF_CENT * (|bs| + 1) as real == HALF_CENT * |bs| as real + HALF_CENT;
    Between(live.avgDurationSec, Durations(rs) as real / |rs| as real, whole.avgDurationSec);
  }

  // The collected records are the counted ones, in some order, if and only if no saved call
  // went uncounted and first copies are saved as counted.
  lemma CollectedIsCounted(es: seq<Event>)
    requires AllOrderly(es)
    ensures SameRecords(Fresh({}, AllSaved(es)), Fresh({}, AllFetched(es)))
        <==> Uncounted(es) == {} && FirstCopiesCounted(es)
  {
    hide Fresh, AllSaved, AllFetched;
    var saved, fetched := Fresh({}, AllSaved(es)), Fresh({}, AllFetched(es));
    FetchedIsSaved(es);
    FreshKeepsEachSidOnce({}, AllSaved(es));
    FreshKeepsEachSidOnce({}, AllFetched(es));
    if Uncounted(es) == {} && FirstCopiesCounted(es) {
      assert Sids(saved) == Sids(fetched);
      forall r | r in saved ensures r in fetched {
        assert r.sid in Sids(saved);
      }
      forall r | r in fetched ensures r in saved {
        assert r.sid in Sids(saved);
        var c :| c in saved && c.sid == r.sid;
        assert c in fetched;
        SameSidSameRecord(fetched, c, r);
      }
    }
    if SameRecords(saved, fetched) {
      assert Sids(saved) == Sids(fetched);
      assert Sids(AllSaved(es)) - {} == Sids(AllSaved(es)) && Sids(AllFetched(es)) - {} == Sids(AllFetched(es));
      assert Uncounted(es) == {};
    }
  }

  lemma SameSidSameRecord(rs: seq<CallRecord>, c: CallRecord, r: CallRecord)
    requires Distinct(rs) && c in rs && r in rs && c.sid == r.sid
    ensures c == r
  {
    var i :| 0 <= i < |rs| && rs[i] == c;
    var j :| 0 <= j < |rs| && rs[j] == r;
    assert i == j;
  }

  // A vendor whose second page cannot be read.
  function BrokenChain(r: CallRecord): Api {
    (k, cursor) => if k == 0 then Answer(200, Calls([r]), "next") else Answer(200, Unreadable, "")
  }

  // The smallest day on which the two forms differ: one job reads one good page and then an
  // unreadable one. It fails and counts nothing; reprocess counts the call of the good page.
  lemma AbandonedPageIsCounted(x: Exophone, date: int, logs: seq<CallLog>, txn: string, r: CallRecord, skipLogs: bool)
    requires Mentions(r, x.number)
    ensures var es := [Live(txn, Some(OnePageRead(r)), Up, skipLogs)];
      var d := Run(x, date, FreshDay(logs), es);
      && TotalCalls(d) == 0 && d.seen == {}
      && TotalCalls(Step(x, date, d, Reprocess(Up, skipLogs))) == 1
  {
    hide Run, Step, Mentions, SavedRecords, FetchedRecords, Fresh, Consistent, OnePageRead, TotalCalls, IsFetch;
    var es := [Live(txn, Some(OnePageRead(r)), Up, skipLogs)];
    assert es[..0] == [] && [] + [r] == [r];
    OnePageIsSaved(r);
    assert AllSaved(es) == [r] && AllFetched(es) == [];
    OneFresh(r);
    ReprocessAddsUncountedCalls(x, date, logs, es, Up, skipLogs);
    LiveDay(x, date, logs, es);
    LiveTotal(x, date, logs, es);
    assert Uncounted(es) == {r.sid};
  }

  function OnePageRead(r: CallRecord): FetchResult {
    FetchResult(200, true, None, 2, [Calls([r])], Unreadable)
  }

  // That is what a fetch from such a vendor returns, and the job that gets it fails.
  lemma OnePageIsSaved(r: CallRecord)
    ensures IsFetch(BrokenChain(r), [Answer(200, Calls([r]), "next")], OnePageRead(r))
    ensures AttemptOf(OnePageRead(r)) == FailedRetryable && Consistent(OnePageRead(r))
    ensures SavedRecords(Some(OnePageRead(r))) == [r] && FetchedRecords(Some(OnePageRead(r))) == []
  {
    var page := Answer(200, Calls([r]), "next");
    assert [page][..0] == [];
    NoPages(BrokenChain(r));
    BodiesSnoc([], page);
    RecordsSnoc([], Calls([r]));
    assert [] + [page] == [page] && [] + [Calls([r])] == [Calls([r])] && [] + [r] == [r];
    WhatAbandonedChainsSave(BrokenChain(r), [page], OnePageRead(r));
  }

  lemma OneFresh(r: CallRecord)
    ensures Fresh({}, [r]) == [r] && Sids([r]) == {r.sid} && Sids([]) == {} && Fresh({}, []) == []
  {
    FreshSnoc({}, [], r);
    assert [] + [r] == [r];
  }

  lemma Between(a: real, m: real, b: real)
    ensures Abs(a - b) <= Abs(a - m) + Abs(b - m)
  {
  }

  lemma OneBatch(rs: seq<CallRecord>)
    ensures Flatten([rs]) == rs
  {
    assert [rs][..0] == [];
  }

  // Equal columns, text columns compared by what they decode to.
  ghost predicate SameButAverageAndConnected(a: SnapshotRow, b: SnapshotRow) {
    && a.total == b.total && a.counters == b.counters && a.dropped == b.dropped
    && Decode(a.breakdown) == Decode(b.breakdown)
    && DecodeHours(a.hours) == DecodeHours(b.hours) && a.peakHour == b.peakHour
    && a.dropRate == b.dropRate && a.leg1DropRate == b.leg1DropRate
  }

  // ---- What reprocess restores ----

  // Any live job, failed ones included, any backfill of the day, any reprocess that did not
  // fall back to call_logs, and other exophones' work.
  ghost predicate KeepsPages(x: Exophone, date: int, d: Day, e: Event) {
    match e
    case Live(_, fetch, _, _) => fetch.Some? ==> Consistent(fetch.value)
    case Backfill(_, result, _, _) => Consistent(result)
    case Reprocess(_, _) => Collected(x, d) != [] || ReprocessRecords(d, x, date) == []
    case Elsewhere(registered, _) => registered == []
  }

  ghost predicate AllKeepPages(x: Exophone, date: int, d: Day, es: seq<Event>) {
    es == []
    || var front := es[..|es| - 1];
       AllKeepPages(x, date, d, front) && KeepsPages(x, date, Run(x, date, d, front), es[|es| - 1])
  }

  function SavedSids(d: Day): set<string> {
    Sids(RecordsIn(UsableBodies(d.responses)))
  }

  lemma SavedSidsGrow(d: Day, more: seq<JobResponse>)
    ensures SavedSids(Save(d, more)) == SavedSids(d) + Sids(RecordsIn(UsableBodies(more)))
  {
    hide UsableBodies, RecordsIn;
    UsableConcat(d.responses, more);
    SidsConcat(RecordsIn(UsableBodies(d.responses)), RecordsIn(UsableBodies(more)));
  }

  lemma BackfilledRecordsAreSaved(result: FetchResult)
    requires Consistent(result) && BackfillUsable(result)
    ensures RecordsIn(UsableBodies(PageResponses(result))) == BackfillRecords(result)
  {
    PagesAreUsable(result, |result.pageBodies|);
    assert PageResponses(result)[..|result.pageBodies|] == PageResponses(result);
    assert result.pageBodies[..|result.pageBodies|] == result.pageBodies;
  }

  lemma CollectedIsSaved(x: Exophone, d: Day)
    ensures Sids(Collected(x, d)) <= SavedSids(d)
  {
    hide Keep, Fresh, RecordsIn, UsableBodies, Mentions;
    var saved := RecordsIn(UsableBodies(d.responses));
    FreshKeepsEachSidOnce({}, Keep(VnFilter(x.number), saved));
    KeepIsPart(VnFilter(x.number), saved);
  }

  lemma {:induction false} KeepIsPart(test: CallRecord -> bool, rs: seq<CallRecord>)
    ensures forall r :: r in Keep(test, rs) ==> r in rs
  {
    if rs != [] {
      KeepIsPart(test, rs[..|rs| - 1]);
    }
  }

  lemma SentIsPart(link: Link, rs: seq<CallRecord>)
    ensures Sids(Sent(link, rs)) <= Sids(rs)
  {
  }

  lemma StepKeepsSaved(x: Exophone, date: int, d: Day, e: Event)
    requires KeepsPages(x, date, d, e) && d.seen <= SavedSids(d)
    ensures Step(x, date, d, e).seen <= SavedSids(Step(x, date, d, e))
  {
    hide SummaryOf, InsertIgnore, LogsOf, RecordsIn, UsableBodies, SavedResponses, PageResponses, Fresh, Keep, Stored,
         RowOf, Accumulated, Sent;
    assert Sids([]) == {};
    match e
    case Live(_, fetch, link, _) =>
      SavedSidsGrow(d, SavedResponses(fetch));
      if HasRecords(fetch) {
        CountedRecordsAreSaved(fetch.value);
        SentIsPart(link, fetch.value.response.value);
      }
    case Backfill(_, result, link, _) =>
      if BackfillUsable(result) {
        SavedSidsGrow(d, PageResponses(result));
        BackfilledRecordsAreSaved(result);
        SentIsPart(link, BackfillRecords(result));
      }
    case Reprocess(link, _) =>
      CollectedIsSaved(x, d);
      SentIsPart(link, ReprocessRecords(d, x, date));
    case Elsewhere(_, _) =>
  }

  // Every Sid registered by live jobs, backfills and reprocesses from pages is on a saved
  // page, also when the row no longer counts it.
  lemma {:induction false} RegisteredSidsAreSaved(x: Exophone, date: int, logs: seq<CallLog>, es: seq<Event>)
    requires AllKeepPages(x, date, FreshDay(logs), es)
    ensures var d := Run(x, date, FreshDay(logs), es); d.seen <= SavedSids(d)
  {
    hide Step, KeepsPages, SavedSids;
    if es != [] {
      var front := es[..|es| - 1];
      RegisteredSidsAreSaved(x, date, logs, front);
      StepKeepsSaved(x, date, Run(x, date, FreshDay(logs), front), es[|es| - 1]);
    }
  }

  // Whatever failures, partial backfills, reprocesses and overlaps a clean day has seen,
  // reprocessing it makes the row count every registered Sid, provided the saved records
  // mention the number.
  lemma ReprocessCompletesTheDay(x: Exophone, date: int, logs: seq<CallLog>, es: seq<Event>, skipLogs: bool)
    requires UniqueKeys(logs) && AllClean(es)
    requires AllKeepPages(x, date, FreshDay(logs), es)
    requires forall r :: r in RecordsIn(UsableBodies(Run(x, date, FreshDay(logs), es).responses)) ==> Mentions(r, x.number)
    ensures Complete(Step(x, date, Run(x, date, FreshDay(logs), es), Reprocess(Up, skipLogs)))
  {
    hide Step, Run, KeepsPages, RecordsIn, UsableBodies, UniqueKeys, Mentions, Fresh, Keep, LogsOfDay, RecordsOfLogs;
    var d := Run(x, date, FreshDay(logs), es);
    var saved := RecordsIn(UsableBodies(d.responses));
    var test := VnFilter(x.number);
    RegisteredSidsAreSaved(x, date, logs, es);
    EveryCallOnce(x, date, logs, es);
    StepKeepsComplete(x, date, d, Reprocess(Up, skipLogs));
    FilterKeepsMentions(x.number);
    AllKept(test, saved);
    FreshKeepsEachSidOnce({}, saved);
    assert Sids(saved) - {} == Sids(saved);
    if Fresh({}, saved) == [] {
      assert Sids([]) == {};
      assert d.seen == {};
      assert Sids(InRow(d)) == {};
    }
  }

  lemma {:induction false} AllKept(test: CallRecord -> bool, rs: seq<CallRecord>)
    requires forall r :: r in rs ==> test(r)
    ensures Keep(test, rs) == rs
  {
    if rs != [] {
      var front, last := rs[..|rs| - 1], rs[|rs| - 1];
      assert rs == front + [last] && last in rs;
      AllKept(test, front);
    }
  }

  // ---- Without pages ----

  // The Sids stored for this exophone and date.
  function StoredSids(d: Day, x: Exophone, date: int): set<string> {
    set cl | cl in d.logs && IsOfDay(cl, x.id, date) :: cl.callSid
  }

  lemma StoredSidsAreFound(d: Day, x: Exophone, date: int)
    ensures Sids(RecordsOfLogs(LogsOfDay(d.logs, x.id, date))) == StoredSids(d, x, date)
  {
    hide RecordsOfLogs, LogsOfDay;
    LogsOfDayExactly(d.logs, x.id, date);
    SidsOfLogs(LogsOfDay(d.logs, x.id, date));
  }

  lemma NoneCollected(d: Day, x: Exophone)
    requires forall r :: OnReadablePage(d.responses, r) ==> !Mentions(r, x.number)
    ensures Collected(x, d) == []
  {
    hide Keep, Fresh, RecordsIn, UsableBodies, Mentions, OnReadablePage, Distinct;
    CollectedByNumber(d.responses, x.number);
    var rs := Collected(x, d);
    forall r ensures r !in rs {
    }
    assert Sids(rs) == {};
    NoSidsIffNothing(rs);
  }

  // When some saved page holds a call of the number, reprocess writes the row from those calls
  // alone, each once.
  lemma ReprocessWritesTheMentioned(x: Exophone, date: int, d: Day, link: Link, skipLogs: bool)
    requires exists r :: OnReadablePage(d.responses, r) && Mentions(r, x.number)
    ensures var after := Step(x, date, d, Reprocess(link, skipLogs));
      after.row.Some? && CollectsByNumber(d.responses, x.number, InRow(after))
  {
    hide Fresh, Keep, RecordsIn, UsableBodies, SummaryOf, InsertIgnore, LogsOf, Stored, RowOf, InRow, Mentions,
         OnReadablePage, Sids, Distinct;
    CollectedByNumber(d.responses, x.number);
    var rs := Collected(x, d);
    NoSidsIffNothing(rs);
    assert ReprocessRecords(d, x, date) == rs;
    OverwriteCounts(d, Origin("REPROCESS", x), rs, link, skipLogs);
  }

  // When no saved page holds a call of the number, reprocess writes the row from the stored
  // rows of that exophone and date, and from nothing else; without any it changes nothing.
  lemma ReprocessFallsBack(x: Exophone, date: int, d: Day, link: Link, skipLogs: bool)
    requires forall r :: OnReadablePage(d.responses, r) ==> !Mentions(r, x.number)
    ensures var after := Step(x, date, d, Reprocess(link, skipLogs));
      if StoredSids(d, x, date) == {} then after == d
      else Sids(InRow(after)) == StoredSids(d, x, date) && after.row.Some?
  {
    hide Fresh, Keep, RecordsIn, UsableBodies, SummaryOf, InsertIgnore, LogsOf, Stored, RowOf, InRow, Mentions,
         OnReadablePage, LogsOfDay, RecordsOfLogs, StoredSids, Sids;
    NoneCollected(d, x);
    StoredSidsAreFound(d, x, date);
    var rs := RecordsOfLogs(LogsOfDay(d.logs, x.id, date));
    assert ReprocessRecords(d, x, date) == rs;
    NoSidsIffNothing(rs);
    OverwriteCounts(d, Origin("REPROCESS", x), rs, link, skipLogs);
  }

  lemma NoSidsIffNothing(rs: seq<CallRecord>)
    ensures Sids(rs) == {} <==> rs == []
  {
    assert rs != [] ==> rs[0].sid in Sids(rs);
  }

  lemma SidsOfLogs(logs: seq<CallLog>)
    ensures Sids(RecordsOfLogs(logs)) == set cl | cl in logs :: cl.callSid
    ensures RecordsOfLogs(logs) == [] <==> logs == []
  {
    forall cl | cl in logs ensures cl.callSid in Sids(RecordsOfLogs(logs)) {
      var i :| 0 <= i < |logs| && logs[i] == cl;
      assert RecordsOfLogs(logs)[i] in RecordsOfLogs(logs);
    }
  }
}
