// Whole runs of one exophone's day, every job and handler atomic and one after the other.
module PipelineLaws {
  import opened Text
  import opened Records
  import opened Engine
  import opened EngineLaws
  import opened Snapshots
  import opened SnapshotLaws
  import opened Dedup
  import opened CallLogs
  import opened Pagination
  import opened Pipeline

  // What can happen to a day. Elsewhere stands for everything done for other days and other
  // exophones: their rows go into the shared call_logs, and a backfill or reprocess of an
  // earlier day of this exophone registers its Sids in this day's set.
  datatype Event =
    | Live(transactionId: string, fetch: Option<FetchResult>, link: Link, skipLogs: bool)
    | Backfill(transactionId: string, result: FetchResult, link: Link, skipLogs: bool)
    | Reprocess(link: Link, skipLogs: bool)
    | Elsewhere(registered: seq<CallRecord>, rows: seq<CallLog>)

  // The day before anything has run; call_logs may hold rows of other days and exophones.
  function FreshDay(logs: seq<CallLog>): Day {
    Day({}, None, [], logs, [])
  }

  ghost function Step(x: Exophone, date: int, d: Day, e: Event): Day {
    match e
    case Live(txn, fetch, link, skip) => LiveStep(d, Origin(txn, x), fetch, link, skip)
    case Backfill(txn, result, link, skip) => BackfillStep(d, Origin(txn, x), result, link, skip)
    case Reprocess(link, skip) => ReprocessStep(d, Origin("REPROCESS", x), date, link, skip)
    case Elsewhere(registered, rows) => d.(seen := d.seen + Sids(registered), logs := InsertIgnore(d.logs, rows))
  }

  ghost function Run(x: Exophone, date: int, d: Day, es: seq<Event>): Day {
    if es == [] then d else Step(x, date, Run(x, date, d, es[..|es| - 1]), es[|es| - 1])
  }

  lemma {:induction false} RunConcat(x: Exophone, date: int, d: Day, a: seq<Event>, b: seq<Event>)
    ensures Run(x, date, d, a + b) == Run(x, date, Run(x, date, d, a), b)
  {
    hide Step;
    if b == [] {
      assert a + b == a;
    } else {
      RunConcat(x, date, d, a, b[..|b| - 1]);
      assert (a + b)[..|a + b| - 1] == a + b[..|b| - 1];
    }
  }

  // The records the row currently stands for.
  ghost function InRow(d: Day): seq<CallRecord> {
    Flatten(d.batches)
  }

  // A day without a row shows no calls.
  function TotalCalls(d: Day): nat {
    if d.row.Some? then d.row.value.total else 0
  }

  // ---- The row always stands for the records counted into it ----

  ghost predicate RowFaithful(vn: string, d: Day) {
    if d.row.None? then d.batches == []
    else Represents(vn, d.row.value, d.batches) && AverageWithin(d.row.value, d.batches)
  }

  lemma StepKeepsRowFaithful(x: Exophone, date: int, d: Day, e: Event)
    requires RowFaithful(x.number, d)
    ensures RowFaithful(x.number, Step(x, date, d, e))
  {
    hide Represents, AverageWithin, Stored, Accumulated, RowOf, SummaryOf, Fresh, InsertIgnore, LogsOf, RecordsIn,
         Keep;
    if e.Live? && HasRecords(e.fetch) {
      var counted := Counted(d.seen, e.fetch.value.response.value, e.link);
      SummaryTotal(x.number, counted);
      if counted != [] {
        var row := if d.row.Some? then d.row.value else EMPTY_ROW;
        if d.row.None? {
          EmptyRowRepresentsNothing(x.number);
        }
        RepresentsTotal(x.number, row, d.batches);
        AccumulateRepresents(x.number, row, d.batches, counted);
        AccumulateAverage(x.number, row, d.batches, counted);
      }
    } else if e.Backfill? && BackfillUsable(e.result) {
      OverwriteRepresents(x.number, BackfillRecords(e.result));
    } else if e.Reprocess? {
      OverwriteRepresents(x.number, ReprocessRecords(d, x, date));
    }
  }

  // Over every run, mixing live jobs, backfills and reprocesses, with or without the cache,
  // every column of the row is what its counted records say.
  lemma {:induction false} RowAlwaysFaithful(x: Exophone, date: int, logs: seq<CallLog>, es: seq<Event>)
    ensures RowFaithful(x.number, Run(x, date, FreshDay(logs), es))
  {
    hide Step, Represents, AverageWithin;
    if es != [] {
      var front := es[..|es| - 1];
      RowAlwaysFaithful(x, date, logs, front);
      StepKeepsRowFaithful(x, date, Run(x, date, FreshDay(logs), front), es[|es| - 1]);
    }
  }

  // ---- Each call counts once ----

  // The cache answers, and a backfill's fetch does not repeat a Sid.
  ghost predicate Clean(e: Event) {
    match e
    case Live(_, _, link, _) => link.Up?
    case Backfill(_, result, link, _) => link.Up? && (result.response.Some? ==> Distinct(result.response.value))
    case Reprocess(link, _) => link.Up?
    case Elsewhere(_, _) => true
  }

  ghost predicate AllClean(es: seq<Event>) {
    forall i :: 0 <= i < |es| ==> Clean(es[i])
  }

  ghost predicate CountedOnce(d: Day) {
    Distinct(InRow(d)) && Sids(InRow(d)) <= d.seen && UniqueKeys(d.logs)
  }

  lemma LiveCounts(d: Day, origin: Origin, rs: seq<CallRecord>, skipLogs: bool)
    ensures var after := CountStep(d, origin, rs, Up, skipLogs);
      && InRow(after) == InRow(d) + Fresh(d.seen, rs)
      && after.seen == d.seen + Sids(rs)
  {
    hide Fresh, SummaryOf, InsertIgnore, LogsOf;
    var counted := Fresh(d.seen, rs);
    FlattenSnoc(d.batches, counted);
    assert InRow(d) + [] == InRow(d);
  }

  lemma LogsStayUnique(d: Day, origin: Origin, rs: seq<CallRecord>)
    requires UniqueKeys(d.logs)
    ensures UniqueKeys(InsertIgnore(d.logs, LogsOf(origin, rs)))
  {
    InsertIgnoreKeepsFirst(d.logs, LogsOf(origin, rs));
  }

  lemma OverwriteCounts(d: Day, origin: Origin, rs: seq<CallRecord>, link: Link, skipLogs: bool)
    ensures InRow(OverwriteStep(d, origin, rs, link, skipLogs)) == rs
  {
    hide SummaryOf, Stored, RowOf, InsertIgnore, LogsOf;
    assert [rs][..0] == [] && Flatten([rs]) == rs;
  }

  lemma ReprocessRecordsAreDistinct(d: Day, x: Exophone, date: int)
    requires UniqueKeys(d.logs)
    ensures Distinct(ReprocessRecords(d, x, date))
  {
    FreshKeepsEachSidOnce({}, Keep(VnFilter(x.number), RecordsIn(UsableBodies(d.responses))));
    LogsOfDayAreDistinct(d.logs, x.id, date);
  }

  lemma StepKeepsCountedOnce(x: Exophone, date: int, d: Day, e: Event)
    requires CountedOnce(d) && Clean(e)
    ensures CountedOnce(Step(x, date, d, e))
    ensures d.seen <= Step(x, date, d, e).seen
  {
    hide Distinct, UniqueKeys, Fresh, Keep, InsertIgnore, LogsOf, SummaryOf, RecordsIn, Flatten, ReprocessRecords;
    match e
    case Live(txn, fetch, _, skip) =>
      if HasRecords(fetch) {
        var rs := fetch.value.response.value;
        var before := Save(d, SavedResponses(fetch));
        LiveCounts(before, Origin(txn, x), rs, skip);
        FreshKeepsEachSidOnce(d.seen, rs);
        DistinctConcat(InRow(d), Fresh(d.seen, rs));
        SidsConcat(InRow(d), Fresh(d.seen, rs));
        LogsStayUnique(d, Origin(txn, x), Fresh(d.seen, rs));
      }
    case Backfill(txn, result, link, skip) =>
      if BackfillUsable(result) {
        var rs := BackfillRecords(result);
        OverwriteCounts(Save(d, PageResponses(result)), Origin(txn, x), rs, link, skip);
        LogsStayUnique(d, Origin(txn, x), rs);
        NothingIsDistinct();
      }
    case Reprocess(link, skip) =>
      var rs := ReprocessRecords(d, x, date);
      ReprocessRecordsAreDistinct(d, x, date);
      OverwriteCounts(d, Origin("REPROCESS", x), rs, link, skip);
      LogsStayUnique(d, Origin("REPROCESS", x), rs);
    case Elsewhere(_, rows) =>
      InsertIgnoreKeepsFirst(d.logs, rows);
  }

  lemma NothingIsDistinct()
    ensures Distinct([])
  {
  }

  // Over every clean run the row counts no Sid twice, all counted Sids are registered, and
  // TotalCalls is the number of different Sids.
  lemma {:induction false} EveryCallOnce(x: Exophone, date: int, logs: seq<CallLog>, es: seq<Event>)
    requires UniqueKeys(logs) && AllClean(es)
    ensures var d := Run(x, date, FreshDay(logs), es);
      CountedOnce(d) && (d.row.Some? ==> d.row.value.total == |Sids(InRow(d))|)
  {
    hide Step, Distinct, UniqueKeys, Represents, AverageWithin;
    var d := Run(x, date, FreshDay(logs), es);
    if es == [] {
      NothingIsDistinct();
    } else {
      var front := es[..|es| - 1];
      EveryCallOnce(x, date, logs, front);
      StepKeepsCountedOnce(x, date, Run(x, date, FreshDay(logs), front), es[|es| - 1]);
      RowAlwaysFaithful(x, date, logs, es);
      DistinctCount(InRow(d));
      if d.row.Some? {
        RepresentsTotal(x.number, d.row.value, d.batches);
      }
    }
  }

  // One job when the cache fails, however far the pipeline got: it counts every record it
  // fetched; the row then repeats no Sid exactly when the fetch repeats none and brings none
  // that was already counted.
  lemma CountingWithoutTheCache(d: Day, origin: Origin, rs: seq<CallRecord>, link: Link, skipLogs: bool)
    requires Distinct(InRow(d)) && link.Down?
    ensures var after := CountStep(d, origin, rs, link, skipLogs);
      && InRow(after) == InRow(d) + rs
      && (Distinct(InRow(after)) <==> Distinct(rs) && Sids(rs) !! Sids(InRow(d)))
  {
    hide Distinct, SummaryOf, InsertIgnore, LogsOf;
    FlattenSnoc(d.batches, rs);
    assert InRow(d) + [] == InRow(d);
    DistinctConcat(InRow(d), rs);
  }

  // What a live job may bring without repeating a call in the row. With the cache up it skips
  // registered calls only, so what it shares with the row must be registered; a job that
  // counted calls while the cache was down may not have registered them.
  ghost predicate BringsNoRepeat(d: Day, e: Event) {
    e.Live? && HasRecords(e.fetch) ==>
      var rs := e.fetch.value.response.value;
      if e.link.Up? then Sids(rs) * Sids(InRow(d)) <= d.seen
      else Distinct(rs) && Sids(rs) !! Sids(InRow(d))
  }

  lemma LiveStepRepeats(x: Exophone, date: int, d: Day, e: Event)
    requires e.Live? || e.Elsewhere?
    ensures Distinct(InRow(Step(x, date, d, e))) <==> Distinct(InRow(d)) && BringsNoRepeat(d, e)
  {
    hide Distinct, Sids, Fresh, SummaryOf, InsertIgnore, LogsOf, SavedResponses, AccumulateInto, Flatten;
    if e.Live? && HasRecords(e.fetch) {
      var rs := e.fetch.value.response.value;
      var before := Save(d, SavedResponses(e.fetch));
      BatchJoinsRow(before, Origin(e.transactionId, x), rs, e.link, e.skipLogs);
      DistinctConcat(InRow(d), Pipeline.Counted(d.seen, rs, e.link));
      FreshKeepsEachSidOnce(d.seen, rs);
    }
  }

  lemma BatchJoinsRow(d: Day, origin: Origin, rs: seq<CallRecord>, link: Link, skipLogs: bool)
    ensures InRow(CountStep(d, origin, rs, link, skipLogs)) == InRow(d) + Counted(d.seen, rs, link)
  {
    hide Fresh, SummaryOf, InsertIgnore, LogsOf;
    FlattenSnoc(d.batches, Counted(d.seen, rs, link));
    assert InRow(d) + [] == InRow(d);
  }

  // Every step since the last overwrite brings no repeat, and that overwrite has none itself.
  ghost predicate NoRepeats(x: Exophone, date: int, d: Day, es: seq<Event>) {
    if es == [] then Distinct(InRow(d))
    else
      var front, e := es[..|es| - 1], es[|es| - 1];
      var before := Run(x, date, d, front);
      match Rewrites(x, date, before, e)
      case Some(rs) => Distinct(rs)
      case None => NoRepeats(x, date, d, front) && BringsNoRepeat(before, e)
  }

  // The exact law over every run from any day, with any mix of events and of cache failures:
  // the row repeats no Sid if and only if none was brought twice.
  lemma {:induction false} RowRepeatsExactly(x: Exophone, date: int, d: Day, es: seq<Event>)
    ensures Distinct(InRow(Run(x, date, d, es))) <==> NoRepeats(x, date, d, es)
  {
    hide Step, Distinct, InRow, Rewrites, BringsNoRepeat;
    if es != [] {
      var front, e := es[..|es| - 1], es[|es| - 1];
      RowRepeatsExactly(x, date, d, front);
      StepRepeats(x, date, Run(x, date, d, front), e);
    }
  }

  lemma StepRepeats(x: Exophone, date: int, d: Day, e: Event)
    ensures match Rewrites(x, date, d, e)
      case Some(rs) => InRow(Step(x, date, d, e)) == rs
      case None => Distinct(InRow(Step(x, date, d, e))) <==> Distinct(InRow(d)) && BringsNoRepeat(d, e)
  {
    hide Distinct, SummaryOf, InsertIgnore, LogsOf, Stored, RowOf, Flatten, ReprocessRecords, Fresh;
    match e
    case Live(_, _, _, _) => LiveStepRepeats(x, date, d, e);
    case Elsewhere(_, _) => LiveStepRepeats(x, date, d, e);
    case Backfill(txn, result, link, skip) =>
      OverwriteCounts(Save(d, PageResponses(result)), Origin(txn, x), BackfillRecords(result), link, skip);
    case Reprocess(link, skip) =>
      OverwriteCounts(d, Origin("REPROCESS", x), ReprocessRecords(d, x, date), link, skip);
  }

  ghost predicate EachBringsNoRepeat(x: Exophone, date: int, d: Day, es: seq<Event>) {
    forall i :: 0 <= i < |es| ==> BringsNoRepeat(Run(x, date, d, es[..i]), es[i])
  }

  lemma EachAndTheLast(x: Exophone, date: int, d: Day, front: seq<Event>, e: Event)
    ensures EachBringsNoRepeat(x, date, d, front + [e])
        <==> EachBringsNoRepeat(x, date, d, front) && BringsNoRepeat(Run(x, date, d, front), e)
  {
    hide Run, BringsNoRepeat;
    var es, n := front + [e], |front|;
    assert es[..n] == front && es[n] == e;
    assert forall i :: 0 <= i < n ==> front[..i] == es[..i] && front[i] == es[i];
    if EachBringsNoRepeat(x, date, d, front) && BringsNoRepeat(Run(x, date, d, front), e) {
      forall i | 0 <= i < |es| ensures BringsNoRepeat(Run(x, date, d, es[..i]), es[i]) {
        if i < n {
          assert BringsNoRepeat(Run(x, date, d, front[..i]), front[i]);
        }
      }
    }
    if EachBringsNoRepeat(x, date, d, es) {
      assert BringsNoRepeat(Run(x, date, d, es[..n]), es[n]);
      forall i | 0 <= i < n ensures BringsNoRepeat(Run(x, date, d, front[..i]), front[i]) {
        assert BringsNoRepeat(Run(x, date, d, es[..i]), es[i]);
      }
    }
  }

  // For live jobs alone, with any cache failures: every single job has to bring no repeat.
  lemma {:induction false} LiveRunRepeatsExactly(x: Exophone, date: int, d: Day, es: seq<Event>)
    requires Distinct(InRow(d)) && forall i :: 0 <= i < |es| ==> es[i].Live? || es[i].Elsewhere?
    ensures Distinct(InRow(Run(x, date, d, es))) <==> EachBringsNoRepeat(x, date, d, es)
  {
    hide Step, Distinct, InRow, BringsNoRepeat, EachBringsNoRepeat;
    if es == [] {
      NothingBrought(x, date, d);
    } else {
      var front, e := es[..|es| - 1], es[|es| - 1];
      assert es == front + [e];
      LiveRunRepeatsExactly(x, date, d, front);
      LiveStepRepeats(x, date, Run(x, date, d, front), e);
      EachAndTheLast(x, date, d, front, e);
    }
  }

  lemma NothingBrought(x: Exophone, date: int, d: Day)
    ensures EachBringsNoRepeat(x, date, d, [])
  {
  }

  function OnePage(r: CallRecord): FetchResult {
    FetchResult(200, false, Some([r]), 1, [Calls([r])], Calls([r]))
  }

  lemma OnePageJob(x: Exophone, date: int, d: Day, txn: string, r: CallRecord, link: Link, skipLogs: bool)
    requires r.sid !in d.seen
    ensures var after := Step(x, date, d, Live(txn, Some(OnePage(r)), link, skipLogs));
      && InRow(after) == InRow(d) + [r]
      && (link == Down(0) ==> after.seen == d.seen)
  {
    hide SummaryOf, InsertIgnore, LogsOf, SavedResponses, AccumulateInto, Flatten, Fresh, Sids;
    var saved := Save(d, SavedResponses(Some(OnePage(r))));
    BatchJoinsRow(saved, Origin(txn, x), [r], link, skipLogs);
    assert [r] == [] + [r];
    FreshSnoc(d.seen, [], r);
    NothingFresh(d.seen);
    NoSidsInNothing();
    NothingSent(d.seen, [r]);
  }

  lemma NoSidsInNothing()
    ensures Sids([]) == {}
  {
  }

  lemma RunOfTwo(x: Exophone, date: int, d: Day, a: Event, b: Event)
    ensures Run(x, date, d, [a, b]) == Step(x, date, Step(x, date, d, a), b)
  {
    hide Step;
    assert [a, b][..1] == [a] && [a][..0] == [];
    assert Run(x, date, d, []) == d && Run(x, date, d, [a]) == Step(x, date, d, a);
  }

  // The smallest outage that counts a call twice: the cache is down for one job, which counts
  // the call without registering it, and up again for the next, whose window overlaps. The
  // first job on its own brings no repeat.
  lemma OutageCountsTwice(x: Exophone, date: int, logs: seq<CallLog>, txn: string, r: CallRecord, skipLogs: bool)
    ensures var es := [Live(txn, Some(OnePage(r)), Down(0), skipLogs), Live(txn, Some(OnePage(r)), Up, skipLogs)];
      && BringsNoRepeat(FreshDay(logs), es[0])
      && InRow(Run(x, date, FreshDay(logs), es)) == [r, r]
  {
    hide Step, Run, OnePage;
    var down, up := Live(txn, Some(OnePage(r)), Down(0), skipLogs), Live(txn, Some(OnePage(r)), Up, skipLogs);
    var d := FreshDay(logs);
    NothingFlattened();
    BringsOne(d, txn, r, skipLogs);
    RunOfTwo(x, date, d, down, up);
    OnePageJob(x, date, d, txn, r, Down(0), skipLogs);
    OnePageJob(x, date, Step(x, date, d, down), txn, r, Up, skipLogs);
    assert [] + [r] + [r] == [r, r];
  }

  lemma BringsOne(d: Day, txn: string, r: CallRecord, skipLogs: bool)
    requires InRow(d) == []
    ensures BringsNoRepeat(d, Live(txn, Some(OnePage(r)), Down(0), skipLogs))
  {
    NoSidsInNothing();
  }

  // ---- What is saved, and which backfills count ----

  // The rows added to the saved replies: the bodies in order, each under the status.
  ghost predicate AddsRows(d: Day, after: Day, status: int, bodies: seq<Body>) {
    && d.responses <= after.responses && |after.responses| == |d.responses| + |bodies|
    && forall i :: 0 <= i < |bodies| ==> after.responses[|d.responses| + i] == JobResponse(status, bodies[i])
  }

  // A live job saves what its last call brought, counted or not: the pages when there are any,
  // else the raw reply, and an unreadable one under status 0 when there was no call.
  lemma LiveJobsSaveTheirReply(x: Exophone, date: int, d: Day, txn: string, fetch: Option<FetchResult>, link: Link,
                               skipLogs: bool)
    ensures var after := Step(x, date, d, Live(txn, fetch, link, skipLogs));
      match fetch
      case None => AddsRows(d, after, 0, [Unreadable])
      case Some(f) => AddsRows(d, after, f.httpStatus, if |f.pageBodies| > 0 then f.pageBodies else [f.rawBody])
  {
    hide Step;
    SavedIsAppended(x, date, d, txn, fetch, link, skipLogs);
  }

  lemma SavedIsAppended(x: Exophone, date: int, d: Day, txn: string, fetch: Option<FetchResult>, link: Link,
                        skipLogs: bool)
    ensures Step(x, date, d, Live(txn, fetch, link, skipLogs)).responses == d.responses + SavedResponses(fetch)
  {
    hide SavedResponses, SummaryOf, Fresh, InsertIgnore, LogsOf, AccumulateInto;
  }

  // When the pipeline breaks after n commands, the first n fetched Sids are in the set.
  lemma OutageRegistersTheFirst(x: Exophone, date: int, d: Day, txn: string, fetch: Option<FetchResult>, n: nat,
                                skipLogs: bool)
    requires HasRecords(fetch)
    ensures var rs := fetch.value.response.value;
      Step(x, date, d, Live(txn, fetch, Down(n), skipLogs)).seen
      == d.seen + set i | 0 <= i < |rs| && i < n :: rs[i].sid
  {
    hide SummaryOf, Fresh, InsertIgnore, LogsOf, AccumulateInto;
    var rs := fetch.value.response.value;
    var sent := Sent(Down(n), rs);
    assert forall i :: 0 <= i < |sent| ==> sent[i] == rs[i] && sent[i] in sent;
  }

  // A backfill whose fetch failed or ended outside 2xx changes nothing; any other saves its
  // pages and makes the row count what it fetched, and nothing else.
  lemma BackfillsNeedASuccess(x: Exophone, date: int, d: Day, txn: string, f: FetchResult, link: Link, skipLogs: bool)
    ensures var after := Step(x, date, d, Backfill(txn, f, link, skipLogs));
      if f.failed || f.httpStatus < 200 || f.httpStatus >= 300 then after == d
      else
        && AddsRows(d, after, f.httpStatus, f.pageBodies)
        && after.row.Some? && InRow(after) == if f.response.Some? then f.response.value else []
  {
    hide SummaryOf, Stored, RowOf, InsertIgnore, LogsOf, InRow;
    OverwriteCounts(Save(d, PageResponses(f)), Origin(txn, x), BackfillRecords(f), link, skipLogs);
  }

  // ---- Counted calls are logged, unless logging is off ----

  ghost predicate IsLogged(logs: seq<CallLog>, x: Exophone, sid: string) {
    exists i :: 0 <= i < |logs| && logs[i].exophoneId == x.id && logs[i].callSid == sid
  }

  lemma {:induction false} InsertedAreLogged(table: seq<CallLog>, origin: Origin, rs: seq<CallRecord>)
    ensures var t := InsertIgnore(table, LogsOf(origin, rs));
      table <= t && forall r :: r in rs ==> IsLogged(t, origin.exophone, r.sid)
  {
    hide LogOf;
    var rows := LogsOf(origin, rs);
    var t := InsertIgnore(table, rows);
    InsertIgnoreKeepsFirst(table, rows);
    forall r | r in rs ensures IsLogged(t, origin.exophone, r.sid) {
      var k :| 0 <= k < |rs| && rs[k] == r;
      assert HoldsKey(t, rows[k]);
      var i :| 0 <= i < |t| && SameKey(t[i], rows[k]);
      LogKey(origin, r);
    }
  }

  lemma LogKey(origin: Origin, r: CallRecord)
    ensures LogOf(origin, r).exophoneId == origin.exophone.id && LogOf(origin, r).callSid == r.sid
  {
  }

  // A live job logs what it adds to the row, and an overwrite everything it writes; old rows
  // stay. With logging off the table does not change.
  lemma CountedCallsAreLogged(d: Day, origin: Origin, rs: seq<CallRecord>, link: Link, skipLogs: bool)
    ensures var after := CountStep(d, origin, rs, link, skipLogs);
      && InRow(d) <= InRow(after)
      && if skipLogs then after.logs == d.logs
         else d.logs <= after.logs
              && forall r :: r in InRow(after)[|InRow(d)|..] ==> IsLogged(after.logs, origin.exophone, r.sid)
  {
    hide Counted, SummaryOf, InsertIgnore, LogsOf, AccumulateInto, Flatten, IsLogged;
    BatchJoinsRow(d, origin, rs, link, skipLogs);
    var counted := Counted(d.seen, rs, link);
    assert (InRow(d) + counted)[|InRow(d)|..] == counted;
    InsertedAreLogged(d.logs, origin, counted);
  }

  lemma OverwrittenCallsAreLogged(d: Day, origin: Origin, rs: seq<CallRecord>, link: Link, skipLogs: bool)
    ensures var after := OverwriteStep(d, origin, rs, link, skipLogs);
      if skipLogs then after.logs == d.logs
      else d.logs <= after.logs && forall r :: r in InRow(after) ==> IsLogged(after.logs, origin.exophone, r.sid)
  {
    hide SummaryOf, InsertIgnore, LogsOf, Stored, RowOf, Flatten, IsLogged;
    OverwriteCounts(d, origin, rs, link, skipLogs);
    InsertedAreLogged(d.logs, origin, rs);
  }

  // ---- When the row covers everything registered ----

  ghost predicate Complete(d: Day) {
    Sids(InRow(d)) == d.seen
  }

  // The records an overwriting event writes the row from; None when it overwrites nothing.
  ghost function Rewrites(x: Exophone, date: int, d: Day, e: Event): Option<seq<CallRecord>> {
    match e
    case Live(_, _, _, _) => None
    case Elsewhere(_, _) => None
    case Backfill(_, result, _, _) =>
      if !BackfillUsable(result) then None
      else Some(BackfillRecords(result))
    case Reprocess(_, _) =>
      if ReprocessRecords(d, x, date) == [] then None else Some(ReprocessRecords(d, x, date))
  }

  // The Sids that work for other days puts into this day's set.
  function Registers(e: Event): set<string> {
    if e.Elsewhere? then Sids(e.registered) else {}
  }

  lemma StepKeepsComplete(x: Exophone, date: int, d: Day, e: Event)
    requires CountedOnce(d) && Clean(e)
    ensures var after := Step(x, date, d, e);
      match Rewrites(x, date, d, e)
      case None => Registers(e) == {} ==> (Complete(after) <==> Complete(d))
      case Some(rs) => Complete(after) <==> d.seen <= Sids(rs)
  {
    hide Distinct, UniqueKeys, Fresh, Keep, InsertIgnore, LogsOf, SummaryOf, RecordsIn, Flatten, ReprocessRecords;
    match e
    case Live(txn, fetch, _, skip) =>
      if HasRecords(fetch) {
        var rs := fetch.value.response.value;
        LiveCounts(Save(d, SavedResponses(fetch)), Origin(txn, x), rs, skip);
        FreshKeepsEachSidOnce(d.seen, rs);
        SidsConcat(InRow(d), Fresh(d.seen, rs));
      }
    case Backfill(txn, result, link, skip) =>
      if BackfillUsable(result) {
        OverwriteCounts(Save(d, PageResponses(result)), Origin(txn, x),
                        BackfillRecords(result), link, skip);
      }
    case Reprocess(link, skip) =>
      OverwriteCounts(d, Origin("REPROCESS", x), ReprocessRecords(d, x, date), link, skip);
    case Elsewhere(_, _) =>
  }

  // No event of this stretch rewrites the row or registers another day's Sids.
  ghost predicate NoRewrite(x: Exophone, date: int, d: Day, es: seq<Event>) {
    es == []
    || var front := es[..|es| - 1];
       && NoRewrite(x, date, d, front)
       && Rewrites(x, date, Run(x, date, d, front), es[|es| - 1]) == None
       && Registers(es[|es| - 1]) == {}
  }

  lemma {:induction false} UnrewrittenStretch(x: Exophone, date: int, d: Day, es: seq<Event>)
    requires CountedOnce(d) && AllClean(es) && NoRewrite(x, date, d, es)
    ensures CountedOnce(Run(x, date, d, es))
    ensures Complete(Run(x, date, d, es)) <==> Complete(d)
  {
    hide Step, Rewrites, CountedOnce, Complete;
    if es != [] {
      var front := es[..|es| - 1];
      UnrewrittenStretch(x, date, d, front);
      StepKeepsComplete(x, date, Run(x, date, d, front), es[|es| - 1]);
      StepKeepsCountedOnce(x, date, Run(x, date, d, front), es[|es| - 1]);
    }
  }

  // The last overwrite decides: at the end of a clean run the row counts exactly the
  // registered Sids if and only if that overwrite covered every Sid registered before it.
  lemma LastOverwriteDecides(x: Exophone, date: int, logs: seq<CallLog>, es: seq<Event>, e: Event, rest: seq<Event>)
    requires UniqueKeys(logs) && AllClean(es + [e] + rest)
    requires Rewrites(x, date, Run(x, date, FreshDay(logs), es), e).Some?
    requires NoRewrite(x, date, Run(x, date, FreshDay(logs), es + [e]), rest)
    ensures var before := Run(x, date, FreshDay(logs), es);
      Complete(Run(x, date, FreshDay(logs), es + [e] + rest)) <==> before.seen <= Sids(Rewrites(x, date, before, e).value)
  {
    hide Step, Rewrites, CountedOnce, Complete, UniqueKeys;
    var all := es + [e] + rest;
    assert forall i :: 0 <= i < |es| ==> all[i] == es[i];
    assert all[|es|] == e;
    assert forall i :: 0 <= i < |rest| ==> all[|es| + 1 + i] == rest[i];
    EveryCallOnce(x, date, logs, es);
    var before := Run(x, date, FreshDay(logs), es);
    StepKeepsComplete(x, date, before, e);
    StepKeepsCountedOnce(x, date, before, e);
    assert (es + [e])[..|es|] == es;
    UnrewrittenStretch(x, date, Run(x, date, FreshDay(logs), es + [e]), rest);
    RunConcat(x, date, FreshDay(logs), es + [e], rest);
  }

  // Without any overwrite the row always counts exactly the registered Sids.
  lemma LiveOnlyIsComplete(x: Exophone, date: int, logs: seq<CallLog>, es: seq<Event>)
    requires UniqueKeys(logs) && AllClean(es) && NoRewrite(x, date, FreshDay(logs), es)
    ensures Complete(Run(x, date, FreshDay(logs), es))
  {
    NothingIsDistinct();
    UnrewrittenStretch(x, date, FreshDay(logs), es);
  }

  // ---- The gap inside a backfill or reprocess ----

  // Both write the row first and register the Sids afterwards. A live job that filters in
  // between keeps the row free of repeats exactly when all calls it shares with the new row
  // had been registered before.
  lemma RegisteringLateCountsTwice(d: Day, origin: Origin, rs: seq<CallRecord>, live: Origin, fetched: seq<CallRecord>,
                                   skipLogs: bool, skipLiveLogs: bool)
    requires Distinct(rs)
    ensures var rewritten := OverwriteStep(d, origin, rs, Down(0), skipLogs);
      var after := CountStep(rewritten, live, fetched, Up, skipLiveLogs);
      && InRow(after) == rs + Fresh(d.seen, fetched)
      && (Distinct(InRow(after)) <==> Sids(rs) * Sids(fetched) <= d.seen)
  {
    hide Distinct, Fresh, SummaryOf, InsertIgnore, LogsOf, Flatten, Sids, Stored, RowOf, AccumulateInto;
    var rewritten := OverwriteStep(d, origin, rs, Down(0), skipLogs);
    NothingSent(d.seen, rs);
    OverwriteCounts(d, origin, rs, Down(0), skipLogs);
    LiveCounts(rewritten, live, fetched, skipLiveLogs);
    FreshKeepsEachSidOnce(d.seen, fetched);
    DistinctConcat(rs, Fresh(d.seen, fetched));
  }
}
