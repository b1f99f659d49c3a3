// Every call created while a day's live jobs run is counted exactly once.
module ExactlyOnce {
  import opened Text
  import opened Records
  import opened Engine
  import opened EngineLaws
  import opened Snapshots
  import opened SnapshotLaws
  import opened Dedup
  import opened CallLogs
  import opened Windows
  import opened Pagination
  import opened Retry
  import opened Pipeline
  import opened PipelineLaws

  // The calls of one number: when each was created, in seconds since the epoch.
  type World = map<string, int>

  // The vendor's answer for a window names exactly the calls created in it. Pages may
  // repeat a call and come in any order.
  ghost predicate AnswersFor(world: World, w: Window, rs: seq<CallRecord>) {
    Sids(rs) == set s | s in world && Covers(w, world[s])
  }

  // The jobs of a day with the cache up: tick i is the run that live event i stands for, and
  // a run counts its records when its fetch ended well. Failed runs are part of the day.
  ghost predicate DayOfJobs(world: World, frequency: int, first: Option<int>, ticks: seq<Tick>, es: seq<Event>) {
    |ticks| == |es|
    && (es != [] ==>
      var n := |es| - 1;
      && DayOfJobs(world, frequency, first, ticks[..n], es[..n])
      && (n > 0 ==> MidnightIST(ticks[n - 1].to) == MidnightIST(ticks[n].to))
      && es[n].Live? && es[n].link.Up?
      && ticks[n].counted == HasRecords(es[n].fetch)
      && (ticks[n].counted ==>
        AnswersFor(world, WindowAfter(frequency, first, ticks[..n], ticks[n]), es[n].fetch.value.response.value)))
  }

  lemma {:induction false} JobsAreClean(world: World, frequency: int, first: Option<int>,
                                        ticks: seq<Tick>, es: seq<Event>)
    requires DayOfJobs(world, frequency, first, ticks, es)
    ensures AllClean(es)
    ensures forall i :: 0 <= i < |es| ==> es[i].Live?
  {
    if es != [] {
      var n := |es| - 1;
      JobsAreClean(world, frequency, first, ticks[..n], es[..n]);
      assert forall i :: 0 <= i < n ==> es[i] == es[..n][i];
    }
  }

  // Over any such day, whatever fails and however windows overlap or leave gaps: the row
  // counts exactly the calls that some counted window covers.
  lemma {:induction false} CoveredCallsAreCounted(x: Exophone, date: int, logs: seq<CallLog>, world: World,
                                                  frequency: int, first: Option<int>, ticks: seq<Tick>, es: seq<Event>)
    requires DayOfJobs(world, frequency, first, ticks, es)
    ensures var d := Run(x, date, FreshDay(logs), es);
      && Sids(InRow(d)) == d.seen
      && d.seen == set s | s in world && Covered(frequency, first, ticks, world[s])
  {
    hide SummaryOf, InsertIgnore, LogsOf, Fresh, SavedResponses, WindowOf, Flatten, Accumulated, Stored;
    if es == [] {
      NothingCountedYet(logs);
    } else {
      var n := |es| - 1;
      CoveredCallsAreCounted(x, date, logs, world, frequency, first, ticks[..n], es[..n]);
      var before := Run(x, date, FreshDay(logs), es[..n]);
      if ticks[n].counted {
        var rs := es[n].fetch.value.response.value;
        LiveCounts(Save(before, SavedResponses(es[n].fetch)), Origin(es[n].transactionId, x), rs, es[n].skipLogs);
        FreshKeepsEachSidOnce(before.seen, rs);
        SidsConcat(InRow(before), Fresh(before.seen, rs));
      }
    }
  }

  lemma NothingCountedYet(logs: seq<CallLog>)
    ensures Sids(InRow(FreshDay(logs))) == {}
  {
  }

  ghost function CreatedBetween(world: World, frequency: int, first: Option<int>, ticks: seq<Tick>): set<string> {
    set s | s in world && Between(frequency, first, ticks, world[s])
  }

  // Exactly once: when every counted run is in time, each call created between the start of
  // the first counted window and the end of the last adds exactly one to TotalCalls, and no
  // other call adds anything.
  lemma CallsAreCountedExactlyOnce(x: Exophone, date: int, logs: seq<CallLog>, world: World, frequency: int,
                                   first: Option<int>, ticks: seq<Tick>, es: seq<Event>)
    requires UniqueKeys(logs)
    requires Serial(frequency, first, ticks) && AllInTime(frequency, first, ticks)
    requires DayOfJobs(world, frequency, first, ticks, es)
    ensures var d := Run(x, date, FreshDay(logs), es);
      var created := CreatedBetween(world, frequency, first, ticks);
      Distinct(InRow(d)) && Sids(InRow(d)) == created && TotalCalls(d) == |created|
  {
    hide Run, Serial, AllInTime, Covered, Between, DayOfJobs, Distinct, UniqueKeys, Represents, AverageWithin, Flatten;
    var d := Run(x, date, FreshDay(logs), es);
    JobsAreClean(world, frequency, first, ticks, es);
    EveryCallOnce(x, date, logs, es);
    CoveredCallsAreCounted(x, date, logs, world, frequency, first, ticks, es);
    InTimeCoversAll(frequency, first, ticks);
    RowAlwaysFaithful(x, date, logs, es);
    NothingCountedYet(logs);
    DistinctCount(InRow(d));
  }

  // And only then: when some counted run of a day is late, there is a second between the first
  // start and the last end such that no day of live jobs with these runs counts a call created
  // at it.
  lemma LateRunsLoseCalls(x: Exophone, date: int, logs: seq<CallLog>, frequency: int, first: Option<int>,
                          ticks: seq<Tick>) returns (t: int)
    requires Serial(frequency, first, ticks) && !AllInTime(frequency, first, ticks)
    requires forall i :: 0 < i < |ticks| ==> MidnightIST(ticks[i - 1].to) == MidnightIST(ticks[i].to)
    ensures Between(frequency, first, ticks, t)
    ensures forall world: World, es, s ::
      DayOfJobs(world, frequency, first, ticks, es) && s in world && world[s] == t
      ==> s !in Sids(InRow(Run(x, date, FreshDay(logs), es)))
  {
    hide Run, Serial, AllInTime, Covered, Between, DayOfJobs, InRow;
    t := LateLeavesGap(frequency, first, ticks);
    forall world: World, es, s | DayOfJobs(world, frequency, first, ticks, es) && s in world && world[s] == t
      ensures s !in Sids(InRow(Run(x, date, FreshDay(logs), es)))
    {
      CoveredCallsAreCounted(x, date, logs, world, frequency, first, ticks, es);
    }
  }

  // ---- The same for the running system ----

  // One due run of the job: when it starts fetching, and when its row is updated afterwards.
  datatype Turn = Turn(transactionId: string, to: int, finished: int, skipLogs: bool)

  // A vendor that, whenever it answers well, names exactly the calls created in the window.
  ghost predicate Truthful(vendor: Window -> nat -> FetchResult, world: World) {
    forall w, k ::
      HasRecords(Some(vendor(w)(k))) ==> AnswersFor(world, w, vendor(w)(k).response.value)
  }

  lemma OneMoreJob(world: World, frequency: int, first: Option<int>, ticks: seq<Tick>, es: seq<Event>,
                   tick: Tick, e: Event)
    requires DayOfJobs(world, frequency, first, ticks, es)
    requires e.Live? && e.link.Up? && tick.counted == HasRecords(e.fetch)
    requires ticks != [] ==> MidnightIST(ticks[|ticks| - 1].to) == MidnightIST(tick.to)
    requires tick.counted ==>
      AnswersFor(world, WindowAfter(frequency, first, ticks, tick), e.fetch.value.response.value)
    ensures DayOfJobs(world, frequency, first, ticks + [tick], es + [e])
  {
    var n := |es|;
    assert (ticks + [tick])[..n] == ticks && (es + [e])[..n] == es;
  }

  lemma OneMoreStep(x: Exophone, date: int, d: Day, es: seq<Event>, e: Event)
    ensures Run(x, date, d, es + [e]) == Step(x, date, Run(x, date, d, es), e)
  {
    assert (es + [e])[..|es|] == es;
  }

  // Runs one CALLS job again and again over a day that starts empty; the day ends as the
  // corresponding run of events does, and every tick has the window the job computed.
  method RunDay(p: Platform, jobId: nat, x: Exophone, key: Key, turns: seq<Turn>, cfg: RetryConfig,
                vendor: Window -> nat -> FetchResult, cutShort: nat -> nat -> bool, jitter: nat -> nat -> real,
                ghost world: World)
    returns (ghost ticks: seq<Tick>, ghost es: seq<Event>)
    requires jobId in p.jobs && p.DayAt(key) == FreshDay(p.callLogs.rows)
    requires forall i, k :: 0.0 <= jitter(i)(k) < 1.0
    requires Truthful(vendor, world)
    requires forall i :: 0 < i < |turns| ==> MidnightIST(turns[i - 1].to) == MidnightIST(turns[i].to)
    modifies p, p.cache, p.snapshots, p.callLogs
    ensures |ticks| == |turns|
    ensures forall i :: 0 <= i < |turns| ==> ticks[i].to == turns[i].to && ticks[i].finished == turns[i].finished
    ensures DayOfJobs(world, old(p.jobs[jobId].frequencyMinutes), old(p.jobs[jobId].lastRunAt), ticks, es)
    ensures p.DayAt(key) == Run(x, key.date, FreshDay(old(p.callLogs.rows)), es)
    ensures var frequency, first := old(p.jobs[jobId].frequencyMinutes), old(p.jobs[jobId].lastRunAt);
      UniqueKeys(old(p.callLogs.rows)) && Serial(frequency, first, ticks) && AllInTime(frequency, first, ticks)
      ==> TotalCalls(p.DayAt(key)) == |CreatedBetween(world, frequency, first, ticks)|
  {
    hide MidnightIST, Run, DayOfJobs, LiveStep, AnswersFor, HasRecords, WindowOf, UniqueKeys, Serial, AllInTime, CreatedBetween;
    ghost var frequency, first := p.jobs[jobId].frequencyMinutes, p.jobs[jobId].lastRunAt;
    ghost var start := FreshDay(p.callLogs.rows);
    ticks, es := [], [];
    NothingRunYet(world, frequency, first, x, key.date, start);
    for i := 0 to |turns|
      invariant |ticks| == |es| == i
      invariant forall j :: 0 <= j < i ==> ticks[j].to == turns[j].to && ticks[j].finished == turns[j].finished
      invariant jobId in p.jobs && p.jobs[jobId].frequencyMinutes == frequency
      invariant p.jobs[jobId].lastRunAt == LastRunAt(first, ticks)
      invariant DayOfJobs(world, frequency, first, ticks, es)
      invariant p.DayAt(key) == Run(x, key.date, start, es)
    {
      var turn := turns[i];
      var origin := Origin(turn.transactionId, x);
      ghost var window := WindowOf(turn.to, frequency, LastRunAt(first, ticks));
      ghost var calls;
      var ok;
      ok, calls := p.ExecuteJob(jobId, origin, key, turn.to, turn.finished, cfg, vendor, cutShort(i), jitter(i),
                                Up, turn.skipLogs);
      ghost var fetch := LastFetch(vendor(window), calls);
      ghost var tick := Tick(turn.to, turn.finished, HasRecords(fetch));
      ghost var e := Live(turn.transactionId, fetch, Up, turn.skipLogs);
      OnlyAnswersHaveRecords(fetch);
      OneMoreJob(world, frequency, first, ticks, es, tick, e);
      OneMoreStep(x, key.date, start, es, e);
      ticks, es := ticks + [tick], es + [e];
    }
    if UniqueKeys(start.logs) && Serial(frequency, first, ticks) && AllInTime(frequency, first, ticks) {
      CallsAreCountedExactlyOnce(x, key.date, start.logs, world, frequency, first, ticks, es);
    }
  }

  lemma OnlyAnswersHaveRecords(fetch: Option<FetchResult>)
    ensures HasRecords(fetch) ==> fetch.Some? && fetch.value.response.Some?
  {
  }

  lemma NothingRunYet(world: World, frequency: int, first: Option<int>, x: Exophone, date: int, start: Day)
    ensures DayOfJobs(world, frequency, first, [], []) && Run(x, date, start, []) == start
  {
  }
}
