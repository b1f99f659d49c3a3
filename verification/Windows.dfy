// The fetch window of a CALLS job, and which seconds a run of jobs covers.
module Windows {
  import opened Text

  // Times are whole seconds since the epoch; IST is UTC+5:30.
  const IST_SECONDS := 19800
  const DAY_SECONDS := 86400

  function MidnightIST(t: int): int {
    (t + IST_SECONDS) / DAY_SECONDS * DAY_SECONDS - IST_SECONDS
  }

  // Both ends belong to the window.
  datatype Window = Window(from: int, to: int)

  predicate Covers(w: Window, t: int) {
    w.from <= t <= w.to
  }

  function Max(x: int, y: int): int {
    if x < y then y else x
  }

  // The latest of: a minute before the last run (or one period back on the first run),
  // midnight IST, and four periods back.
  function WindowOf(to: int, frequencyMinutes: int, lastRunAt: Option<int>): Window {
    var wanted := if lastRunAt.Some? then lastRunAt.value - 60 else to - 60 * frequencyMinutes;
    Window(Max(Max(wanted, MidnightIST(to)), to - 240 * frequencyMinutes), to)
  }

  // The same second by second: nothing after now, nothing of an earlier IST day, nothing more
  // than four periods back, and on the first run nothing more than one period back, later
  // nothing more than a minute before the last run.
  ghost predicate Wanted(to: int, frequencyMinutes: int, lastRunAt: Option<int>, t: int) {
    && t <= to
    && (t + 19800) / 86400 == (to + 19800) / 86400
    && t >= to - 4 * frequencyMinutes * 60
    && t >= if lastRunAt.Some? then lastRunAt.value - 60 else to - frequencyMinutes * 60
  }

  lemma WindowHoldsTheWanted(to: int, frequencyMinutes: int, lastRunAt: Option<int>, t: int)
    ensures Covers(WindowOf(to, frequencyMinutes, lastRunAt), t) <==> Wanted(to, frequencyMinutes, lastRunAt, t)
  {
    SameDay(to, t);
  }

  lemma SameDay(to: int, t: int)
    ensures t <= to ==> ((t + 19800) / 86400 == (to + 19800) / 86400 <==> t >= MidnightIST(to))
  {
  }

  method ComputeWindow(to: int, frequencyMinutes: int, lastRunAt: Option<int>) returns (w: Window)
    ensures w == WindowOf(to, frequencyMinutes, lastRunAt)
    ensures forall t :: w.from <= t <= w.to <==> Wanted(to, frequencyMinutes, lastRunAt, t)
  {
    forall t ensures Covers(WindowOf(to, frequencyMinutes, lastRunAt), t) <==> Wanted(to, frequencyMinutes, lastRunAt, t) {
      WindowHoldsTheWanted(to, frequencyMinutes, lastRunAt, t);
    }
    var midnightIST := MidnightIST(to);
    var maxLookback := to - frequencyMinutes * 4 * 60;
    var from;
    if lastRunAt.Some? {
      from := lastRunAt.value - 60;
    } else {
      from := to - frequencyMinutes * 60;
    }
    if from < midnightIST {
      from := midnightIST;
    }
    if from < maxLookback {
      from := maxLookback;
    }
    w := Window(from, to);
  }

  // One run of the job: the end of its window, the last_run_at it leaves behind, and
  // whether its records were counted. A failed run moves last_run_at like any other.
  datatype Tick = Tick(to: int, finished: int, counted: bool)

  ghost function LastRunAt(first: Option<int>, ticks: seq<Tick>): Option<int> {
    if ticks == [] then first else Some(ticks[|ticks| - 1].finished)
  }

  ghost function WindowAfter(frequency: int, first: Option<int>, front: seq<Tick>, tick: Tick): Window {
    WindowOf(tick.to, frequency, LastRunAt(first, front))
  }

  // Runs one after the other, over any number of days.
  ghost predicate Serial(frequency: int, first: Option<int>, ticks: seq<Tick>) {
    ticks == []
    || var front, last := ticks[..|ticks| - 1], ticks[|ticks| - 1];
       && Serial(frequency, first, front)
       && frequency >= 0
       && last.to <= last.finished
       && (LastRunAt(first, front).Some? ==> LastRunAt(first, front).value <= last.to)
  }

  // The second t lies in the window of some counted run.
  ghost predicate Covered(frequency: int, first: Option<int>, ticks: seq<Tick>, t: int) {
    ticks != []
    && var front, last := ticks[..|ticks| - 1], ticks[|ticks| - 1];
       Covered(frequency, first, front, t) || (last.counted && Covers(WindowAfter(frequency, first, front, last), t))
  }

  // Where the counted windows start and end, and where the latest of them starts.
  ghost function Start(frequency: int, first: Option<int>, ticks: seq<Tick>): Option<int> {
    if ticks == [] then None
    else
      var front, last := ticks[..|ticks| - 1], ticks[|ticks| - 1];
      if last.counted && Start(frequency, first, front).None?
      then Some(WindowAfter(frequency, first, front, last).from)
      else Start(frequency, first, front)
  }

  ghost function End(ticks: seq<Tick>): Option<int> {
    if ticks == [] then None
    else if ticks[|ticks| - 1].counted then Some(ticks[|ticks| - 1].to)
    else End(ticks[..|ticks| - 1])
  }

  ghost function LatestFrom(frequency: int, first: Option<int>, ticks: seq<Tick>): Option<int> {
    if ticks == [] then None
    else
      var front, last := ticks[..|ticks| - 1], ticks[|ticks| - 1];
      if last.counted then Some(WindowAfter(frequency, first, front, last).from)
      else LatestFrom(frequency, first, front)
  }

  // t lies between the first start and the last end.
  ghost predicate Between(frequency: int, first: Option<int>, ticks: seq<Tick>, t: int) {
    && Start(frequency, first, ticks).Some? && End(ticks).Some?
    && Start(frequency, first, ticks).value <= t <= End(ticks).value
  }

  // A counted run is reached in time when at most four periods (and a second) have passed
  // since the end of the previous counted one, the last run of any kind finished at most 61
  // seconds after that end, and no midnight lies in between that leaves a second before it.
  ghost predicate InTime(frequency: int, first: Option<int>, front: seq<Tick>, tick: Tick) {
    tick.counted && End(front).Some? ==>
      && tick.to <= End(front).value + 240 * frequency + 1
      && LastRunAt(first, front).value <= End(front).value + 61
      && MidnightIST(tick.to) <= End(front).value + 1
  }

  ghost predicate AllInTime(frequency: int, first: Option<int>, ticks: seq<Tick>) {
    ticks == []
    || var front, last := ticks[..|ticks| - 1], ticks[|ticks| - 1];
       AllInTime(frequency, first, front) && InTime(frequency, first, front, last)
  }

  // The midnight before t, where the IST calendar day of t starts.
  lemma MidnightIsEarlier(t: int)
    ensures MidnightIST(t) <= t < MidnightIST(t) + DAY_SECONDS
    ensures (MidnightIST(t) + IST_SECONDS) % DAY_SECONDS == 0
  {
  }

  lemma MidnightMovesForward(t: int, u: int)
    requires t <= u
    ensures MidnightIST(t) <= MidnightIST(u)
  {
  }

  // The shape of the counted windows of a serial run: their starts move forward, and
  // nothing outside the stretch from the first start to the last end is covered.
  lemma {:induction false} RunShape(frequency: int, first: Option<int>, ticks: seq<Tick>)
    requires Serial(frequency, first, ticks)
    ensures var s, e, l := Start(frequency, first, ticks), End(ticks), LatestFrom(frequency, first, ticks);
      && (s.Some? <==> e.Some?) && (e.Some? <==> l.Some?)
      && (e.Some? ==>
          && s.value <= l.value <= e.value <= ticks[|ticks| - 1].to
          && l.value <= Max(Max(LastRunAt(first, ticks).value - 60, MidnightIST(ticks[|ticks| - 1].to)),
                            ticks[|ticks| - 1].to - 240 * frequency))
    ensures forall t :: Covered(frequency, first, ticks, t) ==> Between(frequency, first, ticks, t)
  {
    hide MidnightIST;
    if ticks != [] {
      var front, last := ticks[..|ticks| - 1], ticks[|ticks| - 1];
      RunShape(frequency, first, front);
      MidnightIsEarlier(last.to);
      if front != [] {
        assert front[|front| - 1].to <= front[|front| - 1].finished by { LastFinishes(frequency, first, front); }
        MidnightMovesForward(front[|front| - 1].to, last.to);
      }
    }
  }

  lemma LastFinishes(frequency: int, first: Option<int>, ticks: seq<Tick>)
    requires Serial(frequency, first, ticks) && ticks != []
    ensures ticks[|ticks| - 1].to <= ticks[|ticks| - 1].finished
  {
  }

  // A counted run is in time exactly when its window leaves no second after the previous
  // counted end uncovered.
  lemma InTimeMeansTouching(frequency: int, first: Option<int>, front: seq<Tick>, tick: Tick)
    requires Serial(frequency, first, front + [tick]) && tick.counted && End(front).Some?
    ensures InTime(frequency, first, front, tick)
        <==> WindowAfter(frequency, first, front, tick).from <= End(front).value + 1
  {
    hide MidnightIST;
    assert (front + [tick])[..|front|] == front;
    RunShape(frequency, first, front);
  }

  // If every counted run is in time, the windows are one interval without gaps.
  lemma {:induction false} InTimeCoversAll(frequency: int, first: Option<int>, ticks: seq<Tick>)
    requires Serial(frequency, first, ticks) && AllInTime(frequency, first, ticks)
    ensures forall t :: Covered(frequency, first, ticks, t) <==> Between(frequency, first, ticks, t)
  {
    hide MidnightIST, WindowOf;
    if ticks != [] {
      var front, last := ticks[..|ticks| - 1], ticks[|ticks| - 1];
      assert ticks == front + [last];
      InTimeCoversAll(frequency, first, front);
      CoverOneMore(frequency, first, front, last);
    }
  }

  lemma CoverOneMore(frequency: int, first: Option<int>, front: seq<Tick>, tick: Tick)
    requires Serial(frequency, first, front + [tick]) && InTime(frequency, first, front, tick)
    requires forall t :: Covered(frequency, first, front, t) <==> Between(frequency, first, front, t)
    ensures forall t :: Covered(frequency, first, front + [tick], t) <==> Between(frequency, first, front + [tick], t)
  {
    hide MidnightIST, WindowOf, Covered, InTime, AllInTime;
    assert (front + [tick])[..|front|] == front;
    RunShape(frequency, first, front);
    RunShape(frequency, first, front + [tick]);
    WindowEnds(frequency, first, front, tick);
    if tick.counted && End(front).Some? {
      InTimeMeansTouching(frequency, first, front, tick);
    }
    forall t ensures Covered(frequency, first, front + [tick], t) <==> Between(frequency, first, front + [tick], t) {
      CoveredSnoc(frequency, first, front, tick, t);
    }
  }

  lemma WindowEnds(frequency: int, first: Option<int>, front: seq<Tick>, tick: Tick)
    ensures WindowAfter(frequency, first, front, tick).to == tick.to
  {
  }

  // No window starts before the latest earlier one.
  lemma StartsMoveForward(frequency: int, first: Option<int>, front: seq<Tick>, tick: Tick)
    requires Serial(frequency, first, front + [tick]) && LatestFrom(frequency, first, front).Some?
    ensures LatestFrom(frequency, first, front).value <= WindowAfter(frequency, first, front, tick).from
  {
    hide MidnightIST;
    assert (front + [tick])[..|front|] == front;
    RunShape(frequency, first, front);
    LastFinishes(frequency, first, front);
    MidnightMovesForward(front[|front| - 1].to, tick.to);
  }

  // A run that is late leaves a second that no window of this or any later run covers.
  lemma {:induction false} LateLeavesGap(frequency: int, first: Option<int>, ticks: seq<Tick>) returns (t: int)
    requires Serial(frequency, first, ticks) && !AllInTime(frequency, first, ticks)
    ensures Between(frequency, first, ticks, t)
    ensures LatestFrom(frequency, first, ticks).Some? && t < LatestFrom(frequency, first, ticks).value
    ensures !Covered(frequency, first, ticks, t)
  {
    hide MidnightIST;
    var front, last := ticks[..|ticks| - 1], ticks[|ticks| - 1];
    assert ticks == front + [last];
    RunShape(frequency, first, front);
    RunShape(frequency, first, ticks);
    if !AllInTime(frequency, first, front) {
      t := LateLeavesGap(frequency, first, front);
      StartsMoveForward(frequency, first, front, last);
    } else {
      t := End(front).value + 1;
      InTimeMeansTouching(frequency, first, front, last);
    }
  }

  // The exact law: over any number of days of serial runs the counted windows form one gap-free interval
  // if and only if every counted run is in time.
  lemma GapFreeIffInTime(frequency: int, first: Option<int>, ticks: seq<Tick>)
    requires Serial(frequency, first, ticks)
    ensures AllInTime(frequency, first, ticks)
        <==> (forall t :: Between(frequency, first, ticks, t) ==> Covered(frequency, first, ticks, t))
  {
    if AllInTime(frequency, first, ticks) {
      InTimeCoversAll(frequency, first, ticks);
    } else {
      var t := LateLeavesGap(frequency, first, ticks);
    }
  }

  // Runs of one day that all succeed, finish within a minute of their window's end and follow
  // each other within four periods are in time.
  lemma {:induction false} PromptRunsAreInTime(frequency: int, first: Option<int>, ticks: seq<Tick>)
    requires Serial(frequency, first, ticks)
    requires forall i :: 0 <= i < |ticks| ==> ticks[i].counted && ticks[i].finished <= ticks[i].to + 60
    requires forall i :: 0 < i < |ticks| ==>
      && ticks[i].to - ticks[i - 1].to <= 240 * frequency
      && MidnightIST(ticks[i].to) == MidnightIST(ticks[i - 1].to)
    ensures AllInTime(frequency, first, ticks)
  {
    hide MidnightIST;
    if ticks != [] {
      PromptRunsAreInTime(frequency, first, ticks[..|ticks| - 1]);
      if |ticks| > 1 {
        MidnightIsEarlier(ticks[|ticks| - 2].to);
      }
    }
  }

  // Every second after the last counted end, up to the end of this run, is covered.
  ghost predicate GapCovered(frequency: int, first: Option<int>, front: seq<Tick>, tick: Tick)
    requires End(front).Some?
  {
    forall t :: End(front).value < t <= tick.to ==> Covered(frequency, first, front + [tick], t)
  }

  // The seconds since the end of the last counted window are covered by the next counted run
  // if and only if that run is in time; runs that fail in between do not help, and by moving
  // last_run_at they make the next run late.
  lemma NextRunClosesTheGap(frequency: int, first: Option<int>, front: seq<Tick>, tick: Tick)
    requires Serial(frequency, first, front + [tick]) && tick.counted && End(front).Some?
    ensures GapCovered(frequency, first, front, tick) <==> InTime(frequency, first, front, tick)
  {
    hide MidnightIST, WindowOf, InTime, Serial, AllInTime, Covered, Start, LatestFrom;
    var gap, w := End(front).value, WindowAfter(frequency, first, front, tick);
    PrefixIsSerial(frequency, first, front, tick);
    RunShape(frequency, first, front);
    WindowIsForward(frequency, first, front, tick);
    InTimeMeansTouching(frequency, first, front, tick);
    forall t | gap < t <= tick.to
      ensures Covered(frequency, first, front + [tick], t) <==> w.from <= t
    {
      CoveredSnoc(frequency, first, front, tick, t);
      assert !Covered(frequency, first, front, t);
    }
    if InTime(frequency, first, front, tick) {
      assert w.from <= gap + 1;
      assert GapCovered(frequency, first, front, tick);
    } else {
      assert gap + 1 < w.from <= tick.to;
      assert !Covered(frequency, first, front + [tick], gap + 1);
    }
  }

  lemma CoveredSnoc(frequency: int, first: Option<int>, front: seq<Tick>, tick: Tick, t: int)
    ensures Covered(frequency, first, front + [tick], t)
        <==> Covered(frequency, first, front, t) || (tick.counted && Covers(WindowAfter(frequency, first, front, tick), t))
  {
    assert (front + [tick])[..|front|] == front;
  }

  lemma WindowIsForward(frequency: int, first: Option<int>, front: seq<Tick>, tick: Tick)
    requires Serial(frequency, first, front + [tick])
    ensures var w := WindowAfter(frequency, first, front, tick); w.from <= w.to == tick.to
  {
    assert (front + [tick])[..|front|] == front;
    MidnightIsEarlier(tick.to);
  }

  lemma PrefixIsSerial(frequency: int, first: Option<int>, front: seq<Tick>, tick: Tick)
    requires Serial(frequency, first, front + [tick])
    ensures Serial(frequency, first, front)
  {
    assert (front + [tick])[..|front|] == front;
  }

  // The smallest case: a success, a failure, a success. The failed run costs calls unless it
  // ended within 61 seconds of the first run's fetch.
  lemma FailedRunLosesItsWindow(frequency: int, ok: Tick, failed: Tick, next: Tick)
    requires ok.counted && !failed.counted && next.counted
    requires Serial(frequency, None, [ok, failed] + [next])
    ensures End([ok, failed]) == Some(ok.to)
    ensures GapCovered(frequency, None, [ok, failed], next)
        <==> && failed.finished <= ok.to + 61
             && next.to <= ok.to + 240 * frequency + 1
             && MidnightIST(next.to) <= ok.to + 1
  {
    hide Serial, GapCovered, MidnightIST, WindowOf;
    assert [ok, failed][..1] == [ok];
    assert End([ok]) == Some(ok.to);
    NextRunClosesTheGap(frequency, None, [ok, failed], next);
  }

  // ---- Over several days ----

  // A second that a counted run leaves behind is not covered by any later run either.
  lemma {:induction false} SkippedForGood(frequency: int, first: Option<int>, front: seq<Tick>, tick: Tick,
                                          rest: seq<Tick>, t: int)
    requires Serial(frequency, first, front + [tick] + rest) && tick.counted && End(front).Some?
    requires End(front).value < t < WindowAfter(frequency, first, front, tick).from
    ensures !Covered(frequency, first, front + [tick] + rest, t)
    ensures var l := LatestFrom(frequency, first, front + [tick] + rest); l.Some? && t < l.value
    decreases |rest|
  {
    hide MidnightIST, WindowOf;
    var all := front + [tick] + rest;
    if rest == [] {
      assert all == front + [tick] && (front + [tick])[..|front|] == front;
      RunShape(frequency, first, front);
      CoveredSnoc(frequency, first, front, tick, t);
    } else {
      var before, last := front + [tick] + rest[..|rest| - 1], rest[|rest| - 1];
      assert all == before + [last] && all[..|before|] == before;
      SkippedForGood(frequency, first, front, tick, rest[..|rest| - 1], t);
      CoveredSnoc(frequency, first, before, last, t);
      StartsMoveForward(frequency, first, before, last);
    }
  }

  // So the calls created after the last counted end of a day and before the midnight that
  // follows are never fetched by live jobs, however promptly the next day starts.
  lemma EveningIsLost(frequency: int, first: Option<int>, front: seq<Tick>, tick: Tick, rest: seq<Tick>, t: int)
    requires Serial(frequency, first, front + [tick] + rest) && tick.counted && End(front).Some?
    requires End(front).value < t < MidnightIST(tick.to)
    ensures !Covered(frequency, first, front + [tick] + rest, t)
  {
    hide MidnightIST;
    SkippedForGood(frequency, first, front, tick, rest, t);
  }

  // And a window covers only seconds of the IST day it ends on, so a call is fetched for no
  // other day than its own.
  lemma WindowsStayInTheirDay(frequency: int, first: Option<int>, front: seq<Tick>, tick: Tick, t: int)
    requires Covers(WindowAfter(frequency, first, front, tick), t)
    ensures MidnightIST(t) == MidnightIST(tick.to)
  {
    MidnightIsEarlier(tick.to);
  }

  // ---- Where a day starts ----

  // When the first run counts, the counted stretch starts where that run wants to: one period
  // back without an earlier run, else a minute before it, within the day and four periods.
  lemma {:induction false} StartOfTheDay(frequency: int, first: Option<int>, ticks: seq<Tick>)
    requires ticks != [] && ticks[0].counted
    ensures Start(frequency, first, ticks).Some?
    ensures forall t ::
      Start(frequency, first, ticks).value <= t <= ticks[0].to <==> Wanted(ticks[0].to, frequency, first, t)
  {
    hide WindowOf, Wanted;
    if |ticks| == 1 {
      assert ticks[..0] == [];
      var tick := ticks[0];
      assert LastRunAt(first, []) == first;
      assert Start(frequency, first, []) == None;
      assert WindowAfter(frequency, first, [], tick) == WindowOf(tick.to, frequency, first);
      WindowEnds(frequency, first, [], tick);
      forall t ensures Start(frequency, first, ticks).value <= t <= tick.to <==> Wanted(tick.to, frequency, first, t) {
        WindowHoldsTheWanted(tick.to, frequency, first, t);
      }
    } else {
      StartOfTheDay(frequency, first, ticks[..|ticks| - 1]);
    }
  }
}
