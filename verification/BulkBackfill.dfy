// handlers.BulkBackfill: one background run at a time, three workers sharing a queue of
// (exophone, date) pairs, and the progress record that callers poll. Steps interleave freely.
module BulkBackfill {
  import opened Text

  datatype Task = Task(exophoneId: nat, date: string)

  datatype Outcome = Outcome(task: Task, ok: bool)

  datatype Worker = Ready | Busy(task: Task) | Exited

  // Where the background run is: between the flag and the exophone list, between Total and
  // the filled queue, or with its workers running.
  datatype Stage =
    | Idle
    | Loading(dates: seq<string>)
    | Launched(tasks: seq<Task>)
    | Working(tasks: seq<Task>, queue: seq<Task>, workers: seq<Worker>)

  datatype State = State(running: bool, total: nat, done: nat, failed: nat, results: seq<Outcome>, stage: Stage)

  const NEVER_RUN := State(false, 0, 0, 0, [], Idle)
  const CONCURRENCY := 3
  const NEW_WORKERS: seq<Worker> := [Ready, Ready, Ready]

  // Every exophone on every date, exophones outermost; repeated dates give repeated pairs.
  function Pairs(exophones: seq<nat>, dates: seq<string>): seq<Task> {
    if exophones == [] then []
    else Pairs(exophones[..|exophones| - 1], dates) + PairsOf(exophones[|exophones| - 1], dates)
  }

  function PairsOf(exophone: nat, dates: seq<string>): seq<Task> {
    seq(|dates|, i requires 0 <= i < |dates| => Task(exophone, dates[i]))
  }

  lemma {:induction false} PairsCount(exophones: seq<nat>, dates: seq<string>)
    ensures |Pairs(exophones, dates)| == |exophones| * |dates|
    ensures forall e, d :: Task(e, d) in Pairs(exophones, dates) <==> e in exophones && d in dates
  {
    if exophones != [] {
      var front, last := exophones[..|exophones| - 1], exophones[|exophones| - 1];
      PairsCount(front, dates);
      assert exophones == front + [last];
      assert |exophones| * |dates| == |front| * |dates| + |dates|;
      forall e, d ensures Task(e, d) in PairsOf(last, dates) <==> e == last && d in dates {
        if d in dates {
          var i :| 0 <= i < |dates| && dates[i] == d;
          assert PairsOf(last, dates)[i] == Task(last, d);
        }
      }
    }
  }

  // The dates of one exophone after those of the one before, in the order given.
  lemma {:induction false} PairAt(exophones: seq<nat>, dates: seq<string>, i: nat, j: nat)
    requires i < |exophones| && j < |dates|
    ensures i * |dates| + j < |Pairs(exophones, dates)|
    ensures Pairs(exophones, dates)[i * |dates| + j] == Task(exophones[i], dates[j])
  {
    var n := |exophones| - 1;
    PairsCount(exophones, dates);
    PairsCount(exophones[..n], dates);
    RoomInGrid(|exophones|, |dates|, i, j);
    if i < n {
      PairAt(exophones[..n], dates, i, j);
    }
  }

  // Fills the channel; it has room for every pair, so no send blocks.
  method EnqueueAll(exophones: seq<nat>, dates: seq<string>, capacity: nat) returns (queue: seq<Task>)
    requires capacity == |exophones| * |dates|
    ensures queue == Pairs(exophones, dates)
  {
    queue := [];
    for i := 0 to |exophones|
      invariant queue == Pairs(exophones[..i], dates)
    {
      assert exophones[..i + 1][..i] == exophones[..i];
      for j := 0 to |dates|
        invariant queue == Pairs(exophones[..i], dates) + PairsOf(exophones[i], dates[..j])
      {
        RoomForOneMore(exophones, dates, i, j);
        assert |queue| < capacity;
        assert PairsOf(exophones[i], dates[..j + 1]) == PairsOf(exophones[i], dates[..j]) + [Task(exophones[i], dates[j])];
        queue := queue + [Task(exophones[i], dates[j])];
      }
      assert dates[..|dates|] == dates;
    }
    assert exophones[..|exophones|] == exophones;
  }

  lemma RoomForOneMore(exophones: seq<nat>, dates: seq<string>, i: nat, j: nat)
    requires i < |exophones| && j < |dates|
    ensures |Pairs(exophones[..i], dates) + PairsOf(exophones[i], dates[..j])| < |exophones| * |dates|
  {
    hide Pairs;
    PairsCount(exophones[..i], dates);
    assert |exophones[..i]| == i;
    RoomInGrid(|exophones|, |dates|, i, j);
  }

  lemma RoomInGrid(m: nat, n: nat, i: nat, j: nat)
    requires i < m && j < n
    ensures i * n + j < m * n
  {
    assert m * n == (i + 1) * n + (m - (i + 1)) * n;
    assert (m - (i + 1)) * n >= 0;
    assert (i + 1) * n == i * n + n;
  }

  // ---- Steps ----

  // Clear is the end of the background goroutine, once its three workers are gone. Load is
  // given the monitored exophones, or nothing when they could not be read.
  datatype Action =
    | Start(dates: seq<string>)
    | Load(exophones: Option<seq<nat>>)
    | Fill
    | Take(worker: nat)
    | Exit(worker: nat)
    | Report(worker: nat, ok: bool)
    | Clear

  predicate WorkerIs(s: State, w: nat, state: Worker) {
    s.stage.Working? && w < |s.stage.workers| && s.stage.workers[w] == state
  }

  predicate Enabled(s: State, a: Action) {
    match a
    case Start(dates) => dates != []
    case Load(_) => s.stage.Loading?
    case Fill => s.stage.Launched?
    case Take(w) => WorkerIs(s, w, Ready) && s.stage.queue != []
    case Exit(w) => WorkerIs(s, w, Ready) && s.stage.queue == []
    case Report(w, _) => s.stage.Working? && w < |s.stage.workers| && s.stage.workers[w].Busy?
    case Clear => s.stage.Working? && forall w :: 0 <= w < |s.stage.workers| ==> s.stage.workers[w].Exited?
  }

  // A step of one of the workers.
  predicate IsWork(a: Action) {
    a.Take? || a.Exit? || a.Report?
  }

  predicate CouldLoad(exophones: Option<seq<nat>>) {
    exophones.Some? && exophones.value != []
  }

  function Apply(s: State, a: Action): State
    requires Enabled(s, a)
  {
    match a
    case Start(dates) => if s.running then s else State(true, s.total, 0, 0, [], Loading(dates))
    case Load(exophones) =>
      if !CouldLoad(exophones) then s.(running := false, stage := Idle)
      else
        s.(total := |exophones.value| * |s.stage.dates|, stage := Launched(Pairs(exophones.value, s.stage.dates)))
    case Fill => s.(stage := Working(s.stage.tasks, s.stage.tasks, NEW_WORKERS))
    case Take(w) =>
      s.(stage := Working(s.stage.tasks, s.stage.queue[1..], s.stage.workers[w := Busy(s.stage.queue[0])]))
    case Exit(w) => s.(stage := Working(s.stage.tasks, s.stage.queue, s.stage.workers[w := Exited]))
    case Report(w, ok) =>
      s.(done := s.done + 1,
         failed := s.failed + if ok then 0 else 1,
         results := s.results + [Outcome(s.stage.workers[w].task, ok)],
         stage := Working(s.stage.tasks, s.stage.queue, s.stage.workers[w := Ready]))
    case Clear => s.(running := false, stage := Idle)
  }

  // ---- The critical sections ----

  // The shared record behind its mutex; each method is one locked section.
  class Progress {
    var running: bool
    var total: nat
    var done: nat
    var failed: nat
    var results: seq<Outcome>
    ghost var stage: Stage

    ghost function Now(): State
      reads this
    {
      State(running, total, done, failed, results, stage)
    }

    constructor ()
      ensures Now() == NEVER_RUN
    {
      running, total, done, failed, results, stage := false, 0, 0, 0, [], Idle;
    }

    // Whether the run was accepted.
    method TryStart(dates: seq<string>) returns (accepted: bool)
      requires Inv(Now()) && dates != []
      modifies this
      ensures Now() == Apply(old(Now()), Start(dates)) && Inv(Now())
      ensures accepted <==> !old(running)
    {
      StepKeepsInv(Now(), Start(dates));
      if running {
        return false;
      }
      running, done, failed, results := true, 0, 0, [];
      stage := Loading(dates);
      accepted := true;
    }

    // The exophones are read; the run is given up without them, else its size is published.
    method Prepare(exophones: Option<seq<nat>>, dates: seq<string>) returns (launched: bool)
      requires Inv(Now()) && stage == Loading(dates)
      modifies this
      ensures Now() == Apply(old(Now()), Load(exophones)) && Inv(Now())
      ensures launched <==> CouldLoad(exophones)
    {
      StepKeepsInv(Now(), Load(exophones));
      if exophones.None? || |exophones.value| == 0 {
        running := false;
        stage := Idle;
        return false;
      }
      total := |exophones.value| * |dates|;
      stage := Launched(Pairs(exophones.value, dates));
      launched := true;
    }

    // A worker reports the pair it holds.
    method ReportOne(w: nat, t: Task, ok: bool)
      requires Inv(Now()) && WorkerIs(Now(), w, Busy(t))
      modifies this
      ensures Now() == Apply(old(Now()), Report(w, ok)) && Inv(Now())
      ensures done == old(done) + 1 && failed == old(failed) + (if ok then 0 else 1)
      ensures results == old(results) + [Outcome(t, ok)]
    {
      StepKeepsInv(Now(), Report(w, ok));
      if !ok {
        failed := failed + 1;
      }
      done := done + 1;
      results := results + [Outcome(t, ok)];
      stage := stage.(workers := stage.workers[w := Ready]);
    }

    method ClearRunning()
      requires Inv(Now()) && Enabled(Now(), Clear)
      modifies this
      ensures Now() == Apply(old(Now()), Clear) && Inv(Now())
      ensures Delivered(old(stage.tasks), Now())
    {
      StepKeepsInv(Now(), Clear);
      ClearDelivers(Now());
      running := false;
      stage := Idle;
    }
  }

  // ---- What every step keeps ----

  function TasksOf(results: seq<Outcome>): seq<Task> {
    seq(|results|, i requires 0 <= i < |results| => results[i].task)
  }

  ghost function Errors(results: seq<Outcome>): nat {
    if results == [] then 0 else Errors(results[..|results| - 1]) + if results[|results| - 1].ok then 0 else 1
  }

  function Held(w: Worker): multiset<Task> {
    if w.Busy? then multiset{w.task} else multiset{}
  }

  ghost function InHand(workers: seq<Worker>): multiset<Task> {
    if workers == [] then multiset{}
    else
      var last := workers[|workers| - 1];
      InHand(workers[..|workers| - 1]) + Held(last)
  }

  // While the workers run, every pair is either queued, held by exactly one worker, or
  // reported exactly once; the counters are those of the reports.
  ghost predicate Inv(s: State) {
    && (s.running <==> s.stage != Idle)
    && s.done == |s.results|
    && s.failed == Errors(s.results)
    && match s.stage
       case Idle => true
       case Loading(dates) => s.results == [] && dates != []
       case Launched(tasks) => s.results == [] && s.total == |tasks|
       case Working(tasks, queue, workers) =>
         && s.total == |tasks|
         && |workers| == CONCURRENCY
         && multiset(TasksOf(s.results)) + multiset(queue) + InHand(workers) == multiset(tasks)
         && ((exists w :: 0 <= w < |workers| && workers[w].Exited?) ==> queue == [])
  }

  lemma {:induction false} InHandUpdate(workers: seq<Worker>, w: nat, state: Worker)
    requires w < |workers|
    ensures InHand(workers[w := state]) + Held(workers[w]) == InHand(workers) + Held(state)
  {
    hide Held;
    var front, last := workers[..|workers| - 1], workers[|workers| - 1];
    if w < |workers| - 1 {
      InHandUpdate(front, w, state);
      assert workers[w := state][..|workers| - 1] == front[w := state];
      Swap(InHand(front[w := state]), Held(workers[w]), InHand(front), Held(state), Held(last));
    } else {
      assert workers[w := state][..|workers| - 1] == front;
    }
  }

  lemma Swap(a: multiset<Task>, b: multiset<Task>, c: multiset<Task>, d: multiset<Task>, e: multiset<Task>)
    requires a + b == c + d
    ensures a + e + b == c + e + d
  {
    assert a + e + b == a + b + e;
  }

  lemma AddingNothing(a: multiset<Task>, b: multiset<Task>)
    ensures a + multiset{} == b + multiset{} <==> a == b
  {
    assert a + multiset{} == a && b + multiset{} == b;
  }

  lemma {:induction false} NothingInHand(workers: seq<Worker>)
    requires forall w :: 0 <= w < |workers| ==> !workers[w].Busy?
    ensures InHand(workers) == multiset{}
  {
    if workers != [] {
      NothingInHand(workers[..|workers| - 1]);
    }
  }

  lemma ReportSnoc(results: seq<Outcome>, o: Outcome)
    ensures multiset(TasksOf(results + [o])) == multiset(TasksOf(results)) + multiset{o.task}
    ensures Errors(results + [o]) == Errors(results) + if o.ok then 0 else 1
  {
    assert (results + [o])[..|results|] == results;
    assert TasksOf(results + [o]) == TasksOf(results) + [o.task];
  }

  lemma StepKeepsInv(s: State, a: Action)
    requires Inv(s) && Enabled(s, a)
    ensures Inv(Apply(s, a))
  {
    match a
    case Take(w) => TakeKeepsInv(s, w);
    case Exit(w) => ExitKeepsInv(s, w);
    case Report(w, ok) => ReportKeepsInv(s, w, ok);
    case _ => ControlKeepsInv(s, a);
  }

  lemma ControlKeepsInv(s: State, a: Action)
    requires Inv(s) && Enabled(s, a) && !IsWork(a)
    ensures Inv(Apply(s, a))
  {
    hide TasksOf, Errors, InHand, Pairs;
    NothingReported();
    NothingInHand(NEW_WORKERS);
    if a.Load? && CouldLoad(a.exophones) {
      PairsCount(a.exophones.value, s.stage.dates);
    }
  }

  lemma TakeKeepsInv(s: State, w: nat)
    requires Inv(s) && Enabled(s, Take(w))
    ensures Inv(Apply(s, Take(w)))
  {
    hide TasksOf, Errors, InHand;
    var t, rest := s.stage.queue[0], s.stage.queue[1..];
    InHandUpdate(s.stage.workers, w, Busy(t));
    assert s.stage.queue == [t] + rest;
    assert multiset(s.stage.queue) == multiset{t} + multiset(rest);
    assert InHand(s.stage.workers[w := Busy(t)]) == InHand(s.stage.workers) + multiset{t};
  }

  lemma ExitKeepsInv(s: State, w: nat)
    requires Inv(s) && Enabled(s, Exit(w))
    ensures Inv(Apply(s, Exit(w)))
  {
    hide TasksOf, Errors, InHand;
    InHandUpdate(s.stage.workers, w, Exited);
    AddingNothing(InHand(s.stage.workers[w := Exited]), InHand(s.stage.workers));
  }

  lemma ReportKeepsInv(s: State, w: nat, ok: bool)
    requires Inv(s) && Enabled(s, Report(w, ok))
    ensures Inv(Apply(s, Report(w, ok)))
  {
    hide TasksOf, Errors, InHand;
    var t := s.stage.workers[w].task;
    InHandUpdate(s.stage.workers, w, Ready);
    ReportSnoc(s.results, Outcome(t, ok));
    assert InHand(s.stage.workers[w := Ready]) + multiset{t} == InHand(s.stage.workers);
  }

  lemma NothingReported()
    ensures TasksOf([]) == [] && Errors([]) == 0
  {
  }

  // ---- Whole runs ----

  ghost predicate IsRun(s: State, acts: seq<Action>)
    decreases |acts|
  {
    acts == [] || (Enabled(s, acts[0]) && IsRun(Apply(s, acts[0]), acts[1..]))
  }

  ghost function After(s: State, acts: seq<Action>): State
    requires IsRun(s, acts)
    decreases |acts|
  {
    if acts == [] then s else After(Apply(s, acts[0]), acts[1..])
  }

  lemma {:induction false} RunKeepsInv(s: State, acts: seq<Action>)
    requires Inv(s) && IsRun(s, acts)
    ensures Inv(After(s, acts))
    decreases |acts|
  {
    hide Inv;
    if acts != [] {
      StepKeepsInv(s, acts[0]);
      RunKeepsInv(Apply(s, acts[0]), acts[1..]);
    }
  }

  // Over every interleaving of starts, loads and workers: finished, queued and held pairs add
  // up to Total, one result per finished pair, and Failed counts the error results.
  lemma ProgressAddsUp(acts: seq<Action>)
    requires IsRun(NEVER_RUN, acts)
    ensures var s := After(NEVER_RUN, acts);
      && |s.results| == s.done && Errors(s.results) == s.failed
      && (s.stage.Working? ==> s.done + |s.stage.queue| + |InHand(s.stage.workers)| == s.total)
  {
    hide InHand;
    NothingReported();
    RunKeepsInv(NEVER_RUN, acts);
    var s := After(NEVER_RUN, acts);
    if s.stage.Working? {
      assert |multiset(TasksOf(s.results))| == |s.results|;
      assert |multiset(TasksOf(s.results)) + multiset(s.stage.queue) + InHand(s.stage.workers)| == |multiset(s.stage.tasks)|;
    }
  }

  // Each pair has as many results as it was queued times, and the counters are complete.
  ghost predicate Delivered(tasks: seq<Task>, s: State) {
    && multiset(TasksOf(s.results)) == multiset(tasks)
    && s.done == s.total == |tasks|
  }

  lemma ClearDelivers(s: State)
    requires Inv(s) && Enabled(s, Clear)
    ensures Delivered(s.stage.tasks, Apply(s, Clear))
  {
    NothingInHand(s.stage.workers);
    assert s.stage.workers[0].Exited?;
    assert |multiset(TasksOf(s.results))| == |s.results|;
    assert |multiset(s.stage.tasks)| == |s.stage.tasks|;
  }

  // One accepted run from any state that is not running, with any interleaving of its
  // workers and of further starts, which are all refused: when Running is cleared, Done is
  // exophones times dates and each pair has one result for each time it was queued.
  lemma AcceptedRunDelivers(s: State, dates: seq<string>, exophones: seq<nat>, acts: seq<Action>)
    requires Inv(s) && !s.running && dates != [] && exophones != []
    requires var launched := Launching(s, dates, exophones);
      IsRun(launched, acts) && !After(launched, acts).running
    requires forall i :: 0 <= i < |acts| - 1 ==> acts[i] != Clear
    ensures var after := After(Launching(s, dates, exophones), acts);
      && after.done == |exophones| * |dates|
      && Delivered(Pairs(exophones, dates), after)
  {
    PairsCount(exophones, dates);
    StepKeepsInv(s, Start(dates));
    StepKeepsInv(Apply(s, Start(dates)), Load(Some(exophones)));
    RunningUntilCleared(Launching(s, dates, exophones), Pairs(exophones, dates), acts);
  }

  function Launching(s: State, dates: seq<string>, exophones: seq<nat>): State
    requires !s.running && dates != [] && exophones != []
  {
    Apply(Apply(s, Start(dates)), Load(Some(exophones)))
  }

  ghost predicate RunOf(s: State, tasks: seq<Task>) {
    (s.stage.Launched? || s.stage.Working?) && s.stage.tasks == tasks
  }

  lemma {:induction false} RunningUntilCleared(s: State, tasks: seq<Task>, acts: seq<Action>)
    requires Inv(s) && RunOf(s, tasks) && IsRun(s, acts) && !After(s, acts).running
    requires forall i :: 0 <= i < |acts| - 1 ==> acts[i] != Clear
    ensures Delivered(tasks, After(s, acts))
    decreases |acts|
  {
    hide Delivered, Errors, TasksOf, InHand;
    if acts != [] {
      var next := Apply(s, acts[0]);
      StepKeepsInv(s, acts[0]);
      if acts[0] == Clear {
        ClearDelivers(s);
        assert acts[1..] == [];
      } else {
        assert RunOf(next, tasks);
        assert forall i :: 0 <= i < |acts[1..]| - 1 ==> acts[1..][i] == acts[i + 1];
        RunningUntilCleared(next, tasks, acts[1..]);
      }
    }
  }

  // ---- Progress ----

  // What is left once the queue is filled: two steps a queued pair, one a held pair, one a
  // worker, and clearing the flag.
  ghost function Remaining(stage: Stage): nat
    requires stage.Working?
  {
    2 * |stage.queue| + |InHand(stage.workers)| + Present(stage.workers) + 1
  }

  ghost function Present(workers: seq<Worker>): nat {
    if workers == [] then 0 else Present(workers[..|workers| - 1]) + if workers[|workers| - 1].Exited? then 0 else 1
  }

  lemma {:induction false} PresentUpdate(workers: seq<Worker>, w: nat, state: Worker)
    requires w < |workers|
    ensures Present(workers[w := state])
         == Present(workers) - (if workers[w].Exited? then 0 else 1) + if state.Exited? then 0 else 1
  {
    var front := workers[..|workers| - 1];
    if w < |workers| - 1 {
      PresentUpdate(front, w, state);
      assert workers[w := state][..|workers| - 1] == front[w := state];
    } else {
      assert workers[w := state][..|workers| - 1] == front;
    }
  }

  lemma WorkCountsDown(s: State, a: Action)
    requires Enabled(s, a) && IsWork(a)
    ensures Apply(s, a).stage.Working? && Remaining(Apply(s, a).stage) == Remaining(s.stage) - 1
  {
    hide InHand, Present;
    var before, after := s.stage.workers, Apply(s, a).stage.workers;
    InHandUpdate(before, a.worker, after[a.worker]);
    PresentUpdate(before, a.worker, after[a.worker]);
    assert |InHand(after) + Held(before[a.worker])| == |InHand(before) + Held(after[a.worker])|;
  }

  // The workers never block each other: as long as one is present, some worker can step.
  lemma SomeoneCanWork(s: State)
    requires Inv(s) && s.stage.Working?
    ensures (exists a :: IsWork(a) && Enabled(s, a)) <==> !Enabled(s, Clear)
  {
    if !Enabled(s, Clear) {
      var w :| 0 <= w < |s.stage.workers| && !s.stage.workers[w].Exited?;
      var a := if s.stage.workers[w].Busy? then Report(w, true)
               else if s.stage.queue != [] then Take(w) else Exit(w);
      assert IsWork(a) && Enabled(s, a);
    }
  }

  // Every schedule of the workers of a filled queue of n pairs takes at most 2n + 3 steps,
  // and takes exactly that many when the flag can be cleared.
  lemma {:induction false} WorkersFinish(s: State, acts: seq<Action>)
    requires Inv(s) && s.stage.Working? && IsRun(s, acts)
    requires forall i :: 0 <= i < |acts| ==> IsWork(acts[i])
    ensures After(s, acts).stage.Working?
    ensures |acts| + 1 <= Remaining(s.stage)
    ensures Enabled(After(s, acts), Clear) <==> |acts| + 1 == Remaining(s.stage)
    decreases |acts|
  {
    hide Inv, InHand, Present;
    if acts == [] {
      ClearIsLast(s);
    } else {
      WorkCountsDown(s, acts[0]);
      StepKeepsInv(s, acts[0]);
      WorkersFinish(Apply(s, acts[0]), acts[1..]);
    }
  }

  lemma ClearIsLast(s: State)
    requires Inv(s) && s.stage.Working?
    ensures Enabled(s, Clear) <==> Remaining(s.stage) == 1
  {
    NooneIsPresent(s.stage.workers);
    if Enabled(s, Clear) {
      NothingInHand(s.stage.workers);
      assert s.stage.workers[0].Exited?;
    }
  }

  lemma {:induction false} NooneIsPresent(workers: seq<Worker>)
    ensures Present(workers) == 0 <==> forall w :: 0 <= w < |workers| ==> workers[w].Exited?
  {
    if workers != [] {
      var front := workers[..|workers| - 1];
      NooneIsPresent(front);
      assert forall w :: 0 <= w < |front| ==> front[w] == workers[w];
    }
  }

  // Until the exophones are read the record shows the previous run's Total, and if reading
  // them fails it keeps showing it with nothing done.
  lemma StaleTotal(s: State, dates: seq<string>)
    requires Inv(s) && !s.running && dates != []
    ensures var started := Apply(s, Start(dates));
      && started.running && started.done == 0 && started.total == s.total
      && Apply(started, Load(None)) == State(false, s.total, 0, 0, [], Idle)
  {
  }

  // ---- The record in terms of what happened ----

  // The reports since the last accepted start, each with the pair its worker held; a start
  // while a run is on does not count.
  ghost function Reported(s: State, acts: seq<Action>, before: seq<Outcome>): seq<Outcome>
    requires IsRun(s, acts)
    decreases |acts|
  {
    if acts == [] then before
    else
      var rest := acts[1..];
      match acts[0]
      case Start(_) => Reported(Apply(s, acts[0]), rest, if s.running then before else [])
      case Report(w, ok) => Reported(Apply(s, acts[0]), rest, before + [Outcome(s.stage.workers[w].task, ok)])
      case _ => Reported(Apply(s, acts[0]), rest, before)
  }

  // How many of them were failures.
  ghost function FailuresReported(s: State, acts: seq<Action>, before: nat): nat
    requires IsRun(s, acts)
    decreases |acts|
  {
    if acts == [] then before
    else
      var rest := acts[1..];
      match acts[0]
      case Start(_) => FailuresReported(Apply(s, acts[0]), rest, if s.running then before else 0)
      case Report(_, ok) => FailuresReported(Apply(s, acts[0]), rest, if ok then before else before + 1)
      case _ => FailuresReported(Apply(s, acts[0]), rest, before)
  }

  lemma {:induction false} RecordFollowsReports(s: State, acts: seq<Action>)
    requires IsRun(s, acts)
    ensures var after := After(s, acts);
      && after.results == Reported(s, acts, s.results)
      && after.failed == FailuresReported(s, acts, s.failed)
    decreases |acts|
  {
    if acts != [] {
      RecordFollowsReports(Apply(s, acts[0]), acts[1..]);
    }
  }

  // Over every run: the results are the reports since the last accepted start, in order, each
  // with the pair its worker held and the outcome it reported; Done is their number, and Failed
  // that of the failures among them.
  lemma RecordTellsWhatHappened(acts: seq<Action>)
    requires IsRun(NEVER_RUN, acts)
    ensures var s := After(NEVER_RUN, acts);
      && s.results == Reported(NEVER_RUN, acts, [])
      && s.done == |Reported(NEVER_RUN, acts, [])|
      && s.failed == FailuresReported(NEVER_RUN, acts, 0)
  {
    RecordFollowsReports(NEVER_RUN, acts);
    ProgressAddsUp(acts);
  }

  // A worker holds the pair it took last, the head of the queue at that moment, until it
  // reports; so that is the pair the result names.
  lemma TakenPairIsHeld(s: State, w: nat, a: Action)
    requires Inv(s) && Enabled(s, Take(w)) && Enabled(Apply(s, Take(w)), a)
    requires !(a.Report? && a.worker == w)
    ensures var taken := Apply(s, Take(w));
      && WorkerIs(taken, w, Busy(s.stage.queue[0])) && [s.stage.queue[0]] + taken.stage.queue == s.stage.queue
      && WorkerIs(Apply(taken, a), w, Busy(s.stage.queue[0]))
  {
    assert s.stage.queue == [s.stage.queue[0]] + s.stage.queue[1..];
  }

  // Three workers share the queue: from filling it to clearing the flag a run of n pairs takes
  // two steps a pair, one for each worker that leaves, and one more.
  lemma StepsOfAFilledRun(s: State)
    requires Inv(s) && s.stage.Launched?
    ensures var filled := Apply(s, Fill);
      filled.stage.Working? && |filled.stage.workers| == 3 && Remaining(filled.stage) == 2 * |s.stage.tasks| + 3 + 1
  {
    NothingInHand(NEW_WORKERS);
    ThreePresent();
  }

  lemma ThreePresent()
    ensures Present(NEW_WORKERS) == 3
  {
    assert NEW_WORKERS[..2] == [Ready, Ready] && [Ready, Ready][..1] == [Ready] && [Ready][..0] == [];
    assert Present([]) == 0 && Present([Ready]) == 1 && Present([Ready, Ready]) == 2;
  }
}
