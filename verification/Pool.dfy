// workers.Pool: a semaphore-bounded goroutine pool, as interleaved atomic steps.
module Pool {

  // Where one submitted function is. Submit has returned once the function was handed to its
  // goroutine; panicked remembers how it ended.
  datatype Phase =
    | Waiting
    | Acquired
    | Added
    | Executing
    | Unwinding(panicked: bool)
    | Released(panicked: bool)
    | Finished(panicked: bool)

  // A caller of Wait and the functions that were past wg.Add when it called.
  datatype Waiter = Blocked(covers: set<nat>) | Woken(covers: set<nat>) | Returned(covers: set<nat>)

  datatype State = State(max: nat, sem: int, wg: int, tasks: seq<Phase>, waiters: seq<Waiter>)

  function NewPool(maxWorkers: nat): State {
    State(maxWorkers, 0, 0, [], [])
  }

  datatype Action =
    | Submit
    | Acquire(task: nat)
    | Add(task: nat)
    | Spawn(task: nat)
    | End(task: nat, panicked: bool)
    | Release(task: nat)
    | Done(task: nat)
    | Wait
    | Return(waiter: nat)

  predicate At(s: State, t: nat, p: Phase) {
    t < |s.tasks| && s.tasks[t] == p
  }

  // Sending to the full semaphore and receiving from the empty one block.
  predicate Enabled(s: State, a: Action) {
    match a
    case Submit => true
    case Acquire(t) => At(s, t, Waiting) && s.sem < s.max
    case Add(t) => At(s, t, Acquired)
    case Spawn(t) => At(s, t, Added)
    case End(t, _) => At(s, t, Executing)
    case Release(t) => t < |s.tasks| && s.tasks[t].Unwinding? && s.sem > 0
    case Done(t) => t < |s.tasks| && s.tasks[t].Released?
    case Wait => true
    case Return(w) => w < |s.waiters| && s.waiters[w].Woken?
  }

  // The counter has been raised for it. This is so for every function whose Submit returned.
  predicate PastAdd(p: Phase) {
    !p.Waiting? && !p.Acquired?
  }

  function Covered(s: State): set<nat> {
    set t | 0 <= t < |s.tasks| && PastAdd(s.tasks[t])
  }

  // The counter reaching zero wakes every blocked waiter.
  function Wake(waiters: seq<Waiter>): seq<Waiter> {
    seq(|waiters|, i requires 0 <= i < |waiters| =>
      if waiters[i].Blocked? then Woken(waiters[i].covers) else waiters[i])
  }

  function Apply(s: State, a: Action): State
    requires Enabled(s, a)
  {
    match a
    case Submit => s.(tasks := s.tasks + [Waiting])
    case Acquire(t) => s.(sem := s.sem + 1, tasks := s.tasks[t := Acquired])
    case Add(t) => s.(wg := s.wg + 1, tasks := s.tasks[t := Added])
    case Spawn(t) => s.(tasks := s.tasks[t := Executing])
    case End(t, panicked) => s.(tasks := s.tasks[t := Unwinding(panicked)])
    case Release(t) => s.(sem := s.sem - 1, tasks := s.tasks[t := Released(s.tasks[t].panicked)])
    case Done(t) =>
      s.(wg := s.wg - 1,
         tasks := s.tasks[t := Finished(s.tasks[t].panicked)],
         waiters := if s.wg == 1 then Wake(s.waiters) else s.waiters)
    case Wait => s.(waiters := s.waiters + [if s.wg == 0 then Woken(Covered(s)) else Blocked(Covered(s))])
    case Return(w) => s.(waiters := s.waiters[w := Returned(s.waiters[w].covers)])
  }

  // ---- The program text ----

  // The semaphore and the counter as Submit, its goroutine and Wait change them; the phases
  // and waiters are the positions of the goroutines in that text.
  class WorkerPool {
    const max: nat
    var sem: nat
    var wg: nat
    ghost var tasks: seq<Phase>
    ghost var waiters: seq<Waiter>

    ghost function Now(): State
      reads this
    {
      State(max, sem, wg, tasks, waiters)
    }

    ghost predicate Valid()
      reads this
    {
      Inv(Now())
    }

    constructor (maxWorkers: nat)
      ensures Now() == NewPool(maxWorkers) && Valid()
    {
      max, sem, wg, tasks, waiters := maxWorkers, 0, 0, [], [];
      new;
      StartsValid(maxWorkers);
    }

    // Taking a slot.
    method SendSlot(ghost t: nat)
      requires Valid() && Enabled(Now(), Acquire(t))
      modifies this
      ensures Now() == Apply(old(Now()), Acquire(t)) && Valid()
    {
      StepKeepsInv(Now(), Acquire(t));
      sem := sem + 1;
      tasks := tasks[t := Acquired];
    }

    // Counting the function as outstanding.
    method AddOne(ghost t: nat)
      requires Valid() && Enabled(Now(), Add(t))
      modifies this
      ensures Now() == Apply(old(Now()), Add(t)) && Valid()
    {
      StepKeepsInv(Now(), Add(t));
      wg := wg + 1;
      tasks := tasks[t := Added];
    }

    // Giving the slot back when the function is over: there always is one to give back.
    method ReceiveSlot(ghost t: nat)
      requires Valid() && t < |tasks| && tasks[t].Unwinding?
      modifies this
      ensures old(sem) > 0
      ensures Now() == Apply(old(Now()), Release(t)) && Valid()
    {
      HolderKeepsSlot(Now(), t);
      StepKeepsInv(Now(), Release(t));
      sem := sem - 1;
      tasks := tasks[t := Released(tasks[t].panicked)];
    }

    // No longer counting it: the counter never goes below zero.
    method DoneOne(ghost t: nat)
      requires Valid() && Enabled(Now(), Done(t))
      modifies this
      ensures Now() == Apply(old(Now()), Done(t)) && Valid()
    {
      OwingTaskIsCounted(Now(), t);
      StepKeepsInv(Now(), Done(t));
      if wg == 1 {
        waiters := Wake(waiters);
      }
      wg := wg - 1;
      tasks := tasks[t := Finished(tasks[t].panicked)];
    }
  }

  // ---- Counting goroutines ----

  predicate HoldsSlot(p: Phase) {
    p.Acquired? || p.Added? || p.Executing? || p.Unwinding?
  }

  predicate IsOutstanding(p: Phase) {
    p.Added? || p.Executing? || p.Unwinding? || p.Released?
  }

  predicate IsExecuting(p: Phase) {
    p.Executing?
  }

  ghost function Tally(f: Phase -> bool, ps: seq<Phase>): nat {
    if ps == [] then 0 else Tally(f, ps[..|ps| - 1]) + if f(ps[|ps| - 1]) then 1 else 0
  }

  lemma TallySnoc(f: Phase -> bool, ps: seq<Phase>, p: Phase)
    ensures Tally(f, ps + [p]) == Tally(f, ps) + if f(p) then 1 else 0
  {
    assert (ps + [p])[..|ps|] == ps;
  }

  lemma {:induction false} TallyUpdate(f: Phase -> bool, ps: seq<Phase>, i: nat, p: Phase)
    requires i < |ps|
    ensures Tally(f, ps[i := p]) == Tally(f, ps) - (if f(ps[i]) then 1 else 0) + if f(p) then 1 else 0
  {
    var front := ps[..|ps| - 1];
    if i < |ps| - 1 {
      TallyUpdate(f, front, i, p);
      assert ps[i := p][..|ps| - 1] == front[i := p];
    } else {
      assert ps[i := p][..|ps| - 1] == front;
    }
  }

  lemma {:induction false} TallyPositive(f: Phase -> bool, ps: seq<Phase>)
    ensures Tally(f, ps) > 0 <==> exists i :: 0 <= i < |ps| && f(ps[i])
  {
    if ps != [] {
      var front := ps[..|ps| - 1];
      TallyPositive(f, front);
      assert forall i :: 0 <= i < |front| ==> front[i] == ps[i];
      if f(ps[|ps| - 1]) {
        assert exists i :: 0 <= i < |ps| && f(ps[i]);
      } else if i :| 0 <= i < |ps| && f(ps[i]) {
        assert f(front[i]);
      }
    }
  }

  lemma {:induction false} TallyAtMost(f: Phase -> bool, g: Phase -> bool, ps: seq<Phase>)
    requires forall p :: f(p) ==> g(p)
    ensures Tally(f, ps) <= Tally(g, ps)
  {
    if ps != [] {
      TallyAtMost(f, g, ps[..|ps| - 1]);
    }
  }

  // ---- What every step keeps ----

  // The semaphore holds one token per goroutine between acquire and release, the counter is
  // the number between Add and Done, and a waiter has been woken only after everything
  // that was past Add when it called Wait was finished.
  ghost predicate Inv(s: State) {
    && s.sem == Tally(HoldsSlot, s.tasks) <= s.max
    && s.wg == Tally(IsOutstanding, s.tasks)
    && forall w :: 0 <= w < |s.waiters| ==> WaiterOk(s, s.waiters[w])
  }

  ghost predicate WaiterOk(s: State, w: Waiter) {
    && (w.Blocked? ==> s.wg > 0)
    && forall t :: t in w.covers ==>
         t < |s.tasks| && if w.Blocked? then PastAdd(s.tasks[t]) else s.tasks[t].Finished?
  }

  lemma StartsValid(maxWorkers: nat)
    ensures Inv(NewPool(maxWorkers))
  {
  }

  lemma HolderKeepsSlot(s: State, t: nat)
    requires Inv(s) && t < |s.tasks| && HoldsSlot(s.tasks[t])
    ensures s.sem > 0
  {
    TallyPositive(HoldsSlot, s.tasks);
  }

  lemma OwingTaskIsCounted(s: State, t: nat)
    requires Inv(s) && t < |s.tasks| && IsOutstanding(s.tasks[t])
    ensures s.wg > 0
  {
    TallyPositive(IsOutstanding, s.tasks);
  }

  lemma StepKeepsInv(s: State, a: Action)
    requires Inv(s) && Enabled(s, a)
    ensures Inv(Apply(s, a))
  {
    hide Tally;
    var after := Apply(s, a);
    match a
    case Submit =>
      TallySnoc(HoldsSlot, s.tasks, Waiting);
      TallySnoc(IsOutstanding, s.tasks, Waiting);
    case Wait =>
      TallyPositive(IsOutstanding, s.tasks);
    case Return(_) =>
    case _ =>
      TallyUpdate(HoldsSlot, s.tasks, a.task, after.tasks[a.task]);
      TallyUpdate(IsOutstanding, s.tasks, a.task, after.tasks[a.task]);
      TallyPositive(IsOutstanding, after.tasks);
  }

  // ---- Runs ----

  ghost predicate IsRun(s: State, acts: seq<Action>)
    decreases |acts|
  {
    acts == [] || (Enabled(s, acts[0]) && IsRun(Apply(s, acts[0]), acts[1..]))
  }

  ghost function After(s: State, acts: seq<Action>): State
    requires IsRun(s, acts)
    decreases |acts|
  {
    if acts == [] then s else After(Apply(s, acts[0]), acts[1..])
  }

  lemma {:induction false} RunKeepsInv(s: State, acts: seq<Action>)
    requires Inv(s) && IsRun(s, acts)
    ensures Inv(After(s, acts)) && After(s, acts).max == s.max
    decreases |acts|
  {
    hide Inv;
    if acts != [] {
      StepKeepsInv(s, acts[0]);
      RunKeepsInv(Apply(s, acts[0]), acts[1..]);
    }
  }

  // Over every interleaving: at most maxWorkers functions execute, the counter is the number
  // of tasks between Add and Done, and a caller that came back from Wait finds every function
  // that was past Add when it called finished, panicked or not.
  lemma PoolSafety(maxWorkers: nat, acts: seq<Action>)
    requires IsRun(NewPool(maxWorkers), acts)
    ensures var s := After(NewPool(maxWorkers), acts);
      && Tally(IsExecuting, s.tasks) <= s.sem <= maxWorkers
      && s.wg == Tally(IsOutstanding, s.tasks)
      && forall w, t :: 0 <= w < |s.waiters| && s.waiters[w].Returned? && t in s.waiters[w].covers ==>
           t < |s.tasks| && s.tasks[t].Finished?
  {
    var s := After(NewPool(maxWorkers), acts);
    StartsValid(maxWorkers);
    RunKeepsInv(NewPool(maxWorkers), acts);
    TallyAtMost(IsExecuting, HoldsSlot, s.tasks);
    forall w, t | 0 <= w < |s.waiters| && s.waiters[w].Returned? && t in s.waiters[w].covers
      ensures t < |s.tasks| && s.tasks[t].Finished?
    {
      assert WaiterOk(s, s.waiters[w]);
    }
  }

  // The smallest run in which Wait passes a Submit by: the slot is already taken, yet Wait
  // comes back before the function has started.
  lemma WaitMissesUnreturnedSubmit()
    ensures var acts := [Submit, Acquire(0), Wait, Return(0)];
      && IsRun(NewPool(1), acts)
      && After(NewPool(1), acts).waiters == [Returned({})]
      && After(NewPool(1), acts).tasks == [Acquired]
  {
    var s0 := NewPool(1);
    var acts := [Submit, Acquire(0), Wait, Return(0)];
    var s1 := Apply(s0, Submit);
    var s2 := Apply(s1, Acquire(0));
    assert Covered(s2) == {};
    var s3 := Apply(s2, Wait);
    assert acts[1..] == [Acquire(0), Wait, Return(0)];
    assert acts[1..][1..] == [Wait, Return(0)];
    assert acts[1..][1..][1..] == [Return(0)];
    assert acts[1..][1..][1..][1..] == [];
    var s4 := Apply(s3, Return(0));
    assert IsRun(s3, [Return(0)]) && After(s3, [Return(0)]) == s4;
    assert IsRun(s2, [Wait, Return(0)]) && After(s2, [Wait, Return(0)]) == s4;
    assert IsRun(s1, [Acquire(0), Wait, Return(0)]) && After(s1, [Acquire(0), Wait, Return(0)]) == s4;
    assert IsRun(s0, acts) && After(s0, acts) == s4;
  }

  // ---- Progress ----

  // A step of a goroutine that is already there, rather than a new call of Submit or Wait.
  predicate IsProgress(a: Action) {
    !a.Submit? && !a.Wait?
  }

  ghost predicate AllAtRest(s: State) {
    && (forall t :: 0 <= t < |s.tasks| ==> s.tasks[t].Finished?)
    && (forall w :: 0 <= w < |s.waiters| ==> s.waiters[w].Returned?)
  }

  ghost predicate Stuck(s: State) {
    forall a :: IsProgress(a) ==> !Enabled(s, a)
  }

  // Nothing ever deadlocks: with at least one slot, a pool in which no goroutine can take a
  // step is one in which every function has finished and every Wait has returned.
  lemma StuckOnlyAtRest(s: State)
    requires Inv(s) && s.max >= 1
    ensures Stuck(s) <==> AllAtRest(s)
  {
    if Stuck(s) {
      forall t | 0 <= t < |s.tasks| ensures s.tasks[t].Finished? || s.tasks[t].Waiting? {
        assert !Enabled(s, Add(t)) && !Enabled(s, Spawn(t)) && !Enabled(s, End(t, false)) && !Enabled(s, Done(t));
        if s.tasks[t].Unwinding? {
          HolderKeepsSlot(s, t);
          assert Enabled(s, Release(t));
        }
      }
      TallyPositive(HoldsSlot, s.tasks);
      TallyPositive(IsOutstanding, s.tasks);
      forall t | 0 <= t < |s.tasks| ensures s.tasks[t].Finished? {
        assert !Enabled(s, Acquire(t));
      }
      forall w | 0 <= w < |s.waiters| ensures s.waiters[w].Returned? {
        assert !Enabled(s, Return(w)) && WaiterOk(s, s.waiters[w]);
      }
    }
  }

  function StepsLeft(p: Phase): nat {
    match p
    case Waiting => 6
    case Acquired => 5
    case Added => 4
    case Executing => 3
    case Unwinding(_) => 2
    case Released(_) => 1
    case Finished(_) => 0
  }

  ghost function TaskSteps(ps: seq<Phase>): nat {
    if ps == [] then 0 else TaskSteps(ps[..|ps| - 1]) + StepsLeft(ps[|ps| - 1])
  }

  ghost function WaitSteps(ws: seq<Waiter>): nat {
    if ws == [] then 0 else WaitSteps(ws[..|ws| - 1]) + if ws[|ws| - 1].Returned? then 0 else 1
  }

  lemma {:induction false} TaskStepsUpdate(ps: seq<Phase>, i: nat, p: Phase)
    requires i < |ps|
    ensures TaskSteps(ps[i := p]) == TaskSteps(ps) - StepsLeft(ps[i]) + StepsLeft(p)
  {
    var front := ps[..|ps| - 1];
    if i < |ps| - 1 {
      TaskStepsUpdate(front, i, p);
      assert ps[i := p][..|ps| - 1] == front[i := p];
    } else {
      assert ps[i := p][..|ps| - 1] == front;
    }
  }

  lemma {:induction false} WaitStepsUpdate(ws: seq<Waiter>, i: nat, w: Waiter)
    requires i < |ws| && ws[i].Woken? && w.Returned?
    ensures WaitSteps(ws[i := w]) == WaitSteps(ws) - 1
  {
    var front := ws[..|ws| - 1];
    if i < |ws| - 1 {
      WaitStepsUpdate(front, i, w);
      assert ws[i := w][..|ws| - 1] == front[i := w];
    } else {
      assert ws[i := w][..|ws| - 1] == front;
    }
  }

  lemma {:induction false} WakingTakesNoSteps(ws: seq<Waiter>)
    ensures WaitSteps(Wake(ws)) == WaitSteps(ws)
  {
    if ws != [] {
      WakingTakesNoSteps(ws[..|ws| - 1]);
      assert Wake(ws)[..|ws| - 1] == Wake(ws[..|ws| - 1]);
    }
  }

  ghost function Remaining(s: State): nat {
    TaskSteps(s.tasks) + WaitSteps(s.waiters)
  }

  lemma ProgressCountsDown(s: State, a: Action)
    requires Enabled(s, a) && IsProgress(a)
    ensures Remaining(Apply(s, a)) == Remaining(s) - 1
  {
    if a.Return? {
      WaitStepsUpdate(s.waiters, a.waiter, Returned(s.waiters[a.waiter].covers));
    } else {
      TaskStepsUpdate(s.tasks, a.task, Apply(s, a).tasks[a.task]);
      WakingTakesNoSteps(s.waiters);
    }
  }

  // Once callers stop arriving, every schedule is finite: it takes exactly the steps that
  // remain, and then every function has finished and every Wait has returned.
  lemma {:induction false} EveryScheduleCompletes(s: State, acts: seq<Action>)
    requires Inv(s) && s.max >= 1 && IsRun(s, acts)
    requires forall i :: 0 <= i < |acts| ==> IsProgress(acts[i])
    ensures |acts| <= Remaining(s)
    ensures Stuck(After(s, acts)) <==> AllAtRest(After(s, acts))
    ensures Stuck(After(s, acts)) <==> |acts| == Remaining(s)
    decreases |acts|
  {
    hide Inv, Stuck, AllAtRest, Remaining;
    if acts == [] {
      StuckOnlyAtRest(s);
      RestHasNothingLeft(s);
    } else {
      ProgressCountsDown(s, acts[0]);
      StepKeepsInv(s, acts[0]);
      EveryScheduleCompletes(Apply(s, acts[0]), acts[1..]);
    }
  }

  lemma RestHasNothingLeft(s: State)
    ensures AllAtRest(s) <==> Remaining(s) == 0
  {
    NoTaskSteps(s.tasks);
    NoWaitSteps(s.waiters);
  }

  lemma {:induction false} NoTaskSteps(ps: seq<Phase>)
    ensures TaskSteps(ps) == 0 <==> forall i :: 0 <= i < |ps| ==> ps[i].Finished?
  {
    if ps != [] {
      var front := ps[..|ps| - 1];
      NoTaskSteps(front);
      assert forall i :: 0 <= i < |front| ==> front[i] == ps[i];
    }
  }

  lemma {:induction false} NoWaitSteps(ws: seq<Waiter>)
    ensures WaitSteps(ws) == 0 <==> forall i :: 0 <= i < |ws| ==> ws[i].Returned?
  {
    if ws != [] {
      var front := ws[..|ws| - 1];
      NoWaitSteps(front);
      assert forall i :: 0 <= i < |front| ==> front[i] == ws[i];
    }
  }

  // A pool built with no slots never runs anything.
  lemma {:induction false} NoSlotsNoWork(s: State, acts: seq<Action>)
    requires s.max == 0 && s.sem >= 0 && IsRun(s, acts)
    requires forall t :: 0 <= t < |s.tasks| ==> s.tasks[t].Waiting?
    ensures forall t :: 0 <= t < |After(s, acts).tasks| ==> After(s, acts).tasks[t].Waiting?
    decreases |acts|
  {
    if acts != [] {
      NoSlotsNoWork(Apply(s, acts[0]), acts[1..]);
    }
  }

  // ---- Exactly what Wait waits for ----

  // The state of the last caller of Wait after some steps from its call on.
  ghost predicate HasReturned(s: State, acts: seq<Action>)
    requires IsRun(s, [Wait] + acts)
  {
    var w, after := |s.waiters|, After(s, [Wait] + acts);
    w < |after.waiters| && after.waiters[w].Returned?
  }

  predicate HasFinished(s: State, t: nat) {
    t < |s.tasks| && s.tasks[t].Finished?
  }

  // A waiter stays, and what it covers does not change.
  lemma {:induction false} CoversStay(s: State, acts: seq<Action>, w: nat)
    requires IsRun(s, acts) && w < |s.waiters|
    ensures w < |After(s, acts).waiters| && After(s, acts).waiters[w].covers == s.waiters[w].covers
    decreases |acts|
  {
    if acts != [] {
      CoversStay(Apply(s, acts[0]), acts[1..], w);
    }
  }

  lemma RunCons(s: State, a: Action, rest: seq<Action>)
    ensures IsRun(s, [a] + rest) <==> Enabled(s, a) && IsRun(Apply(s, a), rest)
    ensures IsRun(s, [a] + rest) ==> After(s, [a] + rest) == After(Apply(s, a), rest)
  {
    assert ([a] + rest)[1..] == rest;
  }

  lemma {:induction false} RunSnoc(s: State, acts: seq<Action>, a: Action)
    requires IsRun(s, acts) && Enabled(After(s, acts), a)
    ensures IsRun(s, acts + [a]) && After(s, acts + [a]) == Apply(After(s, acts), a)
    decreases |acts|
  {
    if acts == [] {
      assert [] + [a] == [a] && [a][1..] == [];
    } else {
      RunSnoc(Apply(s, acts[0]), acts[1..], a);
      assert (acts + [a])[1..] == acts[1..] + [a];
    }
  }

  // The next step of a task between Add and Done; it is never blocked.
  lemma NextStep(s: State, t: nat) returns (a: Action)
    requires Inv(s) && t < |s.tasks| && IsOutstanding(s.tasks[t])
    ensures IsProgress(a) && !a.Return? && Enabled(s, a) && a.task == t
  {
    match s.tasks[t]
    case Added => a := Spawn(t);
    case Executing => a := End(t, false);
    case Unwinding(_) =>
      HolderKeepsSlot(s, t);
      a := Release(t);
    case Released(_) => a := Done(t);
  }

  // Letting every task that is past Add finish, and nothing else happen, brings the counter
  // to zero.
  lemma {:induction false} Drain(s: State) returns (acts: seq<Action>)
    requires Inv(s)
    ensures IsRun(s, acts) && After(s, acts).wg == 0 && Inv(After(s, acts))
    ensures |After(s, acts).tasks| == |s.tasks|
    ensures forall t :: 0 <= t < |s.tasks| && !PastAdd(s.tasks[t]) ==> After(s, acts).tasks[t] == s.tasks[t]
    ensures |After(s, acts).waiters| == |s.waiters|
    ensures forall w :: 0 <= w < |s.waiters| && !s.waiters[w].Returned? ==> After(s, acts).waiters[w].Woken?
    decreases Remaining(s)
  {
    TallyPositive(IsOutstanding, s.tasks);
    if s.wg == 0 {
      acts := [];
      assert forall w :: 0 <= w < |s.waiters| ==> WaiterOk(s, s.waiters[w]);
    } else {
      hide Tally, TaskSteps, WaitSteps;
      var t :| 0 <= t < |s.tasks| && IsOutstanding(s.tasks[t]);
      var a := NextStep(s, t);
      var next := Apply(s, a);
      ProgressCountsDown(s, a);
      StepKeepsInv(s, a);
      var rest := Drain(next);
      acts := [a] + rest;
      RunCons(s, a, rest);
      assert forall w :: 0 <= w < |s.waiters| ==> (next.waiters[w].Returned? <==> s.waiters[w].Returned?);
    }
  }

  // The exact law: in any state with the invariant, a Wait called now comes back only after
  // t has finished, in every continuation, if and only if t is past Add now.
  lemma WaitCoversExactlyThePastAdd(s: State, t: nat)
    requires Inv(s) && t < |s.tasks|
    ensures (forall acts :: IsRun(s, [Wait] + acts) && HasReturned(s, acts)
               ==> HasFinished(After(s, [Wait] + acts), t))
        <==> PastAdd(s.tasks[t])
  {
    if PastAdd(s.tasks[t]) {
      forall acts | IsRun(s, [Wait] + acts) && HasReturned(s, acts)
        ensures HasFinished(After(s, [Wait] + acts), t)
      {
        CoveredTaskFinishes(s, acts, t);
      }
    } else {
      var acts := WaitPassesBy(s, t);
    }
  }

  lemma CoveredTaskFinishes(s: State, acts: seq<Action>, t: nat)
    requires Inv(s) && t < |s.tasks| && PastAdd(s.tasks[t])
    requires IsRun(s, [Wait] + acts) && HasReturned(s, acts)
    ensures HasFinished(After(s, [Wait] + acts), t)
  {
    hide Tally;
    var called := Apply(s, Wait);
    RunCons(s, Wait, acts);
    StepKeepsInv(s, Wait);
    RunKeepsInv(called, acts);
    CoversStay(called, acts, |s.waiters|);
    assert t in called.waiters[|s.waiters|].covers;
    var after := After(called, acts);
    assert WaiterOk(after, after.waiters[|s.waiters|]);
  }

  // For a task that is not past Add: the others finish, Wait returns, and t is where it was.
  lemma WaitPassesBy(s: State, t: nat) returns (acts: seq<Action>)
    requires Inv(s) && t < |s.tasks| && !PastAdd(s.tasks[t])
    ensures IsRun(s, [Wait] + acts) && HasReturned(s, acts)
    ensures At(After(s, [Wait] + acts), t, s.tasks[t])
  {
    hide Inv;
    var called := Apply(s, Wait);
    StepKeepsInv(s, Wait);
    var rest := Drain(called);
    var w := |s.waiters|;
    RunSnoc(called, rest, Return(w));
    acts := rest + [Return(w)];
    RunCons(s, Wait, acts);
  }
}
