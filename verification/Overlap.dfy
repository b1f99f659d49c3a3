// Live jobs of one exophone that overlap each other and with backfills and reprocesses. A job
// stays due until it has finished, so a slow one is dispatched again; nothing locks the
// stretch from the Sid set over reading the row to writing it, nor the stretch from
// overwriting the row to registering its Sids. Each step is atomic, and they interleave
// freely.
module Overlap {
  import opened Text
  import opened Records
  import opened Engine
  import opened EngineLaws
  import opened Snapshots
  import opened SnapshotLaws
  import opened Dedup
  import opened Pipeline

  // What a live job holds: its fetched records, its new ones, and the row it has read; and
  // what a backfill or reprocess holds before it overwrites and before it registers.
  datatype Job =
    | Fetched(records: seq<CallRecord>)
    | Filtered(batch: seq<CallRecord>)
    | Loaded(batch: seq<CallRecord>, base: seq<seq<CallRecord>>)
    | Rewriting(records: seq<CallRecord>)
    | Registering(records: seq<CallRecord>)
    | Stored

  // The row is given by the batches it was built from; its columns are Columns(row). A row
  // overwritten without calls is a row of zeros, here the same as none.
  datatype State = State(seen: set<string>, row: seq<seq<CallRecord>>, jobs: seq<Job>)

  const EMPTY_DAY := State({}, [], [])

  datatype Action =
    | Arrive(records: seq<CallRecord>)
    | Filter(job: nat)
    | Load(job: nat)
    | Store(job: nat)
    | Rewrite(records: seq<CallRecord>)
    | Overwrite(job: nat)
    | Register(job: nat)

  predicate Enabled(s: State, a: Action) {
    match a
    case Arrive(_) => true
    case Filter(i) => i < |s.jobs| && s.jobs[i].Fetched?
    case Load(i) => i < |s.jobs| && s.jobs[i].Filtered?
    case Store(i) => i < |s.jobs| && s.jobs[i].Loaded?
    case Rewrite(_) => true
    case Overwrite(i) => i < |s.jobs| && s.jobs[i].Rewriting?
    case Register(i) => i < |s.jobs| && s.jobs[i].Registering?
  }

  // A batch without calls is not written.
  function Extended(base: seq<seq<CallRecord>>, row: seq<seq<CallRecord>>, batch: seq<CallRecord>)
    : seq<seq<CallRecord>>
  {
    if batch == [] then row else base + [batch]
  }

  function Apply(s: State, a: Action): State
    requires Enabled(s, a)
  {
    match a
    case Arrive(records) => s.(jobs := s.jobs + [Fetched(records)])
    case Filter(i) =>
      var records := s.jobs[i].records;
      State(s.seen + Sids(records), s.row, s.jobs[i := Filtered(Fresh(s.seen, records))])
    case Load(i) => s.(jobs := s.jobs[i := Loaded(s.jobs[i].batch, s.row)])
    case Store(i) => s.(row := Extended(s.jobs[i].base, s.row, s.jobs[i].batch), jobs := s.jobs[i := Job.Stored])
    case Rewrite(records) => s.(jobs := s.jobs + [Rewriting(records)])
    case Overwrite(i) =>
      var records := s.jobs[i].records;
      s.(row := Extended([], [], records), jobs := s.jobs[i := Registering(records)])
    case Register(i) => s.(seen := s.seen + Sids(s.jobs[i].records), jobs := s.jobs[i := Job.Stored])
  }

  // ---- What the row's columns are ----

  ghost function Columns(vn: string, row: seq<seq<CallRecord>>): Option<SnapshotRow>
    requires NonEmptyBatches(row)
  {
    if row == [] then None else Some(Folded(vn, row))
  }

  // A row written from scratch has the columns of the summary of its records.
  lemma OverwrittenColumns(vn: string, rs: seq<CallRecord>)
    requires rs != []
    ensures NonEmptyBatches([rs]) && Columns(vn, [rs]) == Some(Snapshots.Stored(RowOf(SummaryOf(vn, rs))))
  {
    hide Snapshots.Stored, SummaryOf, Accumulated, RowOf;
    SummaryTotal(vn, rs);
    assert [rs][..0] == [] && Folded(vn, [rs][..0]) == EMPTY_ROW;
    AccumulatedOntoNothing(vn, rs);
  }

  // Storing onto what was read is the accumulation of the batch onto the columns read.
  lemma StoreAccumulates(vn: string, base: seq<seq<CallRecord>>, batch: seq<CallRecord>)
    requires NonEmptyBatches(base) && batch != []
    ensures NonEmptyBatches(base + [batch])
    ensures Columns(vn, base + [batch]) == AccumulateInto(Columns(vn, base), SummaryOf(vn, batch))
  {
    hide SummaryOf, Accumulated, Snapshots.Stored;
    assert (base + [batch])[..|base|] == base;
    SummaryTotal(vn, batch);
  }

  // ---- At most once ----

  function BatchOf(j: Job): seq<CallRecord> {
    if j.Filtered? || j.Loaded? then j.batch else []
  }

  ghost function Counted(row: seq<seq<CallRecord>>): set<string> {
    Sids(Flatten(row))
  }

  ghost predicate RowOk(row: seq<seq<CallRecord>>) {
    NonEmptyBatches(row) && Distinct(Flatten(row))
  }

  // A batch still to be stored shares no Sid with any other, with a row that its job has yet
  // to read, or with one that it has read.
  ghost predicate Inv(s: State) {
    && RowOk(s.row)
    && (forall i :: 0 <= i < |s.jobs| ==> BatchOk(s, s.jobs[i]))
    && (forall i, k :: 0 <= i < k < |s.jobs| ==> Apart(s.jobs[i], s.jobs[k]))
    && (forall i, k :: 0 <= i < |s.jobs| && 0 <= k < |s.jobs| ==> ReadBefore(s.jobs[i], s.jobs[k]))
  }

  ghost predicate BatchOk(s: State, j: Job) {
    var b := BatchOf(j);
    && Distinct(b) && Sids(b) <= s.seen
    && (j.Filtered? ==> Sids(b) !! Counted(s.row))
    && (j.Loaded? ==> RowOk(j.base) && Sids(b) !! Counted(j.base))
  }

  ghost predicate Apart(j: Job, k: Job) {
    Sids(BatchOf(j)) !! Sids(BatchOf(k))
  }

  ghost predicate ReadBefore(j: Job, k: Job) {
    j.Loaded? && j.batch != [] && k.Filtered? ==> Counted(j.base) !! Sids(k.batch)
  }

  // A step is careful when a filter finds registered what it shares with the row and with the
  // rows that jobs have read and will store onto, and an overwrite brings each call once and
  // none that a job has filtered but not yet added to a row it read.
  ghost predicate Careful(s: State, a: Action)
    requires Enabled(s, a)
  {
    match a
    case Filter(i) =>
      var news := Sids(s.jobs[i].records) - s.seen;
      && news !! Counted(s.row)
      && forall k :: 0 <= k < |s.jobs| ==> NotReadBy(s.jobs[k], news)
    case Overwrite(i) =>
      var rs := s.jobs[i].records;
      Distinct(rs) && forall k :: 0 <= k < |s.jobs| ==> NotAwaiting(s.jobs[k], Sids(rs))
    case _ => true
  }

  ghost predicate NotReadBy(j: Job, sids: set<string>) {
    j.Loaded? && j.batch != [] ==> Counted(j.base) !! sids
  }

  ghost predicate NotAwaiting(j: Job, sids: set<string>) {
    j.Filtered? ==> Sids(j.batch) !! sids
  }

  lemma NoSids()
    ensures Sids([]) == {} && Distinct([]) && Counted([]) == {}
  {
  }

  lemma CountedSnoc(row: seq<seq<CallRecord>>, batch: seq<CallRecord>)
    ensures Counted(row + [batch]) == Counted(row) + Sids(batch)
    ensures Distinct(Flatten(row + [batch])) <==> Distinct(Flatten(row)) && Distinct(batch) && Counted(row) !! Sids(batch)
  {
    hide Flatten, Distinct, Sids;
    FlattenSnoc(row, batch);
    SidsConcat(Flatten(row), batch);
    DistinctConcat(Flatten(row), batch);
  }

  lemma FilterKeepsInv(s: State, i: nat)
    requires Inv(s) && Enabled(s, Filter(i)) && Careful(s, Filter(i))
    ensures Inv(Apply(s, Filter(i)))
  {
    hide Fresh, Distinct, Counted, Sids, RowOk;
    NoSids();
    FreshKeepsEachSidOnce(s.seen, s.jobs[i].records);
    forall k | 0 <= k < |s.jobs| ensures NotReadBy(s.jobs[k], Sids(s.jobs[i].records) - s.seen) {
    }
  }

  lemma StoreKeepsInv(s: State, i: nat)
    requires Inv(s) && Enabled(s, Store(i))
    ensures Inv(Apply(s, Store(i)))
  {
    hide Distinct, Counted, Sids, Flatten;
    NoSids();
    var j := s.jobs[i];
    assert BatchOk(s, j);
    CountedSnoc(j.base, j.batch);
    var after := Apply(s, Store(i));
    forall k | 0 <= k < |s.jobs| && k != i ensures BatchOk(after, s.jobs[k]) {
      assert ReadBefore(j, s.jobs[k]) && BatchOk(s, s.jobs[k]);
      assert if k < i then Apart(s.jobs[k], j) else Apart(j, s.jobs[k]);
    }
  }

  lemma OverwriteKeepsInv(s: State, i: nat)
    requires Inv(s) && Enabled(s, Overwrite(i)) && Careful(s, Overwrite(i))
    ensures Inv(Apply(s, Overwrite(i)))
  {
    hide Distinct, Counted, Sids, Flatten;
    NoSids();
    NothingFlattened();
    var rs := s.jobs[i].records;
    CountedSnoc([], rs);
    var after := Apply(s, Overwrite(i));
    forall k | 0 <= k < |s.jobs| && k != i ensures BatchOk(after, s.jobs[k]) {
      assert NotAwaiting(s.jobs[k], Sids(rs)) && BatchOk(s, s.jobs[k]);
    }
  }

  lemma LoadKeepsInv(s: State, i: nat)
    requires Inv(s) && Enabled(s, Load(i))
    ensures Inv(Apply(s, Load(i)))
  {
    hide Distinct, Counted, Sids, RowOk;
    NoSids();
    assert BatchOk(s, s.jobs[i]);
  }

  lemma ArrivalKeepsInv(s: State, a: Action)
    requires Inv(s) && Enabled(s, a) && (a.Arrive? || a.Rewrite? || a.Register?)
    ensures Inv(Apply(s, a))
  {
    hide Distinct, Counted, Sids, RowOk;
    NoSids();
  }

  lemma StepKeepsInv(s: State, a: Action)
    requires Inv(s) && Enabled(s, a) && Careful(s, a)
    ensures Inv(Apply(s, a))
  {
    if a.Filter? {
      FilterKeepsInv(s, a.job);
    } else if a.Store? {
      StoreKeepsInv(s, a.job);
    } else if a.Overwrite? {
      OverwriteKeepsInv(s, a.job);
    } else if a.Load? {
      LoadKeepsInv(s, a.job);
    } else {
      ArrivalKeepsInv(s, a);
    }
  }

  ghost predicate IsRun(s: State, acts: seq<Action>)
    decreases |acts|
  {
    acts == [] || (Enabled(s, acts[0]) && IsRun(Apply(s, acts[0]), acts[1..]))
  }

  ghost function After(s: State, acts: seq<Action>): State
    requires IsRun(s, acts)
    decreases |acts|
  {
    if acts == [] then s else After(Apply(s, acts[0]), acts[1..])
  }

  ghost predicate AllCareful(s: State, acts: seq<Action>)
    requires IsRun(s, acts)
    decreases |acts|
  {
    acts == [] || (Careful(s, acts[0]) && AllCareful(Apply(s, acts[0]), acts[1..]))
  }

  lemma {:induction false} RunKeepsInv(s: State, acts: seq<Action>)
    requires Inv(s) && IsRun(s, acts) && AllCareful(s, acts)
    ensures Inv(After(s, acts))
    decreases |acts|
  {
    hide Inv, Careful;
    if acts != [] {
      StepKeepsInv(s, acts[0]);
      RunKeepsInv(Apply(s, acts[0]), acts[1..]);
    }
  }

  // Over every interleaving of careful steps of any number of live jobs, backfills and
  // reprocesses the row counts no call twice: TotalCalls is the number of its Sids.
  lemma AtMostOnce(vn: string, acts: seq<Action>)
    requires IsRun(EMPTY_DAY, acts) && AllCareful(EMPTY_DAY, acts)
    ensures var s := After(EMPTY_DAY, acts);
      && NonEmptyBatches(s.row) && Distinct(Flatten(s.row))
      && (s.row != [] ==> Columns(vn, s.row).value.total == |Counted(s.row)|)
  {
    hide Folded, Represents, AverageWithin, Flatten, Distinct, Careful;
    StartsRight();
    RunKeepsInv(EMPTY_DAY, acts);
    var s := After(EMPTY_DAY, acts);
    DistinctCount(Flatten(s.row));
    FoldRepresents(vn, s.row);
    RepresentsTotal(vn, Folded(vn, s.row), s.row);
  }

  lemma StartsRight()
    ensures Inv(EMPTY_DAY)
  {
    NoSids();
    NothingFlattened();
  }

  // And care is needed at every step: after a careless one the others can go on so that the
  // row counts a call twice.
  lemma CarelessStepsCountTwice(s: State, a: Action) returns (acts: seq<Action>)
    requires Inv(s) && Enabled(s, a) && !Careful(s, a)
    ensures IsRun(s, [a] + acts) && !Distinct(Flatten(After(s, [a] + acts).row))
  {
    hide Distinct, Flatten, Counted, Sids, Fresh;
    var next, i := Apply(s, a), a.job;
    var rs := s.jobs[i].records;
    if a.Filter? {
      FreshKeepsEachSidOnce(s.seen, rs);
      if Sids(rs) - s.seen !! Counted(s.row) {
        var k :| 0 <= k < |s.jobs| && !NotReadBy(s.jobs[k], Sids(rs) - s.seen);
        var stored := Apply(next, Store(k));
        CountedSnoc(s.jobs[k].base, s.jobs[k].batch);
        var rest := StoreOnto(stored, i);
        acts := [Store(k)] + rest;
        RunCons(next, Store(k), rest);
      } else {
        acts := StoreOnto(next, i);
      }
    } else if !Distinct(rs) {
      acts := [];
      NoSids();
      NothingFlattened();
      CountedSnoc([], rs);
    } else {
      var k :| 0 <= k < |s.jobs| && !NotAwaiting(s.jobs[k], Sids(rs));
      NoSids();
      CountedSnoc([], rs);
      acts := StoreOnto(next, k);
    }
    RunCons(s, a, acts);
  }

  // A job that reads and stores at once, sharing a call with the row.
  lemma StoreOnto(s: State, k: nat) returns (acts: seq<Action>)
    requires k < |s.jobs| && s.jobs[k].Filtered? && !(Sids(s.jobs[k].batch) !! Counted(s.row))
    ensures IsRun(s, acts) && !Distinct(Flatten(After(s, acts).row))
  {
    hide Distinct, Flatten, Counted, Sids;
    NoSids();
    var read := Apply(s, Load(k));
    acts := [Load(k)] + ([Store(k)] + []);
    RunCons(read, Store(k), []);
    RunCons(s, Load(k), [Store(k)] + []);
    CountedSnoc(s.row, s.jobs[k].batch);
  }

  lemma RunCons(s: State, a: Action, rest: seq<Action>)
    requires Enabled(s, a) && IsRun(Apply(s, a), rest)
    ensures IsRun(s, [a] + rest) && After(s, [a] + rest) == After(Apply(s, a), rest)
  {
    assert ([a] + rest)[1..] == rest;
  }

  // ---- Only registered calls ----

  // Registered, or about to be registered by the job that wrote it.
  ghost predicate IsKnown(s: State, sid: string) {
    sid in s.seen || exists i :: 0 <= i < |s.jobs| && s.jobs[i].Registering? && sid in Sids(s.jobs[i].records)
  }

  ghost predicate AllKnown(s: State) {
    && (forall sid :: sid in Counted(s.row) ==> IsKnown(s, sid))
    && (forall i :: 0 <= i < |s.jobs| ==> JobKnown(s, s.jobs[i]))
  }

  ghost predicate JobKnown(s: State, j: Job) {
    && (j.Loaded? ==> forall sid :: sid in Counted(j.base) ==> IsKnown(s, sid))
    && Sids(BatchOf(j)) <= s.seen
  }

  lemma KnownStaysKnown(s: State, a: Action, sid: string)
    requires Enabled(s, a) && IsKnown(s, sid)
    ensures IsKnown(Apply(s, a), sid)
  {
    hide Sids;
    var after := Apply(s, a);
    if sid !in s.seen {
      var i :| 0 <= i < |s.jobs| && s.jobs[i].Registering? && sid in Sids(s.jobs[i].records);
      assert after.jobs[i] == s.jobs[i] || sid in after.seen;
    }
  }

  lemma StepKeepsKnown(s: State, a: Action)
    requires AllKnown(s) && Enabled(s, a)
    ensures AllKnown(Apply(s, a))
  {
    hide Fresh, Counted, Sids, IsKnown, JobKnown;
    var after := Apply(s, a);
    forall sid | IsKnown(s, sid) ensures IsKnown(after, sid) {
      KnownStaysKnown(s, a, sid);
    }
    RowStaysKnown(s, a);
    forall i | 0 <= i < |after.jobs| ensures JobKnown(after, after.jobs[i]) {
      JobStaysKnown(s, a, i);
    }
  }

  lemma RowStaysKnown(s: State, a: Action)
    requires AllKnown(s) && Enabled(s, a)
    ensures forall sid :: sid in Counted(Apply(s, a).row) ==> IsKnown(Apply(s, a), sid)
  {
    hide Fresh, Counted, Sids, IsKnown;
    NoSids();
    var after := Apply(s, a);
    forall sid | IsKnown(s, sid) ensures IsKnown(after, sid) {
      KnownStaysKnown(s, a, sid);
    }
    if a.Store? {
      var j := s.jobs[a.job];
      assert JobKnown(s, j);
      CountedSnoc(j.base, j.batch);
      SeenIsKnown(after);
    } else if a.Overwrite? {
      CountedSnoc([], s.jobs[a.job].records);
      WrittenIsKnown(after, a.job);
    }
  }

  lemma JobStaysKnown(s: State, a: Action, i: nat)
    requires AllKnown(s) && Enabled(s, a) && i < |Apply(s, a).jobs|
    ensures JobKnown(Apply(s, a), Apply(s, a).jobs[i])
  {
    hide Fresh, Counted, Sids, IsKnown;
    NoSids();
    var after := Apply(s, a);
    forall sid | IsKnown(s, sid) ensures IsKnown(after, sid) {
      KnownStaysKnown(s, a, sid);
    }
    if a.Filter? {
      FreshKeepsEachSidOnce(s.seen, s.jobs[a.job].records);
    }
    assert i < |s.jobs| ==> JobKnown(s, s.jobs[i]);
  }

  lemma SeenIsKnown(s: State)
    ensures forall sid :: sid in s.seen ==> IsKnown(s, sid)
  {
  }

  lemma WrittenIsKnown(s: State, i: nat)
    requires i < |s.jobs| && s.jobs[i].Registering?
    ensures forall sid :: sid in Sids(s.jobs[i].records) ==> IsKnown(s, sid)
  {
  }

  lemma {:induction false} RunKeepsKnown(s: State, acts: seq<Action>)
    requires AllKnown(s) && IsRun(s, acts)
    ensures AllKnown(After(s, acts))
    decreases |acts|
  {
    hide AllKnown;
    if acts != [] {
      StepKeepsKnown(s, acts[0]);
      RunKeepsKnown(Apply(s, acts[0]), acts[1..]);
    }
  }

  // ---- Live jobs alone ----

  ghost predicate LiveOnly(s: State) {
    forall i :: 0 <= i < |s.jobs| ==> !s.jobs[i].Rewriting? && !s.jobs[i].Registering?
  }

  // Without backfills and reprocesses every step is careful.
  lemma LiveStepsAreCareful(s: State, a: Action)
    requires AllKnown(s) && LiveOnly(s) && Enabled(s, a) && !a.Rewrite?
    ensures Careful(s, a) && LiveOnly(Apply(s, a))
  {
    hide Counted, Fresh, Sids;
    if a.Filter? {
      forall k | 0 <= k < |s.jobs| ensures NotReadBy(s.jobs[k], Sids(s.jobs[a.job].records) - s.seen) {
        assert JobKnown(s, s.jobs[k]);
      }
    }
  }

  lemma {:induction false} LiveRunsAreCareful(s: State, acts: seq<Action>)
    requires AllKnown(s) && LiveOnly(s) && IsRun(s, acts)
    requires forall i :: 0 <= i < |acts| ==> !acts[i].Rewrite?
    ensures AllCareful(s, acts) && LiveOnly(After(s, acts))
    decreases |acts|
  {
    hide AllKnown, LiveOnly, Careful;
    if acts != [] {
      LiveStepsAreCareful(s, acts[0]);
      StepKeepsKnown(s, acts[0]);
      LiveRunsAreCareful(Apply(s, acts[0]), acts[1..]);
    }
  }

  // Over every interleaving of any number of live jobs the row counts no call twice and only
  // registered ones.
  lemma LiveJobsCountAtMostOnce(vn: string, acts: seq<Action>)
    requires IsRun(EMPTY_DAY, acts) && forall i :: 0 <= i < |acts| ==> !acts[i].Rewrite?
    ensures var s := After(EMPTY_DAY, acts);
      && NonEmptyBatches(s.row) && Distinct(Flatten(s.row)) && Counted(s.row) <= s.seen
      && (s.row != [] ==> Columns(vn, s.row).value.total == |Counted(s.row)|)
  {
    hide Careful, Folded, Flatten, Counted, Distinct;
    NoSids();
    LiveRunsAreCareful(EMPTY_DAY, acts);
    AtMostOnce(vn, acts);
    RunKeepsKnown(EMPTY_DAY, acts);
  }

  // ---- When calls are lost ----

  // Some job has filtered the call and not yet stored it.
  ghost predicate Held(s: State, sid: string) {
    exists i :: 0 <= i < |s.jobs| && sid in Sids(BatchOf(s.jobs[i]))
  }

  // Registered calls that are neither in the row nor in the hands of a job: no later live job
  // will count them.
  ghost predicate IsLost(s: State, sid: string) {
    sid in s.seen && sid !in Counted(s.row) && !Held(s, sid)
  }

  // What another job holds does not change when one job steps.
  lemma HeldAfter(s: State, a: Action, sid: string)
    requires Enabled(s, a)
    ensures a.Arrive? || a.Rewrite? || a.Load? || a.Overwrite? || a.Register? ==> (Held(Apply(s, a), sid) <==> Held(s, sid))
    ensures a.Store? ==> (Held(s, sid) <==> Held(Apply(s, a), sid) || sid in Sids(s.jobs[a.job].batch))
    ensures a.Filter? ==> (Held(Apply(s, a), sid) <==> Held(s, sid) || sid in Sids(s.jobs[a.job].records) - s.seen)
  {
    hide Fresh, Sids;
    NoSids();
    var after := Apply(s, a);
    if a.Filter? {
      FreshKeepsEachSidOnce(s.seen, s.jobs[a.job].records);
    }
    assert |after.jobs| >= |s.jobs|;
    if Held(s, sid) {
      var i :| 0 <= i < |s.jobs| && sid in Sids(BatchOf(s.jobs[i]));
      assert after.jobs[i] == s.jobs[i] || a.Load? || a.Store?;
      assert (a.Store? && a.job == i) || sid in Sids(BatchOf(after.jobs[i]));
    }
    if Held(after, sid) {
      var i :| 0 <= i < |after.jobs| && sid in Sids(BatchOf(after.jobs[i]));
      assert i < |s.jobs|;
    }
    if (a.Filter? || a.Store?) && a.job < |after.jobs| {
      assert sid in Sids(BatchOf(after.jobs[a.job])) ==> Held(after, sid);
      assert sid in Sids(BatchOf(s.jobs[a.job])) ==> Held(s, sid);
    }
  }

  // A store loses exactly the registered calls of the row that its job had not read and no
  // job holds, and brings back the lost ones it had read.
  lemma StoreLosesUnreadCalls(s: State, i: nat, sid: string)
    requires Enabled(s, Store(i)) && s.jobs[i].batch != []
    ensures IsLost(Apply(s, Store(i)), sid)
        <==> (IsLost(s, sid) || (sid in s.seen && sid in Counted(s.row) && !Held(s, sid)))
             && sid !in Counted(s.jobs[i].base)
  {
    hide Counted, Sids, Held;
    CountedSnoc(s.jobs[i].base, s.jobs[i].batch);
    HeldAfter(s, Store(i), sid);
  }

  // An overwrite loses exactly the registered calls of the row that it does not bring and no
  // job holds, and brings back the lost ones it brings.
  lemma OverwriteLosesUncoveredCalls(s: State, i: nat, sid: string)
    requires Enabled(s, Overwrite(i))
    ensures IsLost(Apply(s, Overwrite(i)), sid)
        <==> (IsLost(s, sid) || (sid in s.seen && sid in Counted(s.row) && !Held(s, sid)))
             && sid !in Sids(s.jobs[i].records)
  {
    hide Counted, Sids, Held;
    NoSids();
    CountedSnoc([], s.jobs[i].records);
    HeldAfter(s, Overwrite(i), sid);
  }

  // Registering loses exactly the calls that a store has meanwhile dropped from the row.
  lemma RegisteringLosesDroppedCalls(s: State, i: nat, sid: string)
    requires Enabled(s, Register(i))
    ensures IsLost(Apply(s, Register(i)), sid)
        <==> IsLost(s, sid) || (sid in Sids(s.jobs[i].records) && sid !in Counted(s.row) && !Held(s, sid))
  {
    hide Counted, Sids, Held;
    HeldAfter(s, Register(i), sid);
  }

  // No other step loses anything.
  lemma OtherStepsLoseNothing(s: State, a: Action, sid: string)
    requires Enabled(s, a) && !a.Overwrite? && !a.Register? && (a.Store? ==> s.jobs[a.job].batch == [])
    ensures IsLost(Apply(s, a), sid) <==> IsLost(s, sid)
  {
    hide Counted, Fresh, Sids, Held;
    NoSids();
    HeldAfter(s, a, sid);
  }

  // A step is fenced when the row has not changed since the storing job read it (a batch
  // without calls is not stored), when an overwrite brings every registered call that no job holds, and when what is registered is
  // still in the row or held.
  ghost predicate Fenced(s: State, a: Action)
    requires Enabled(s, a)
  {
    match a
    case Store(i) => s.jobs[i].batch != [] ==> s.jobs[i].base == s.row
    case Overwrite(i) => forall sid :: sid in s.seen && !Held(s, sid) ==> sid in Sids(s.jobs[i].records)
    case Register(i) => forall sid :: sid in Sids(s.jobs[i].records) ==> sid in Counted(s.row) || Held(s, sid)
    case _ => true
  }

  ghost predicate AllFenced(s: State, acts: seq<Action>)
    requires IsRun(s, acts)
    decreases |acts|
  {
    acts == [] || (Fenced(s, acts[0]) && AllFenced(Apply(s, acts[0]), acts[1..]))
  }

  // If every step is fenced nothing is ever lost: once all jobs are through, the
  // row counts exactly the registered calls.
  lemma {:induction false} FencedStepsLoseNothing(s: State, acts: seq<Action>)
    requires AllKnown(s) && IsRun(s, acts) && AllFenced(s, acts)
    requires forall sid :: !IsLost(s, sid)
    ensures forall sid :: !IsLost(After(s, acts), sid)
    ensures (forall i :: 0 <= i < |After(s, acts).jobs| ==> After(s, acts).jobs[i].Stored?)
        ==> Counted(After(s, acts).row) == After(s, acts).seen
    decreases |acts|
  {
    hide AllKnown, IsLost, Fenced;
    if acts == [] {
      AllStored(s);
    } else {
      var next := Apply(s, acts[0]);
      StepKeepsKnown(s, acts[0]);
      forall sid ensures !IsLost(next, sid) {
        FencedStep(s, acts[0], sid);
      }
      FencedStepsLoseNothing(next, acts[1..]);
    }
  }

  lemma FencedStep(s: State, a: Action, sid: string)
    requires Enabled(s, a) && Fenced(s, a)
    requires !IsLost(s, sid)
    ensures !IsLost(Apply(s, a), sid)
  {
    hide Held, Counted, Sids;
    if a.Store? && s.jobs[a.job].batch != [] {
      StoreLosesUnreadCalls(s, a.job, sid);
    } else if a.Overwrite? {
      OverwriteLosesUncoveredCalls(s, a.job, sid);
    } else if a.Register? {
      RegisteringLosesDroppedCalls(s, a.job, sid);
    } else {
      OtherStepsLoseNothing(s, a, sid);
    }
  }

  lemma AllStored(s: State)
    requires AllKnown(s) && forall sid :: !IsLost(s, sid)
    ensures (forall i :: 0 <= i < |s.jobs| ==> s.jobs[i].Stored?) ==> Counted(s.row) == s.seen
  {
    hide Flatten, Counted;
    NoSids();
    if forall i :: 0 <= i < |s.jobs| ==> s.jobs[i].Stored? {
      forall sid | sid in s.seen ensures sid in Counted(s.row) {
        assert !IsLost(s, sid);
      }
    }
  }

  // ---- For live jobs: lost if and only if not fenced ----

  predicate IsLive(a: Action) {
    a.Arrive? || a.Filter? || a.Load? || a.Store?
  }

  // So far every store was fenced: every row that a job has read is the beginning of the row,
  // which holds every registered call that no job holds.
  ghost predicate UpToDate(s: State) {
    && Inv(s) && AllKnown(s) && LiveOnly(s)
    && (forall sid :: !IsLost(s, sid))
    && (forall i :: 0 <= i < |s.jobs| ==> InStep(s, s.jobs[i]))
  }

  ghost predicate InStep(s: State, j: Job) {
    Sids(BatchOf(j)) !! Counted(s.row) && (j.Loaded? ==> j.base <= s.row)
  }

  // The row lacks a registered call that no job holds, and so does every row that a job has
  // read and will store onto; not necessarily the same call.
  ghost predicate Behind(s: State) {
    Lacks(s, s.row) && forall i :: 0 <= i < |s.jobs| ==> BaseLacks(s, s.jobs[i])
  }

  ghost predicate Lacks(s: State, row: seq<seq<CallRecord>>) {
    exists sid :: Misses(s, row, sid)
  }

  ghost predicate Misses(s: State, row: seq<seq<CallRecord>>, sid: string) {
    sid in s.seen && !Held(s, sid) && sid !in Counted(row)
  }

  ghost predicate BaseLacks(s: State, j: Job) {
    j.Loaded? && j.batch != [] ==> Lacks(s, j.base)
  }

  lemma LacksStays(s: State, a: Action, row: seq<seq<CallRecord>>)
    requires Enabled(s, a) && Lacks(s, row)
    ensures Lacks(Apply(s, a), row)
  {
    hide Counted, Held, Sids, Fresh;
    var sid :| Misses(s, row, sid);
    HeldAfter(s, a, sid);
    assert Misses(Apply(s, a), row, sid);
  }

  lemma BehindStays(s: State, a: Action)
    requires Behind(s) && Enabled(s, a) && IsLive(a)
    ensures Behind(Apply(s, a))
  {
    hide Counted, Sids, Fresh, Lacks;
    var after := Apply(s, a);
    LacksStays(s, a, s.row);
    forall i | 0 <= i < |after.jobs| ensures BaseLacks(after, after.jobs[i]) {
      if i < |s.jobs| && BaseLacks(s, s.jobs[i]) && s.jobs[i].Loaded? && s.jobs[i].batch != [] {
        LacksStays(s, a, s.jobs[i].base);
      }
    }
    if a.Store? && s.jobs[a.job].batch != [] {
      assert BaseLacks(s, s.jobs[a.job]);
      StoredRowLacks(s, a.job);
    }
  }

  // What the base lacks and no job holds is not in the batch stored onto it either.
  lemma StoredRowLacks(s: State, i: nat)
    requires Enabled(s, Store(i)) && s.jobs[i].batch != [] && Lacks(s, s.jobs[i].base)
    ensures Lacks(Apply(s, Store(i)), Apply(s, Store(i)).row)
  {
    hide Counted, Sids, Flatten;
    var j := s.jobs[i];
    var sid :| Misses(s, j.base, sid);
    assert sid !in Sids(BatchOf(j));
    HeldAfter(s, Store(i), sid);
    CountedSnoc(j.base, j.batch);
    assert Misses(Apply(s, Store(i)), Apply(s, Store(i)).row, sid);
  }

  lemma {:induction false} CountedConcat(a: seq<seq<CallRecord>>, b: seq<seq<CallRecord>>)
    ensures Counted(a + b) == Counted(a) + Counted(b)
    ensures Distinct(Flatten(a + b)) ==> Counted(a) !! Counted(b)
  {
    hide Distinct, Sids, Flatten;
    NoSids();
    if b == [] {
      assert a + b == a;
    } else {
      var front, last := b[..|b| - 1], b[|b| - 1];
      CountedConcat(a, front);
      assert b == front + [last] && a + b == (a + front) + [last];
      CountedSnoc(a + front, last);
      CountedSnoc(front, last);
    }
  }

  // A beginning of the row that is not all of it lacks a call of the row.
  lemma BeginningLacks(base: seq<seq<CallRecord>>, row: seq<seq<CallRecord>>) returns (sid: string)
    requires RowOk(row) && base <= row && base != row
    ensures sid in Counted(row) && sid !in Counted(base)
  {
    hide Distinct, Flatten, Sids;
    var rest := row[|base|..];
    assert row == base + rest;
    CountedConcat(base, rest);
    assert rest[0] == row[|base|] && rest[0] != [];
    assert rest == [] + [rest[0]] + rest[1..];
    CountedSnoc([], rest[0]);
    CountedConcat([] + [rest[0]], rest[1..]);
    sid := rest[0][0].sid;
    FirstSid(rest[0]);
  }

  lemma FirstSid(rs: seq<CallRecord>)
    requires rs != []
    ensures rs[0].sid in Sids(rs)
  {
  }

  lemma BeginningIsPart(base: seq<seq<CallRecord>>, row: seq<seq<CallRecord>>)
    requires base <= row
    ensures Counted(base) <= Counted(row)
  {
    hide Counted;
    assert row == base + row[|base|..];
    CountedConcat(base, row[|base|..]);
  }

  // The first store that is not fenced leaves every version behind: the new row lacks a call
  // that its base did not have, and every other base lacks the calls just stored.
  lemma UnfencedStoreFallsBehind(s: State, i: nat)
    requires UpToDate(s) && Enabled(s, Store(i)) && !Fenced(s, Store(i))
    ensures Behind(Apply(s, Store(i)))
  {
    hide Counted, Sids, Held, RowOk, IsLost, IsKnown, Inv;
    var j, after := s.jobs[i], Apply(s, Store(i));
    assert InStep(s, j);
    InvRow(s);
    var x := BeginningLacks(j.base, s.row);
    RowIsRegistered(s, x);
    HeldAfter(s, Store(i), x);
    CountedSnoc(j.base, j.batch);
    assert Misses(after, after.row, x);
    var y := j.batch[0].sid;
    FirstSid(j.batch);
    JustStored(s, i, y);
    forall k | 0 <= k < |after.jobs| ensures BaseLacks(after, after.jobs[k]) {
      if after.jobs[k].Loaded? {
        assert InStep(s, s.jobs[k]);
        BeginningIsPart(s.jobs[k].base, s.row);
        assert Misses(after, after.jobs[k].base, y);
      }
    }
  }

  lemma InvRow(s: State)
    requires Inv(s)
    ensures RowOk(s.row)
  {
  }

  lemma RowIsRegistered(s: State, sid: string)
    requires UpToDate(s) && sid in Counted(s.row)
    ensures sid in s.seen && !Held(s, sid)
  {
    hide Inv, Counted, Sids;
    assert IsKnown(s, sid);
    forall k | 0 <= k < |s.jobs| ensures sid !in Sids(BatchOf(s.jobs[k])) {
      assert InStep(s, s.jobs[k]);
    }
  }

  lemma JustStored(s: State, i: nat, sid: string)
    requires Inv(s) && Enabled(s, Store(i)) && sid in Sids(s.jobs[i].batch)
    ensures sid in Apply(s, Store(i)).seen && !Held(Apply(s, Store(i)), sid)
  {
    hide Counted, Sids, RowOk, Distinct;
    NoSids();
    var after := Apply(s, Store(i));
    assert BatchOk(s, s.jobs[i]);
    forall k | 0 <= k < |after.jobs| ensures sid !in Sids(BatchOf(after.jobs[k])) {
      if k != i {
        assert after.jobs[k] == s.jobs[k];
        assert if k < i then Apart(s.jobs[k], s.jobs[i]) else Apart(s.jobs[i], s.jobs[k]);
      }
    }
  }

  lemma FencedStaysUpToDate(s: State, a: Action)
    requires UpToDate(s) && Enabled(s, a) && IsLive(a) && Fenced(s, a)
    ensures UpToDate(Apply(s, a))
  {
    hide Inv, AllKnown, LiveOnly, IsLost, InStep, Careful;
    var after := Apply(s, a);
    LiveStepsAreCareful(s, a);
    StepKeepsInv(s, a);
    StepKeepsKnown(s, a);
    forall sid ensures !IsLost(after, sid) {
      FencedStep(s, a, sid);
    }
    forall i | 0 <= i < |after.jobs| ensures InStep(after, after.jobs[i]) {
      StaysInStep(s, a, i);
    }
  }

  lemma StaysInStep(s: State, a: Action, i: nat)
    requires UpToDate(s) && Enabled(s, a) && IsLive(a) && Fenced(s, a) && i < |Apply(s, a).jobs|
    ensures InStep(Apply(s, a), Apply(s, a).jobs[i])
  {
    hide Counted, Sids, RowOk, Distinct, Fresh, Held, AllKnown, IsLost, LiveOnly, UpToDate;
    NoSids();
    UpToDateJob(s, i);
    if a.Filter? && a.job == i {
      FreshKeepsEachSidOnce(s.seen, s.jobs[i].records);
      forall sid | sid in Counted(s.row) ensures sid in s.seen {
        RowIsRegistered(s, sid);
      }
    } else if a.Store? && s.jobs[a.job].batch != [] {
      CountedSnoc(s.row, s.jobs[a.job].batch);
      if i != a.job {
        UpToDateApart(s, i, a.job);
      }
    }
  }

  lemma UpToDateJob(s: State, i: nat)
    requires UpToDate(s)
    ensures i < |s.jobs| ==> InStep(s, s.jobs[i])
  {
  }

  lemma UpToDateApart(s: State, i: nat, k: nat)
    requires UpToDate(s) && i < |s.jobs| && k < |s.jobs| && i != k
    ensures Apart(s.jobs[i], s.jobs[k])
  {
    assert if i < k then Apart(s.jobs[i], s.jobs[k]) else Apart(s.jobs[k], s.jobs[i]);
  }

  lemma {:induction false} BehindRun(s: State, acts: seq<Action>)
    requires Behind(s) && LiveOnly(s) && IsRun(s, acts) && forall i :: 0 <= i < |acts| ==> !acts[i].Rewrite?
    ensures Behind(After(s, acts))
    decreases |acts|
  {
    hide Behind;
    if acts != [] {
      StillLive(s, acts[0]);
      BehindStays(s, acts[0]);
      BehindRun(Apply(s, acts[0]), acts[1..]);
    }
  }

  lemma StillLive(s: State, a: Action)
    requires LiveOnly(s) && Enabled(s, a) && !a.Rewrite?
    ensures IsLive(a) && LiveOnly(Apply(s, a))
  {
  }

  lemma {:induction false} LiveRunFate(s: State, acts: seq<Action>)
    requires UpToDate(s) && IsRun(s, acts) && forall i :: 0 <= i < |acts| ==> !acts[i].Rewrite?
    ensures if AllFenced(s, acts) then UpToDate(After(s, acts)) else Behind(After(s, acts))
    decreases |acts|
  {
    hide UpToDate, Behind, Fenced, LiveOnly;
    if acts != [] {
      assert LiveOnly(s) by { UpToDateIsLive(s); }
      StillLive(s, acts[0]);
      if Fenced(s, acts[0]) {
        FencedStaysUpToDate(s, acts[0]);
        LiveRunFate(Apply(s, acts[0]), acts[1..]);
      } else {
        OnlyStoresAreUnfenced(s, acts[0]);
        UnfencedStoreFallsBehind(s, acts[0].job);
        BehindRun(Apply(s, acts[0]), acts[1..]);
      }
    }
  }

  lemma UpToDateIsLive(s: State)
    requires UpToDate(s)
    ensures LiveOnly(s)
  {
  }

  lemma OnlyStoresAreUnfenced(s: State, a: Action)
    requires Enabled(s, a) && IsLive(a) && !Fenced(s, a)
    ensures a.Store?
  {
  }

  // The exact law of the loss: over every interleaving of live jobs, once all of them are
  // through, the row counts exactly the registered calls if and only if every job that had
  // calls to store found the row as it had read it.
  lemma LiveJobsLoseNothingIffFenced(acts: seq<Action>)
    requires IsRun(EMPTY_DAY, acts) && forall i :: 0 <= i < |acts| ==> !acts[i].Rewrite?
    requires forall i :: 0 <= i < |After(EMPTY_DAY, acts).jobs| ==> After(EMPTY_DAY, acts).jobs[i].Stored?
    ensures Counted(After(EMPTY_DAY, acts).row) == After(EMPTY_DAY, acts).seen <==> AllFenced(EMPTY_DAY, acts)
  {
    hide AllFenced, Counted, Sids, Inv, Held;
    NoSids();
    StartsRight();
    LiveRunFate(EMPTY_DAY, acts);
    var s := After(EMPTY_DAY, acts);
    if AllFenced(EMPTY_DAY, acts) {
      AllStored(s);
    }
  }

  // The smallest loss: two jobs read the row before either stores its call. The first call is
  // registered, is in no job's hands, and has vanished from the row.
  lemma OverlapLosesACall(r1: CallRecord, r2: CallRecord)
    requires r1.sid != r2.sid
    ensures var both := State({r1.sid, r2.sid}, [], [Loaded([r1], []), Loaded([r2], [])]);
      && IsRun(EMPTY_DAY, ReadBoth(r1, r2)) && After(EMPTY_DAY, ReadBoth(r1, r2)) == both
      && IsRun(both, [Store(0), Store(1)])
      && After(both, [Store(0), Store(1)]).row == [[r2]]
      && IsLost(After(both, [Store(0), Store(1)]), r1.sid)
  {
    hide IsLost;
    BothHaveRead(r1, r2);
    var both := State({r1.sid, r2.sid}, [], [Loaded([r1], []), Loaded([r2], [])]);
    var one := Apply(both, Store(0));
    var two := Apply(one, Store(1));
    assert [Store(0), Store(1)][1..] == [Store(1)] && [Store(1)][1..] == [];
    assert IsRun(one, [Store(1)]) && After(one, [Store(1)]) == two;
    NoSids();
    NothingFlattened();
    CountedSnoc([], [r1]);
    assert [] + [[r1]] == [[r1]] && Sids([r1]) == {r1.sid};
    StoreLosesUnreadCalls(one, 1, r1.sid);
  }

  function ReadBoth(r1: CallRecord, r2: CallRecord): seq<Action> {
    [Arrive([r1]), Arrive([r2]), Filter(0), Filter(1), Load(0), Load(1)]
  }

  lemma FreshOne(seen: set<string>, r: CallRecord)
    requires r.sid !in seen
    ensures Fresh(seen, [r]) == [r] && Sids([r]) == {r.sid}
  {
    assert [r] == [] + [r];
    FreshSnoc(seen, [], r);
    NothingFresh(seen);
  }

  lemma BothHaveRead(r1: CallRecord, r2: CallRecord)
    requires r1.sid != r2.sid
    ensures IsRun(EMPTY_DAY, ReadBoth(r1, r2))
    ensures After(EMPTY_DAY, ReadBoth(r1, r2))
         == State({r1.sid, r2.sid}, [], [Loaded([r1], []), Loaded([r2], [])])
  {
    hide Fresh, Sids;
    var acts := ReadBoth(r1, r2);
    var s1 := Apply(EMPTY_DAY, acts[0]);
    var s2 := Apply(s1, acts[1]);
    assert s2 == State({}, [], [Fetched([r1]), Fetched([r2])]);
    BothFilterAndLoad(r1, r2);
    RunCons(s1, Arrive([r2]), [Filter(0), Filter(1), Load(0), Load(1)]);
    RunCons(EMPTY_DAY, Arrive([r1]), [Arrive([r2]), Filter(0), Filter(1), Load(0), Load(1)]);
  }

  lemma BothFilterAndLoad(r1: CallRecord, r2: CallRecord)
    requires r1.sid != r2.sid
    ensures var s := State({}, [], [Fetched([r1]), Fetched([r2])]);
      var acts := [Filter(0), Filter(1), Load(0), Load(1)];
      && IsRun(s, acts)
      && After(s, acts) == State({r1.sid, r2.sid}, [], [Loaded([r1], []), Loaded([r2], [])])
  {
    hide Fresh, Sids;
    FreshOne({}, r1);
    FreshOne({r1.sid}, r2);
    var s2 := State({}, [], [Fetched([r1]), Fetched([r2])]);
    var s3 := Apply(s2, Filter(0));
    assert s3 == State({r1.sid}, [], [Filtered([r1]), Fetched([r2])]);
    var s4 := Apply(s3, Filter(1));
    assert s4 == State({r1.sid, r2.sid}, [], [Filtered([r1]), Filtered([r2])]);
    var s5 := Apply(s4, Load(0));
    RunCons(s5, Load(1), []);
    RunCons(s4, Load(0), [Load(1)]);
    RunCons(s3, Filter(1), [Load(0), Load(1)]);
    RunCons(s2, Filter(0), [Filter(1), Load(0), Load(1)]);
  }
}
