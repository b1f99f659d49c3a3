// What one record is, and how many records of a list are that: the reference meaning of
// every counter the metrics engine keeps.
module Counting {
  import opened Text
  import opened Records
  import opened Breakdowns
  import opened Hourly

  // Leg 1 is the agent/IVR side, leg 2 the customer side of a panel call.
  function ClassifyLeg(r: CallRecord, exophoneNumber: string): Leg {
    if r.parentCallSid != "" then Leg2
    else
      var dir := ToLower(r.direction);
      if dir == "inbound" then Leg1
      else if "outbound" <= dir then Leg1
      else if Normalise(r.to) == Normalise(exophoneNumber) then Leg1
      else Leg2
  }

  // The direction counts in any capitalisation. When there is none, the dialled number
  // decides; any two spellings of a number count as the same unless it starts with 91.
  lemma LegRules(r: CallRecord, vn: string, n: string, s: string)
    requires n != "" && IsDigits(n) && n[0] != '0' && s in Spellings(n)
    ensures ClassifyLeg(r.(direction := ToLower(r.direction)), vn) == ClassifyLeg(r, vn)
    ensures r.parentCallSid == "" && r.direction == "" && !("91" <= n)
        ==> ClassifyLeg(r.(to := s), n) == Leg1 == ClassifyLeg(r.(to := n), s)
    ensures r.parentCallSid == "" && r.direction == "" && "91" <= n
        ==> ClassifyLeg(r.(to := "0" + n), n) == Leg2
  {
    LowerTwice(r.direction);
    EngineSpellings(n);
    TrimPrefixes(n);
    hide Normalise;
    assert ToLower("") == "";
  }

  lemma LowerTwice(s: string)
    ensures ToLower(ToLower(s)) == ToLower(s)
  {
  }

  // The one top-level bucket a record falls in.
  datatype Outcome = Connected | DroppedLeg1 | DroppedLeg2 | Failed | NoAnswer | Busy | Canceled | Other

  const NO_ANSWER: set<string> := {"no-answer", "noanswer"}
  const CANCELED: set<string> := {"canceled", "cancelled"}
  const BUSY: set<string> := {"busy"}
  const FAILED: set<string> := {"failed"}

  function Leg1Word(r: CallRecord): string {
    ToLower(r.details.leg1Status)
  }

  function Leg2Word(r: CallRecord): string {
    ToLower(r.details.leg2Status)
  }

  // A completed call was bridged or was dropped on one side; a drop on leg 1 is charged to
  // leg 2 when routing to the second leg had been attempted.
  function OutcomeOf(vn: string, r: CallRecord): Outcome {
    var status := ToLower(r.status);
    if status == "completed" then
      if r.details.conversationDuration > 0 then Connected
      else if ClassifyLeg(r, vn) == Leg2 || Leg2Word(r) != "" then DroppedLeg2
      else DroppedLeg1
    else if status in FAILED then Failed
    else if status in NO_ANSWER then NoAnswer
    else if status in BUSY then Busy
    else if status in CANCELED then Canceled
    else Other
  }

  // The instant a record is filed under: its start, or its creation when it has no start.
  function FiledAt(r: CallRecord): Option<Time> {
    if r.startTime != Blank then Some(ParseExotelTime(r.startTime))
    else if r.dateCreated != Blank then Some(ParseExotelTime(r.dateCreated))
    else None
  }

  // Properties of a record that some counter counts.
  datatype Feature =
    | OnLeg(leg: Leg)
    | EndsAs(outcome: Outcome)
    | ConnectedOn(leg: Leg)
    | DroppedFrom(leg: Leg, outcome: Outcome)
    | Leg1Among(words: set<string>)
    | Leg2Among(words: set<string>)
    | Pair(l1: string, l2: string)
    | AtHour(hour: int)
    | Timed

  predicate Has(vn: string, f: Feature, r: CallRecord) {
    match f
    case OnLeg(leg) => ClassifyLeg(r, vn) == leg
    case EndsAs(o) => OutcomeOf(vn, r) == o
    case ConnectedOn(leg) => OutcomeOf(vn, r) == Connected && ClassifyLeg(r, vn) == leg
    case DroppedFrom(leg, o) => OutcomeOf(vn, r) == o && ClassifyLeg(r, vn) == leg
    case Leg1Among(words) => Leg1Word(r) in words
    case Leg2Among(words) => Leg2Word(r) in words
    case Pair(l1, l2) => Leg1Word(r) == l1 && Leg2Word(r) == l2
    case AtHour(h) => FiledAt(r).Some? && FiledAt(r).value.wall.hour == h
    case Timed => FiledAt(r).Some?
  }

  ghost function Count(vn: string, f: Feature, rs: seq<CallRecord>): nat {
    if rs == [] then 0
    else Count(vn, f, rs[..|rs| - 1]) + if Has(vn, f, rs[|rs| - 1]) then 1 else 0
  }

  lemma CountNone(vn: string, f: Feature)
    ensures Count(vn, f, []) == 0
  {
  }

  lemma CountSnoc(vn: string, f: Feature, front: seq<CallRecord>, r: CallRecord)
    ensures Count(vn, f, front + [r]) == Count(vn, f, front) + if Has(vn, f, r) then 1 else 0
  {
    hide Has;
    assert (front + [r])[..|front + [r]| - 1] == front;
  }

  // Counting is additive, so it does not matter how a day is cut into batches.
  lemma {:induction false} CountConcat(vn: string, f: Feature, a: seq<CallRecord>, b: seq<CallRecord>)
    ensures Count(vn, f, a + b) == Count(vn, f, a) + Count(vn, f, b)
  {
    hide Has;
    if b == [] {
      assert a + b == a;
    } else {
      CountConcat(vn, f, a, b[..|b| - 1]);
      assert (a + b)[..|a + b| - 1] == a + b[..|b| - 1];
    }
  }

  lemma {:induction false} CountAtMost(vn: string, f: Feature, g: Feature, rs: seq<CallRecord>)
    requires forall r :: Has(vn, f, r) ==> Has(vn, g, r)
    ensures Count(vn, f, rs) <= Count(vn, g, rs)
  {
    if rs != [] {
      CountAtMost(vn, f, g, rs[..|rs| - 1]);
    }
  }

  // A feature that splits into two others that never hold together.
  lemma {:induction false} CountSplit(vn: string, f: Feature, g: Feature, h: Feature, rs: seq<CallRecord>)
    requires forall r :: Has(vn, f, r) <==> Has(vn, g, r) || Has(vn, h, r)
    requires forall r :: !(Has(vn, g, r) && Has(vn, h, r))
    ensures Count(vn, f, rs) == Count(vn, g, rs) + Count(vn, h, rs)
  {
    if rs != [] {
      CountSplit(vn, f, g, h, rs[..|rs| - 1]);
    }
  }

  lemma {:induction false} CountSame(vn: string, f: Feature, a: seq<CallRecord>, b: seq<CallRecord>)
    requires |a| == |b|
    requires forall i :: 0 <= i < |a| ==> (Has(vn, f, a[i]) <==> Has(vn, f, b[i]))
    ensures Count(vn, f, a) == Count(vn, f, b)
  {
    if a != [] {
      CountSame(vn, f, a[..|a| - 1], b[..|b| - 1]);
    }
  }

  // ---- The additive counters, shared by batch summaries and the daily row ----

  datatype Counters = Counters(
    leg1Total: int,
    leg2Total: int,
    droppedLeg1: int,
    droppedLeg2: int,
    failed: int,
    noAnswer: int,
    busy: int,
    canceled: int,
    other: int,
    leg1NoAnswer: int,
    leg1Busy: int,
    leg1Failed: int,
    leg2NoAnswer: int,
    leg2Busy: int,
    leg2Failed: int,
    leg2Canceled: int)

  const NO_CALLS := Counters(0, 0, 0, 0, 0, 0, 0, 0, 0, 0, 0, 0, 0, 0, 0, 0)

  function PlusCounters(a: Counters, b: Counters): Counters {
    Counters(
      a.leg1Total + b.leg1Total, a.leg2Total + b.leg2Total,
      a.droppedLeg1 + b.droppedLeg1, a.droppedLeg2 + b.droppedLeg2,
      a.failed + b.failed, a.noAnswer + b.noAnswer, a.busy + b.busy, a.canceled + b.canceled, a.other + b.other,
      a.leg1NoAnswer + b.leg1NoAnswer, a.leg1Busy + b.leg1Busy, a.leg1Failed + b.leg1Failed,
      a.leg2NoAnswer + b.leg2NoAnswer, a.leg2Busy + b.leg2Busy, a.leg2Failed + b.leg2Failed,
      a.leg2Canceled + b.leg2Canceled)
  }

  ghost function CountersOf(vn: string, rs: seq<CallRecord>): Counters {
    Counters(
      Count(vn, OnLeg(Leg1), rs), Count(vn, OnLeg(Leg2), rs),
      Count(vn, EndsAs(DroppedLeg1), rs), Count(vn, EndsAs(DroppedLeg2), rs),
      Count(vn, EndsAs(Failed), rs), Count(vn, EndsAs(NoAnswer), rs), Count(vn, EndsAs(Busy), rs),
      Count(vn, EndsAs(Canceled), rs), Count(vn, EndsAs(Other), rs),
      Count(vn, Leg1Among(NO_ANSWER), rs), Count(vn, Leg1Among(BUSY), rs), Count(vn, Leg1Among(FAILED), rs),
      Count(vn, Leg2Among(NO_ANSWER), rs), Count(vn, Leg2Among(BUSY), rs), Count(vn, Leg2Among(FAILED), rs),
      Count(vn, Leg2Among(CANCELED), rs))
  }

  // What one record adds.
  function CountersOfOne(vn: string, r: CallRecord): Counters {
    var o, leg, l1, l2 := OutcomeOf(vn, r), ClassifyLeg(r, vn), Leg1Word(r), Leg2Word(r);
    Counters(
      if leg == Leg1 then 1 else 0, if leg == Leg2 then 1 else 0,
      if o == DroppedLeg1 then 1 else 0, if o == DroppedLeg2 then 1 else 0,
      if o == Failed then 1 else 0, if o == NoAnswer then 1 else 0, if o == Busy then 1 else 0,
      if o == Canceled then 1 else 0, if o == Other then 1 else 0,
      if l1 in NO_ANSWER then 1 else 0, if l1 in BUSY then 1 else 0, if l1 in FAILED then 1 else 0,
      if l2 in NO_ANSWER then 1 else 0, if l2 in BUSY then 1 else 0, if l2 in FAILED then 1 else 0,
      if l2 in CANCELED then 1 else 0)
  }

  lemma CountersSnoc(vn: string, front: seq<CallRecord>, r: CallRecord)
    ensures CountersOf(vn, front + [r]) == PlusCounters(CountersOf(vn, front), CountersOfOne(vn, r))
  {
    hide Count, OutcomeOf, ClassifyLeg, Leg1Word, Leg2Word;
    forall f ensures Count(vn, f, front + [r]) == Count(vn, f, front) + if Has(vn, f, r) then 1 else 0 {
      CountSnoc(vn, f, front, r);
    }
  }

  lemma CountersConcat(vn: string, a: seq<CallRecord>, b: seq<CallRecord>)
    ensures CountersOf(vn, a + b) == PlusCounters(CountersOf(vn, a), CountersOf(vn, b))
  {
    hide Count;
    forall f ensures Count(vn, f, a + b) == Count(vn, f, a) + Count(vn, f, b) {
      CountConcat(vn, f, a, b);
    }
  }

  // ---- Conservation ----

  ghost function Dispositions(vn: string, rs: seq<CallRecord>): int {
    Count(vn, EndsAs(Connected), rs) + Count(vn, EndsAs(DroppedLeg1), rs) + Count(vn, EndsAs(DroppedLeg2), rs)
    + Count(vn, EndsAs(Failed), rs) + Count(vn, EndsAs(NoAnswer), rs) + Count(vn, EndsAs(Busy), rs)
    + Count(vn, EndsAs(Canceled), rs) + Count(vn, EndsAs(Other), rs)
  }

  // Every record is on exactly one leg and ends in exactly one bucket.
  lemma {:induction false} EveryCallIsCountedOnce(vn: string, rs: seq<CallRecord>)
    ensures Count(vn, OnLeg(Leg1), rs) + Count(vn, OnLeg(Leg2), rs) == |rs|
    ensures Dispositions(vn, rs) == |rs|
    ensures Count(vn, ConnectedOn(Leg1), rs) + Count(vn, ConnectedOn(Leg2), rs) == Count(vn, EndsAs(Connected), rs)
  {
    if rs != [] {
      EveryCallIsCountedOnce(vn, rs[..|rs| - 1]);
    }
  }

  // ---- Durations, hours and leg-status pairs ----

  ghost function Durations(rs: seq<CallRecord>): int {
    if rs == [] then 0 else Durations(rs[..|rs| - 1]) + rs[|rs| - 1].duration
  }

  lemma {:induction false} DurationsConcat(a: seq<CallRecord>, b: seq<CallRecord>)
    ensures Durations(a + b) == Durations(a) + Durations(b)
  {
    if b == [] {
      assert a + b == a;
    } else {
      DurationsConcat(a, b[..|b| - 1]);
      assert (a + b)[..|a + b| - 1] == a + b[..|b| - 1];
    }
  }

  ghost function HistOf(vn: string, rs: seq<CallRecord>): Hist {
    seq(24, h requires 0 <= h < 24 => Count(vn, AtHour(h), rs))
  }

  lemma HistConcat(vn: string, a: seq<CallRecord>, b: seq<CallRecord>)
    ensures HistOf(vn, a + b) == AddHist(HistOf(vn, a), HistOf(vn, b))
  {
    forall h: int | 0 <= h < 24 ensures HistOf(vn, a + b)[h] == AddHist(HistOf(vn, a), HistOf(vn, b))[h] {
      CountConcat(vn, AtHour(h), a, b);
    }
  }

  function BumpHour(hist: Hist, at: Option<Time>): Hist {
    if at.None? then hist else hist[at.value.wall.hour := hist[at.value.wall.hour] + 1]
  }

  lemma HistSnoc(vn: string, front: seq<CallRecord>, r: CallRecord)
    ensures HistOf(vn, front + [r]) == BumpHour(HistOf(vn, front), FiledAt(r))
  {
    var l, m := HistOf(vn, front + [r]), BumpHour(HistOf(vn, front), FiledAt(r));
    forall h: int | 0 <= h < 24 ensures l[h] == m[h] {
      CountSnoc(vn, AtHour(h), front, r);
    }
  }

  lemma HistOfNothing(vn: string)
    ensures HistOf(vn, []) == EMPTY_HIST
  {
    forall h: int | 0 <= h < 24 ensures HistOf(vn, [])[h] == EMPTY_HIST[h] {
      CountNone(vn, AtHour(h));
    }
  }

  // The 24 slots add up to the records that carry any timestamp text at all.
  lemma {:induction false} HistCountsTimed(vn: string, rs: seq<CallRecord>)
    ensures SumSeq(HistOf(vn, rs)) == Count(vn, Timed, rs)
  {
    if rs == [] {
      HistOfNothing(vn);
      SumSeqZero(24);
    } else {
      var front, r := rs[..|rs| - 1], rs[|rs| - 1];
      assert rs == front + [r];
      HistCountsTimed(vn, front);
      HistSnoc(vn, front, r);
      if FiledAt(r).Some? {
        var h := FiledAt(r).value.wall.hour;
        SumSeqUpdate(HistOf(vn, front), h, HistOf(vn, front)[h] + 1);
      }
    }
  }

  ghost function BreakdownOf(rs: seq<CallRecord>): Breakdown {
    if rs == [] then map[]
    else Bump(BreakdownOf(rs[..|rs| - 1]), Leg1Word(rs[|rs| - 1]), Leg2Word(rs[|rs| - 1]))
  }

  lemma {:induction false} BreakdownConcat(a: seq<CallRecord>, b: seq<CallRecord>)
    ensures BreakdownOf(a + b) == Plus(BreakdownOf(a), BreakdownOf(b))
  {
    if b == [] {
      assert a + b == a;
      PlusZero(BreakdownOf(a));
    } else {
      var front, r := b[..|b| - 1], b[|b| - 1];
      BreakdownConcat(a, front);
      assert (a + b)[..|a + b| - 1] == a + front;
      PlusBump(BreakdownOf(a), BreakdownOf(front), Leg1Word(r), Leg2Word(r));
    }
  }

  // A cell of the breakdown counts exactly the records with that pair of statuses.
  lemma {:induction false} BreakdownCells(vn: string, rs: seq<CallRecord>, l1: string, l2: string)
    ensures Cell(BreakdownOf(rs), l1, l2) == Count(vn, Pair(l1, l2), rs)
  {
    if rs != [] {
      var front, r := rs[..|rs| - 1], rs[|rs| - 1];
      BreakdownCells(vn, front, l1, l2);
      RowAtBump(BreakdownOf(front), Leg1Word(r), Leg2Word(r), l1);
    }
  }

  // The separate leg counters are the marginals of the map: what a row must satisfy.
  ghost predicate Marginals(total: int, c: Counters, b: Breakdown) {
    && GrandTotal(b) == total
    && c.leg1NoAnswer == RowTotal(b, "no-answer") + RowTotal(b, "noanswer")
    && c.leg1Busy == RowTotal(b, "busy")
    && c.leg1Failed == RowTotal(b, "failed")
    && c.leg2NoAnswer == ColumnTotal(b, "no-answer") + ColumnTotal(b, "noanswer")
    && c.leg2Busy == ColumnTotal(b, "busy")
    && c.leg2Failed == ColumnTotal(b, "failed")
    && c.leg2Canceled == ColumnTotal(b, "canceled") + ColumnTotal(b, "cancelled")
  }

  lemma {:induction false} BatchMarginals(vn: string, rs: seq<CallRecord>)
    ensures Marginals(|rs|, CountersOf(vn, rs), BreakdownOf(rs))
  {
    hide GrandTotal, RowTotal, ColumnTotal, Bump, OutcomeOf, ClassifyLeg, Leg1Word, Leg2Word;
    if rs == [] {
      TotalsOfNothing();
    } else {
      var front, r := rs[..|rs| - 1], rs[|rs| - 1];
      BatchMarginals(vn, front);
      TotalsAfterBump(BreakdownOf(front), Leg1Word(r), Leg2Word(r));
    }
  }

  lemma MarginalsAdd(t1: int, c1: Counters, b1: Breakdown, t2: int, c2: Counters, b2: Breakdown)
    requires Marginals(t1, c1, b1) && Marginals(t2, c2, b2)
    ensures Marginals(t1 + t2, PlusCounters(c1, c2), Plus(b1, b2))
  {
    hide GrandTotal, RowTotal, ColumnTotal, Plus;
    TotalsAfterPlus(b1, b2);
  }
}
