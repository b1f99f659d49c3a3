// metrics.ProcessCallRecords: one pass over a batch of records, and what its summary means.
module Engine {
  import opened Text
  import opened Records
  import opened Breakdowns
  import opened Hourly
  import opened Counting

  // A percentage over a positive denominator.
  function Pct(n: int, d: int): real
    requires d > 0
  {
    n as real / d as real * 100.0
  }

  // Customer-side drops against customer-side calls when there are any, else against all.
  function DropRateOf(total: int, c: Counters): real {
    if c.leg2Total > 0 then Pct(c.droppedLeg2, c.leg2Total)
    else if total > 0 then Pct(c.droppedLeg2, total)
    else 0.0
  }

  function AnswerRateOf(total: int, connected: int, c: Counters): real {
    if c.leg2Total > 0 then Pct(connected, c.leg2Total)
    else if total > 0 then Pct(connected, total)
    else 0.0
  }

  function Leg1DropRateOf(c: Counters): real {
    if c.leg1Total > 0 then Pct(c.droppedLeg1, c.leg1Total) else 0.0
  }

  datatype CallSummary = CallSummary(
    total: nat,
    counters: Counters,
    connected: int,
    legStatusBreakdown: Breakdown,
    totalDurationSec: int,
    answerRate: real,
    successRate: real,
    dropRate: real,
    leg1DropRate: real,
    leg2DropRate: real,
    avgDurationSec: real,
    hourlyDistribution: Hist,
    peakHour: Hour)

  // Unique bridged calls: in panel mode the agent's half of each bridge is not counted.
  ghost function ConnectedCalls(vn: string, rs: seq<CallRecord>): int {
    if Count(vn, OnLeg(Leg2), rs) > 0 then Count(vn, ConnectedOn(Leg2), rs)
    else Count(vn, EndsAs(Connected), rs)
  }

  // The summary of a batch, in terms of how many of its records are what.
  ghost function SummaryOf(vn: string, rs: seq<CallRecord>): CallSummary {
    var c := CountersOf(vn, rs);
    var rate := AnswerRateOf(|rs|, ConnectedCalls(vn, rs), c);
    CallSummary(
      |rs|, c, ConnectedCalls(vn, rs), BreakdownOf(rs), Durations(rs),
      rate, rate, DropRateOf(|rs|, c), Leg1DropRateOf(c),
      if rs == [] then 0.0 else Pct(c.droppedLeg2, |rs|),
      if rs == [] then 0.0 else Durations(rs) as real / |rs| as real,
      HistOf(vn, rs), PeakOf(HistOf(vn, rs)))
  }

  // The transaction and exophone a call_logs row is written under.
  datatype Origin = Origin(transactionId: string, exophone: Exophone)

  function LogOf(origin: Origin, r: CallRecord): CallLog {
    CallLog(
      origin.transactionId, origin.exophone.accountId, origin.exophone.id,
      r.sid, r.parentCallSid, ClassifyLeg(r, origin.exophone.number), r.from, r.to, r.status, r.direction,
      r.duration, r.details.conversationDuration, FiledAt(r),
      if r.endTime != Blank then Some(ParseExotelTime(r.endTime)) else None,
      r.recordingUrl, r.details.leg1Status, r.details.leg2Status)
  }

  function LogsOf(origin: Origin, rs: seq<CallRecord>): seq<CallLog> {
    seq(|rs|, i requires 0 <= i < |rs| => LogOf(origin, rs[i]))
  }

  // The status switch of the loop body.
  method CountStatus(c: Counters, connected: int, leg1Connected: int, r: CallRecord, legNum: Leg, ghost vn: string)
    returns (c': Counters, connected': int, leg1Connected': int)
    requires legNum == ClassifyLeg(r, vn)
    ensures
      var o := OutcomeOf(vn, r);
      && connected' == connected + (if o == Connected then 1 else 0)
      && leg1Connected' == leg1Connected + (if o == Connected && legNum == Leg1 then 1 else 0)
      && c' == c.(
        droppedLeg1 := c.droppedLeg1 + if o == DroppedLeg1 then 1 else 0,
        droppedLeg2 := c.droppedLeg2 + if o == DroppedLeg2 then 1 else 0,
        failed := c.failed + if o == Failed then 1 else 0,
        noAnswer := c.noAnswer + if o == NoAnswer then 1 else 0,
        busy := c.busy + if o == Busy then 1 else 0,
        canceled := c.canceled + if o == Canceled then 1 else 0,
        other := c.other + if o == Other then 1 else 0)
  {
    c', connected', leg1Connected' := c, connected, leg1Connected;
    var status := ToLower(r.status);
    if status == "completed" {
      if r.details.conversationDuration > 0 {
        connected' := connected' + 1;
        if legNum == Leg1 {
          leg1Connected' := leg1Connected' + 1;
        }
      } else if legNum == Leg2 {
        c' := c'.(droppedLeg2 := c'.droppedLeg2 + 1);
      } else if ToLower(r.details.leg2Status) == "" {
        c' := c'.(droppedLeg1 := c'.droppedLeg1 + 1);
      } else {
        c' := c'.(droppedLeg2 := c'.droppedLeg2 + 1);
      }
    } else if status == "failed" {
      c' := c'.(failed := c'.failed + 1);
    } else if status == "no-answer" || status == "noanswer" {
      c' := c'.(noAnswer := c'.noAnswer + 1);
    } else if status == "busy" {
      c' := c'.(busy := c'.busy + 1);
    } else if status == "canceled" || status == "cancelled" {
      c' := c'.(canceled := c'.canceled + 1);
    } else {
      c' := c'.(other := c'.other + 1);
    }
  }

  // The two leg-status switches of the loop body.
  method CountLegStatuses(c: Counters, r: CallRecord) returns (c': Counters)
    ensures c' == c.(
      leg1NoAnswer := c.leg1NoAnswer + if Leg1Word(r) in NO_ANSWER then 1 else 0,
      leg1Busy := c.leg1Busy + if Leg1Word(r) in BUSY then 1 else 0,
      leg1Failed := c.leg1Failed + if Leg1Word(r) in FAILED then 1 else 0,
      leg2NoAnswer := c.leg2NoAnswer + if Leg2Word(r) in NO_ANSWER then 1 else 0,
      leg2Busy := c.leg2Busy + if Leg2Word(r) in BUSY then 1 else 0,
      leg2Failed := c.leg2Failed + if Leg2Word(r) in FAILED then 1 else 0,
      leg2Canceled := c.leg2Canceled + if Leg2Word(r) in CANCELED then 1 else 0)
  {
    c' := c;
    var leg1 := ToLower(r.details.leg1Status);
    if leg1 == "no-answer" || leg1 == "noanswer" {
      c' := c'.(leg1NoAnswer := c'.leg1NoAnswer + 1);
    } else if leg1 == "busy" {
      c' := c'.(leg1Busy := c'.leg1Busy + 1);
    } else if leg1 == "failed" {
      c' := c'.(leg1Failed := c'.leg1Failed + 1);
    }
    var leg2 := ToLower(r.details.leg2Status);
    if leg2 == "no-answer" || leg2 == "noanswer" {
      c' := c'.(leg2NoAnswer := c'.leg2NoAnswer + 1);
    } else if leg2 == "busy" {
      c' := c'.(leg2Busy := c'.leg2Busy + 1);
    } else if leg2 == "failed" {
      c' := c'.(leg2Failed := c'.leg2Failed + 1);
    } else if leg2 == "canceled" || leg2 == "cancelled" {
      c' := c'.(leg2Canceled := c'.leg2Canceled + 1);
    }
  }

  // All counters of the loop body.
  method CountRecord(c: Counters, connected: int, leg1Connected: int, r: CallRecord, exophoneNumber: string)
    returns (c': Counters, connected': int, leg1Connected': int)
    ensures c' == PlusCounters(c, CountersOfOne(exophoneNumber, r))
    ensures connected' == connected + if Has(exophoneNumber, EndsAs(Connected), r) then 1 else 0
    ensures leg1Connected' == leg1Connected + if Has(exophoneNumber, ConnectedOn(Leg1), r) then 1 else 0
  {
    hide OutcomeOf, ClassifyLeg, Leg1Word, Leg2Word;
    var legNum := ClassifyLeg(r, exophoneNumber);
    if legNum == Leg1 {
      c' := c.(leg1Total := c.leg1Total + 1);
    } else {
      c' := c.(leg2Total := c.leg2Total + 1);
    }
    c', connected', leg1Connected' := CountStatus(c', connected, leg1Connected, r, legNum, exophoneNumber);
    c' := CountLegStatuses(c', r);
  }

  lemma LogsOfConcat(origin: Origin, a: seq<CallRecord>, b: seq<CallRecord>)
    ensures LogsOf(origin, a + b) == LogsOf(origin, a) + LogsOf(origin, b)
  {
  }

  lemma OneLogged(origin: Origin, r: CallRecord)
    ensures LogsOf(origin, [r]) == [LogOf(origin, r)]
  {
  }

  // The accumulating loop.
  method TallyRecords(origin: Origin, records: seq<CallRecord>)
    returns (callLogs: seq<CallLog>, c: Counters, connected: int, leg1Connected: int,
             breakdown: Breakdown, hist: Hist, duration: int)
    ensures callLogs == LogsOf(origin, records)
    ensures c == CountersOf(origin.exophone.number, records)
    ensures connected == Count(origin.exophone.number, EndsAs(Connected), records)
    ensures leg1Connected == Count(origin.exophone.number, ConnectedOn(Leg1), records)
    ensures breakdown == BreakdownOf(records)
    ensures hist == HistOf(origin.exophone.number, records)
    ensures duration == Durations(records)
  {
    hide Count, Has, Leg1Word, Leg2Word, CountersOf, CountersOfOne, PlusCounters, HistOf, Bump, LogsOf, LogOf;
    ghost var vn := origin.exophone.number;
    callLogs := [];
    c, connected, leg1Connected := NO_CALLS, 0, 0;
    breakdown, hist, duration := map[], EMPTY_HIST, 0;
    NothingCounted(origin);

    for i := 0 to |records|
      invariant callLogs == LogsOf(origin, records[..i])
      invariant c == CountersOf(vn, records[..i])
      invariant connected == Count(vn, EndsAs(Connected), records[..i])
      invariant leg1Connected == Count(vn, ConnectedOn(Leg1), records[..i])
      invariant breakdown == BreakdownOf(records[..i])
      invariant hist == HistOf(vn, records[..i])
      invariant duration == Durations(records[..i])
    {
      var r := records[i];
      ghost var front := records[..i];
      assert records[..i + 1] == front + [r];
      assert records[..i + 1][..i] == front;
      CountersSnoc(vn, front, r);
      CountSnoc(vn, EndsAs(Connected), front, r);
      CountSnoc(vn, ConnectedOn(Leg1), front, r);
      HistSnoc(vn, front, r);
      LogsOfConcat(origin, front, [r]);
      OneLogged(origin, r);
      if r.startTime != Blank {
        var t := ParseExotelTime(r.startTime);
        hist := hist[t.wall.hour := hist[t.wall.hour] + 1];
      } else if r.dateCreated != Blank {
        var t := ParseExotelTime(r.dateCreated);
        hist := hist[t.wall.hour := hist[t.wall.hour] + 1];
      }
      callLogs := callLogs + [LogOf(origin, r)];
      duration := duration + r.duration;
      c, connected, leg1Connected := CountRecord(c, connected, leg1Connected, r, origin.exophone.number);
      breakdown := Bump(breakdown, Leg1Word(r), Leg2Word(r));
    }
    assert records[..|records|] == records;
  }

  lemma NothingCounted(origin: Origin)
    ensures var vn := origin.exophone.number;
      && LogsOf(origin, []) == []
      && CountersOf(vn, []) == NO_CALLS
      && Count(vn, EndsAs(Connected), []) == 0 == Count(vn, ConnectedOn(Leg1), [])
      && HistOf(vn, []) == EMPTY_HIST
  {
    HistOfNothing(origin.exophone.number);
  }

  method ProcessCallRecords(origin: Origin, records: seq<CallRecord>)
    returns (callLogs: seq<CallLog>, summary: CallSummary)
    ensures callLogs == LogsOf(origin, records)
    ensures summary == SummaryOf(origin.exophone.number, records)
  {
    hide Count, HistOf, BreakdownOf, Durations, PeakOf, IsPeak, LogsOf;
    ghost var vn := origin.exophone.number;
    var c, connected, leg1Connected, breakdown, hist, duration;
    callLogs, c, connected, leg1Connected, breakdown, hist, duration := TallyRecords(origin, records);
    EveryCallIsCountedOnce(vn, records);
    var total := |records|;
    if total == 0 {
      NothingCounted(origin);
      PeakOfNothing();
      summary := CallSummary(0, c, connected, breakdown, duration, 0.0, 0.0, 0.0, 0.0, 0.0, 0.0, hist, 0);
      return;
    }
    if c.leg2Total > 0 {
      connected := connected - leg1Connected;
    }
    var avg := duration as real / total as real;
    var rateDenom := total;
    var dropRate;
    if c.leg2Total > 0 {
      rateDenom := c.leg2Total;
      dropRate := Pct(c.droppedLeg2, c.leg2Total);
    } else {
      dropRate := Pct(c.droppedLeg2, total);
    }
    var answerRate := if rateDenom > 0 then Pct(connected, rateDenom) else 0.0;
    var leg1DropRate := 0.0;
    if c.leg1Total > 0 {
      leg1DropRate := Pct(c.droppedLeg1, c.leg1Total);
    } else if total > 0 {
      NoLeg1NoLeg1Drops(vn, records);
      leg1DropRate := Pct(c.droppedLeg1, total);
    }
    var leg2DropRate := Pct(c.droppedLeg2, total);
    var peak := FindPeak(hist);
    summary := CallSummary(total, c, connected, breakdown, duration, answerRate, answerRate, dropRate,
                           leg1DropRate, leg2DropRate, avg, hist, peak);
  }

  // A drop charged to leg 1 is a leg-1 record.
  lemma NoLeg1NoLeg1Drops(vn: string, rs: seq<CallRecord>)
    ensures Count(vn, EndsAs(DroppedLeg1), rs) <= Count(vn, OnLeg(Leg1), rs)
  {
    CountAtMost(vn, EndsAs(DroppedLeg1), OnLeg(Leg1), rs);
  }
}
