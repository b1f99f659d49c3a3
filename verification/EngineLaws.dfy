// Laws of the batch summary: how it splits over batches, where its rates stay in range,
// and that it survives the trip through the call_logs table.
module EngineLaws {
  import opened Text
  import opened Records
  import opened Breakdowns
  import opened Hourly
  import opened Counting
  import opened Engine

  // ---- Conservation ----

  // Every record of a batch is in exactly one disposition; the agent's halves of bridged
  // panel calls are the only ones the summary leaves out of all of them.
  lemma Conservation(vn: string, rs: seq<CallRecord>)
    ensures var s := SummaryOf(vn, rs);
      && s.counters.leg1Total + s.counters.leg2Total == s.total == |rs|
      && s.connected + s.counters.droppedLeg1 + s.counters.droppedLeg2 + s.counters.failed + s.counters.noAnswer
         + s.counters.busy + s.counters.canceled + s.counters.other
         + (if s.counters.leg2Total > 0 then Count(vn, ConnectedOn(Leg1), rs) else 0) == s.total
  {
    hide Count;
    EveryCallIsCountedOnce(vn, rs);
  }

  // The hourly slots add up to the records with a timestamp text, parseable or not, and
  // the peak is the least hour among the busiest.
  lemma HourlyIndex(vn: string, rs: seq<CallRecord>)
    ensures var s := SummaryOf(vn, rs);
      && SumSeq(s.hourlyDistribution) == Count(vn, Timed, rs)
      && (forall h: Hour :: s.hourlyDistribution[h] == Count(vn, AtHour(h), rs))
      && IsPeak(s.hourlyDistribution, s.peakHour)
    ensures forall r :: Unreadable(r) ==> Has(vn, Timed, r) && Has(vn, AtHour(0), r)
  {
    HistCountsTimed(vn, rs);
  }

  // A record filed under a text that no layout accepts.
  predicate Unreadable(r: CallRecord) {
    r.startTime == Garbage || (r.startTime == Blank && r.dateCreated == Garbage)
  }

  // ---- Batches ----

  ghost function Flatten(bs: seq<seq<CallRecord>>): seq<CallRecord> {
    if bs == [] then [] else Flatten(bs[..|bs| - 1]) + bs[|bs| - 1]
  }

  lemma NothingFlattened()
    ensures Flatten([]) == []
  {
  }

  lemma FlattenSnoc(bs: seq<seq<CallRecord>>, b: seq<CallRecord>)
    ensures Flatten(bs + [b]) == Flatten(bs) + b
  {
    assert (bs + [b])[..|bs|] == bs;
  }

  // What accumulating batch summaries adds up for connected calls.
  ghost function AccumulatedConnected(vn: string, bs: seq<seq<CallRecord>>): int {
    if bs == [] then 0 else AccumulatedConnected(vn, bs[..|bs| - 1]) + ConnectedCalls(vn, bs[|bs| - 1])
  }

  // Connected leg-1 records that reached the engine in a batch holding no leg-2 record.
  ghost function Unpaired(vn: string, bs: seq<seq<CallRecord>>): nat {
    if bs == [] then 0
    else
      var b := bs[|bs| - 1];
      Unpaired(vn, bs[..|bs| - 1]) + if Count(vn, OnLeg(Leg2), b) == 0 then Count(vn, ConnectedOn(Leg1), b) else 0
  }

  lemma OnlyLeg1(vn: string, rs: seq<CallRecord>)
    ensures Count(vn, ConnectedOn(Leg2), rs) <= Count(vn, OnLeg(Leg2), rs)
    ensures Count(vn, ConnectedOn(Leg1), rs) + Count(vn, ConnectedOn(Leg2), rs) == Count(vn, EndsAs(Connected), rs)
  {
    CountAtMost(vn, ConnectedOn(Leg2), OnLeg(Leg2), rs);
    EveryCallIsCountedOnce(vn, rs);
  }

  lemma {:induction false} AccumulatedConnectedSplits(vn: string, bs: seq<seq<CallRecord>>)
    ensures AccumulatedConnected(vn, bs) == Count(vn, ConnectedOn(Leg2), Flatten(bs)) + Unpaired(vn, bs)
    ensures Count(vn, OnLeg(Leg2), Flatten(bs)) == 0 ==> Unpaired(vn, bs) == Count(vn, ConnectedOn(Leg1), Flatten(bs))
  {
    hide Count;
    if bs == [] {
      CountNone(vn, ConnectedOn(Leg2));
      CountNone(vn, ConnectedOn(Leg1));
    } else {
      var front, b := bs[..|bs| - 1], bs[|bs| - 1];
      AccumulatedConnectedSplits(vn, front);
      CountConcat(vn, ConnectedOn(Leg1), Flatten(front), b);
      CountConcat(vn, ConnectedOn(Leg2), Flatten(front), b);
      CountConcat(vn, OnLeg(Leg2), Flatten(front), b);
      OnlyLeg1(vn, b);
    }
  }

  // The exact law: cutting a day into batches overstates connected calls by the unpaired
  // leg-1 records, and only when the day has leg-2 records at all.
  lemma ConnectedLaw(vn: string, bs: seq<seq<CallRecord>>)
    ensures AccumulatedConnected(vn, bs) - ConnectedCalls(vn, Flatten(bs))
         == if Count(vn, OnLeg(Leg2), Flatten(bs)) == 0 then 0 else Unpaired(vn, bs)
    ensures AccumulatedConnected(vn, bs) == ConnectedCalls(vn, Flatten(bs))
        <==> Count(vn, OnLeg(Leg2), Flatten(bs)) == 0 || Unpaired(vn, bs) == 0
  {
    AccumulatedConnectedSplits(vn, bs);
    OnlyLeg1(vn, Flatten(bs));
  }

  // A batch without any leg-2 record: its connected calls are exactly its unpaired ones.
  lemma PanelCallSplitInTwo(vn: string, agent: CallRecord, customer: CallRecord)
    requires Has(vn, ConnectedOn(Leg1), agent) && Has(vn, ConnectedOn(Leg2), customer)
    ensures ConnectedCalls(vn, [agent, customer]) == 1
    ensures AccumulatedConnected(vn, [[agent], [customer]]) == 2
  {
    hide OutcomeOf, ClassifyLeg;
    var bs := [[agent], [customer]];
    assert bs[..1] == [[agent]] && bs[..1][..0] == [];
    assert [agent, customer] == [agent] + [customer] && [agent] == [] + [agent] && [customer] == [] + [customer];
    forall f | f in {OnLeg(Leg2), ConnectedOn(Leg2), EndsAs(Connected)}
      ensures Count(vn, f, [agent]) == if Has(vn, f, agent) then 1 else 0
      ensures Count(vn, f, [customer]) == if Has(vn, f, customer) then 1 else 0
      ensures Count(vn, f, [agent, customer]) == Count(vn, f, [agent]) + Count(vn, f, [customer])
    {
      CountSnoc(vn, f, [], agent);
      CountSnoc(vn, f, [], customer);
      CountConcat(vn, f, [agent], [customer]);
    }
    assert ConnectedCalls(vn, [agent]) == ConnectedCalls(vn, [customer]) == 1;
    assert AccumulatedConnected(vn, bs[..1][..0]) == 0;
    assert AccumulatedConnected(vn, bs[..1]) == 1;
  }

  // ---- Rates ----

  predicate IsPercentage(x: real) {
    0.0 <= x <= 100.0
  }

  lemma PctInRange(n: int, d: int)
    requires d > 0
    ensures IsPercentage(Pct(n, d)) <==> 0 <= n <= d
  {
    var q := n as real / d as real;
    assert q * d as real == n as real;
    if n < 0 {
      assert q < 0.0;
    } else if n > d {
      assert q > 1.0;
    } else {
      assert 0.0 <= q <= 1.0;
    }
  }

  lemma DropBounds(vn: string, rs: seq<CallRecord>)
    ensures Count(vn, EndsAs(DroppedLeg1), rs) <= Count(vn, OnLeg(Leg1), rs)
    ensures Count(vn, EndsAs(DroppedLeg2), rs)
         == Count(vn, DroppedFrom(Leg1, DroppedLeg2), rs) + Count(vn, DroppedFrom(Leg2, DroppedLeg2), rs)
    ensures Count(vn, DroppedFrom(Leg1, DroppedLeg2), rs) <= Count(vn, OnLeg(Leg1), rs)
    ensures Count(vn, DroppedFrom(Leg2, DroppedLeg2), rs) <= Count(vn, OnLeg(Leg2), rs)
    ensures Count(vn, ConnectedOn(Leg2), rs) + Count(vn, DroppedFrom(Leg2, DroppedLeg2), rs)
         <= Count(vn, OnLeg(Leg2), rs)
  {
    CountAtMost(vn, EndsAs(DroppedLeg1), OnLeg(Leg1), rs);
    CountSplit(vn, EndsAs(DroppedLeg2), DroppedFrom(Leg1, DroppedLeg2), DroppedFrom(Leg2, DroppedLeg2), rs);
    CountAtMost(vn, DroppedFrom(Leg1, DroppedLeg2), OnLeg(Leg1), rs);
    CountAtMost(vn, DroppedFrom(Leg2, DroppedLeg2), OnLeg(Leg2), rs);
    ConnectedOrDropped(vn, rs);
  }

  lemma {:induction false} ConnectedOrDropped(vn: string, rs: seq<CallRecord>)
    ensures Count(vn, ConnectedOn(Leg2), rs) + Count(vn, DroppedFrom(Leg2, DroppedLeg2), rs)
         <= Count(vn, OnLeg(Leg2), rs)
  {
    hide OutcomeOf, ClassifyLeg;
    if rs != [] {
      ConnectedOrDropped(vn, rs[..|rs| - 1]);
    }
  }

  // Every rate of a batch is a percentage except DropRate, which is one exactly when the
  // leg-1 records charged to leg 2 are not more than the leg-2 records that were not
  // dropped (or there is no leg-2 record).
  lemma RateBounds(vn: string, rs: seq<CallRecord>)
    ensures var s := SummaryOf(vn, rs);
      && 0 <= s.connected <= (if s.counters.leg2Total > 0 then s.counters.leg2Total else s.total)
      && IsPercentage(s.answerRate) && IsPercentage(s.leg1DropRate) && IsPercentage(s.leg2DropRate)
      && (IsPercentage(s.dropRate)
          <==> s.counters.leg2Total == 0
               || Count(vn, DroppedFrom(Leg1, DroppedLeg2), rs)
                  <= s.counters.leg2Total - Count(vn, DroppedFrom(Leg2, DroppedLeg2), rs))
      && (s.counters.leg2Total == 0 || Count(vn, DroppedFrom(Leg1, DroppedLeg2), rs) == 0 ==> IsPercentage(s.dropRate))
  {
    hide Count, Pct;
    var s := SummaryOf(vn, rs);
    EveryCallIsCountedOnce(vn, rs);
    OnlyLeg1(vn, rs);
    DropBounds(vn, rs);
    if rs != [] {
      PctInRange(s.counters.droppedLeg2, s.total);
      PctInRange(s.connected, s.total);
      if s.counters.leg2Total > 0 {
        PctInRange(s.counters.droppedLeg2, s.counters.leg2Total);
        PctInRange(s.connected, s.counters.leg2Total);
      }
      if s.counters.leg1Total > 0 {
        PctInRange(s.counters.droppedLeg1, s.counters.leg1Total);
      }
    }
  }

  // The day's answer rate after accumulation is a percentage exactly when the unpaired
  // leg-1 records are not more than the leg-2 records that were not connected.
  lemma AccumulatedAnswerRate(vn: string, bs: seq<seq<CallRecord>>)
    ensures var rs := Flatten(bs);
      var c := CountersOf(vn, rs);
      && (IsPercentage(AnswerRateOf(|rs|, AccumulatedConnected(vn, bs), c))
          <==> c.leg2Total == 0 || Unpaired(vn, bs) <= c.leg2Total - Count(vn, ConnectedOn(Leg2), rs))
      && (AccumulatedConnected(vn, bs) == ConnectedCalls(vn, rs)
          ==> IsPercentage(AnswerRateOf(|rs|, AccumulatedConnected(vn, bs), c)))
  {
    hide Count, Pct;
    var rs := Flatten(bs);
    AccumulatedConnectedSplits(vn, bs);
    EveryCallIsCountedOnce(vn, rs);
    OnlyLeg1(vn, rs);
    if |rs| > 0 {
      PctInRange(AccumulatedConnected(vn, bs), |rs|);
      var leg2 := Count(vn, OnLeg(Leg2), rs);
      if leg2 > 0 {
        PctInRange(AccumulatedConnected(vn, bs), leg2);
      }
    }
  }

  // ---- Round trip through call_logs ----

  // What a record looks like after being stored as a row and read back.
  function Reread(r: CallRecord): CallRecord {
    r.(phoneNumber := "", dateCreated := Blank, endTime := Blank, recordingUrl := "",
       startTime := if FiledAt(r).Some? then FormatTime(FiledAt(r).value) else Blank)
  }

  lemma RereadIsStoredAndRebuilt(origin: Origin, r: CallRecord)
    ensures CallLogToRecord(LogOf(origin, r)) == Reread(r)
  {
  }

  // Reading back keeps every feature, although four fields and the offset are gone.
  lemma RereadKeepsFeatures(vn: string, f: Feature, r: CallRecord)
    ensures Has(vn, f, Reread(r)) <==> Has(vn, f, r)
  {
    hide ToLower, Normalise;
    assert ClassifyLeg(Reread(r), vn) == ClassifyLeg(r, vn);
    assert OutcomeOf(vn, Reread(r)) == OutcomeOf(vn, r);
    assert FiledAt(Reread(r)).Some? <==> FiledAt(r).Some?;
    assert FiledAt(r).Some? ==> FiledAt(Reread(r)).value.wall == FiledAt(r).value.wall;
  }

  lemma {:induction false} SameFoldsAfterReread(a: seq<CallRecord>, b: seq<CallRecord>)
    requires |a| == |b|
    requires forall i :: 0 <= i < |a| ==> b[i] == Reread(a[i])
    ensures Durations(b) == Durations(a)
    ensures BreakdownOf(b) == BreakdownOf(a)
  {
    hide Bump;
    if a != [] {
      SameFoldsAfterReread(a[..|a| - 1], b[..|b| - 1]);
    }
  }

  lemma SameCountAfterReread(vn: string, f: Feature, a: seq<CallRecord>, b: seq<CallRecord>)
    requires |a| == |b|
    requires forall i :: 0 <= i < |a| ==> b[i] == Reread(a[i])
    ensures Count(vn, f, b) == Count(vn, f, a)
  {
    hide Has;
    forall i | 0 <= i < |a| ensures Has(vn, f, b[i]) <==> Has(vn, f, a[i]) {
      RereadKeepsFeatures(vn, f, a[i]);
    }
    CountSame(vn, f, b, a);
  }

  // Rebuilding records from the rows and processing them again gives the same summary.
  lemma CallLogRoundTrip(origin: Origin, rs: seq<CallRecord>)
    ensures var vn := origin.exophone.number;
      SummaryOf(vn, RecordsOfLogs(LogsOf(origin, rs))) == SummaryOf(vn, rs)
  {
    hide Count, Reread, LogOf, CallLogToRecord, PeakOf, Pct;
    var vn := origin.exophone.number;
    var back := RecordsOfLogs(LogsOf(origin, rs));
    assert |back| == |rs|;
    forall i | 0 <= i < |rs| ensures back[i] == Reread(rs[i]) {
      RereadIsStoredAndRebuilt(origin, rs[i]);
    }
    SameFoldsAfterReread(rs, back);
    forall f ensures Count(vn, f, back) == Count(vn, f, rs) {
      SameCountAfterReread(vn, f, rs, back);
    }
    assert CountersOf(vn, back) == CountersOf(vn, rs);
    assert ConnectedCalls(vn, back) == ConnectedCalls(vn, rs);
    forall h: int | 0 <= h < 24 ensures HistOf(vn, back)[h] == HistOf(vn, rs)[h] {
      assert Count(vn, AtHour(h), back) == Count(vn, AtHour(h), rs);
    }
    assert HistOf(vn, back) == HistOf(vn, rs);
  }

  // ---- The order of records does not matter ----

  // The same records, each Sid once in either list.
  ghost predicate SameRecords(a: seq<CallRecord>, b: seq<CallRecord>) {
    Distinct(a) && Distinct(b) && forall r :: r in a <==> r in b
  }

  // Taking one record out of the middle of a list.
  lemma TakeOut(b: seq<CallRecord>, x: CallRecord) returns (p: seq<CallRecord>, q: seq<CallRecord>)
    requires Distinct(b) && x in b
    ensures b == p + [x] + q && Distinct(p + q)
    ensures forall r :: r in p + q <==> r in b && r != x
  {
    var k :| 0 <= k < |b| && b[k] == x;
    p, q := b[..k], b[k + 1..];
    var rest := p + q;
    assert forall i :: 0 <= i < |rest| ==> rest[i] == b[if i < k then i else i + 1];
    forall r | r in b && r != x ensures r in rest {
      var i :| 0 <= i < |b| && b[i] == r;
      assert r == rest[if i < k then i else i - 1];
    }
  }

  lemma DropLast(a: seq<CallRecord>, b: seq<CallRecord>) returns (p: seq<CallRecord>, q: seq<CallRecord>)
    requires SameRecords(a, b) && a != []
    ensures b == p + [a[|a| - 1]] + q && SameRecords(a[..|a| - 1], p + q)
  {
    var front, x := a[..|a| - 1], a[|a| - 1];
    assert a == front + [x];
    DistinctConcat(front, [x]);
    p, q := TakeOut(b, x);
    assert x !in front by {
      assert x.sid in Sids([x]);
    }
  }

  lemma {:induction false} CountOfSameRecords(vn: string, f: Feature, a: seq<CallRecord>, b: seq<CallRecord>)
    requires SameRecords(a, b)
    ensures Count(vn, f, a) == Count(vn, f, b)
  {
    hide Has, SameRecords;
    if a == [] {
      NothingElse(a, b);
    } else {
      var front, x := a[..|a| - 1], a[|a| - 1];
      var p, q := DropLast(a, b);
      CountOfSameRecords(vn, f, front, p + q);
      CountConcat(vn, f, p, q);
      CountConcat(vn, f, p + [x], q);
      CountSnoc(vn, f, p, x);
    }
  }

  lemma NothingElse(a: seq<CallRecord>, b: seq<CallRecord>)
    requires SameRecords(a, b)
    ensures a == [] <==> b == []
  {
    assert a != [] ==> a[0] in a;
    assert b != [] ==> b[0] in b;
  }

  lemma {:induction false} FoldsOfSameRecords(a: seq<CallRecord>, b: seq<CallRecord>)
    requires SameRecords(a, b)
    ensures |a| == |b| && Durations(a) == Durations(b)
  {
    hide SameRecords;
    if a == [] {
      NothingElse(a, b);
    } else {
      var front, x := a[..|a| - 1], a[|a| - 1];
      var p, q := DropLast(a, b);
      FoldsOfSameRecords(front, p + q);
      DurationsConcat(p, q);
      DurationsConcat(p + [x], q);
      assert (p + [x])[..|p|] == p;
    }
  }

  lemma {:induction false} BreakdownOfSameRecords(a: seq<CallRecord>, b: seq<CallRecord>)
    requires SameRecords(a, b)
    ensures BreakdownOf(a) == BreakdownOf(b)
  {
    hide SameRecords, Plus, Bump;
    if a == [] {
      NothingElse(a, b);
    } else {
      var front, x := a[..|a| - 1], a[|a| - 1];
      var p, q := DropLast(a, b);
      BreakdownOfSameRecords(front, p + q);
      BreakdownConcat(p, q);
      BreakdownConcat(p + [x], q);
      assert (p + [x])[..|p|] == p;
      PlusCommutes(BreakdownOf(p + [x]), BreakdownOf(q));
      PlusBump(BreakdownOf(q), BreakdownOf(p), Leg1Word(x), Leg2Word(x));
      PlusCommutes(BreakdownOf(q), BreakdownOf(p));
    }
  }

  // The summary is one of the records, not of their order.
  lemma SummaryOfSameRecords(vn: string, a: seq<CallRecord>, b: seq<CallRecord>)
    requires SameRecords(a, b)
    ensures SummaryOf(vn, a) == SummaryOf(vn, b)
  {
    hide Count, PeakOf, Pct, SameRecords, Durations, BreakdownOf;
    FoldsOfSameRecords(a, b);
    BreakdownOfSameRecords(a, b);
    forall f ensures Count(vn, f, a) == Count(vn, f, b) {
      CountOfSameRecords(vn, f, a, b);
    }
    assert CountersOf(vn, a) == CountersOf(vn, b) && ConnectedCalls(vn, a) == ConnectedCalls(vn, b);
    forall h: int | 0 <= h < 24 ensures HistOf(vn, a)[h] == HistOf(vn, b)[h] {
      assert Count(vn, AtHour(h), a) == Count(vn, AtHour(h), b);
    }
    assert HistOf(vn, a) == HistOf(vn, b);
  }

  // ---- The counters in the words of the records ----

  // The positions of the records with a feature; there are as many as the feature counts.
  ghost function Where(vn: string, f: Feature, rs: seq<CallRecord>): set<int> {
    set i | 0 <= i < |rs| && Has(vn, f, rs[i])
  }

  lemma {:induction false} CountIsSize(vn: string, f: Feature, rs: seq<CallRecord>)
    ensures Count(vn, f, rs) == |Where(vn, f, rs)|
  {
    hide Has;
    if rs != [] {
      var n := |rs| - 1;
      var front := rs[..n];
      CountIsSize(vn, f, front);
      WhereSnoc(vn, f, front, rs[n]);
      assert rs == front + [rs[n]];
    }
  }

  lemma WhereSnoc(vn: string, f: Feature, front: seq<CallRecord>, r: CallRecord)
    ensures |Where(vn, f, front + [r])| == |Where(vn, f, front)| + if Has(vn, f, r) then 1 else 0
  {
    hide Has;
    var before, last := Where(vn, f, front), if Has(vn, f, r) then {|front|} else {};
    assert Where(vn, f, front + [r]) == before + last;
    assert before !! last;
  }

  lemma Sized(vn: string, f: Feature, rs: seq<CallRecord>, at: set<int>)
    requires forall i :: i in at <==> 0 <= i < |rs| && Has(vn, f, rs[i])
    ensures Count(vn, f, rs) == |at|
  {
    hide Has;
    CountIsSize(vn, f, rs);
    assert at == Where(vn, f, rs);
  }

  // The words of each bucket other than the completed ones.
  function WordsOf(o: Outcome): set<string> {
    match o
    case Failed => {"failed"}
    case Busy => {"busy"}
    case NoAnswer => {"no-answer", "noanswer"}
    case Canceled => {"canceled", "cancelled"}
    case _ => {}
  }

  lemma WordDecides(vn: string, r: CallRecord, o: Outcome)
    requires o in {Failed, Busy, NoAnswer, Canceled}
    ensures Has(vn, EndsAs(o), r) <==> ToLower(r.status) in WordsOf(o)
  {
    hide ToLower, ClassifyLeg, Leg2Word;
  }

  const KNOWN_STATUSES: set<string> :=
    {"completed", "failed", "busy", "no-answer", "noanswer", "canceled", "cancelled"}

  lemma OtherWords(vn: string, r: CallRecord)
    ensures Has(vn, EndsAs(Other), r) <==> ToLower(r.status) !in KNOWN_STATUSES
  {
    hide ToLower, ClassifyLeg, Leg2Word;
  }

  lemma Bucket(vn: string, rs: seq<CallRecord>, o: Outcome, at: set<int>)
    requires o in {Failed, Busy, NoAnswer, Canceled}
    requires forall i :: i in at <==> 0 <= i < |rs| && ToLower(rs[i].status) in WordsOf(o)
    ensures Count(vn, EndsAs(o), rs) == |at|
  {
    hide Count, Has, ToLower, WordsOf;
    forall i | 0 <= i < |rs| ensures Has(vn, EndsAs(o), rs[i]) <==> ToLower(rs[i].status) in WordsOf(o) {
      WordDecides(vn, rs[i], o);
    }
    Sized(vn, EndsAs(o), rs, at);
  }

  // The top-level status, in any capitalisation, decides the bucket of every call that was
  // not completed.
  lemma StatusBuckets(vn: string, rs: seq<CallRecord>)
    ensures var c := SummaryOf(vn, rs).counters;
      && c.failed == |set i | 0 <= i < |rs| && ToLower(rs[i].status) == "failed"|
      && c.busy == |set i | 0 <= i < |rs| && ToLower(rs[i].status) == "busy"|
      && c.noAnswer == |set i | 0 <= i < |rs| && ToLower(rs[i].status) in {"no-answer", "noanswer"}|
      && c.canceled == |set i | 0 <= i < |rs| && ToLower(rs[i].status) in {"canceled", "cancelled"}|
      && c.other == |set i | 0 <= i < |rs| && ToLower(rs[i].status) !in KNOWN_STATUSES|
  {
    hide Count, Has, ToLower;
    Bucket(vn, rs, Failed, set i | 0 <= i < |rs| && ToLower(rs[i].status) == "failed");
    Bucket(vn, rs, Busy, set i | 0 <= i < |rs| && ToLower(rs[i].status) == "busy");
    Bucket(vn, rs, NoAnswer, set i | 0 <= i < |rs| && ToLower(rs[i].status) in {"no-answer", "noanswer"});
    Bucket(vn, rs, Canceled, set i | 0 <= i < |rs| && ToLower(rs[i].status) in {"canceled", "cancelled"});
    var others := set i | 0 <= i < |rs| && ToLower(rs[i].status) !in KNOWN_STATUSES;
    forall i | 0 <= i < |rs| ensures Has(vn, EndsAs(Other), rs[i]) <==> i in others {
      OtherWords(vn, rs[i]);
    }
    Sized(vn, EndsAs(Other), rs, others);
  }

  // A call of its own, into the number or out of it, or to the number.
  predicate IsAgentSide(r: CallRecord, vn: string) {
    r.parentCallSid == ""
    && (ToLower(r.direction) == "inbound" || "outbound" <= ToLower(r.direction) || Normalise(r.to) == Normalise(vn))
  }

  lemma LegTotals(vn: string, rs: seq<CallRecord>)
    ensures var c := SummaryOf(vn, rs).counters;
      && c.leg1Total == |set i | 0 <= i < |rs| && IsAgentSide(rs[i], vn)|
      && c.leg2Total == |set i | 0 <= i < |rs| && !IsAgentSide(rs[i], vn)|
  {
    hide Count, ToLower, Normalise;
    Sized(vn, OnLeg(Leg1), rs, set i | 0 <= i < |rs| && IsAgentSide(rs[i], vn));
    Sized(vn, OnLeg(Leg2), rs, set i | 0 <= i < |rs| && !IsAgentSide(rs[i], vn));
  }

  predicate IsCompleted(r: CallRecord) {
    ToLower(r.status) == "completed"
  }

  // How one completed call ends.
  predicate WasConnected(r: CallRecord) {
    IsCompleted(r) && r.details.conversationDuration > 0
  }

  predicate WasDropped(r: CallRecord) {
    IsCompleted(r) && r.details.conversationDuration <= 0
  }

  lemma CompletedEnds(vn: string, r: CallRecord)
    ensures Has(vn, EndsAs(Connected), r) <==> WasConnected(r)
    ensures Has(vn, ConnectedOn(Leg2), r) <==> WasConnected(r) && !IsAgentSide(r, vn)
    ensures Has(vn, EndsAs(DroppedLeg1), r)
        <==> WasDropped(r) && IsAgentSide(r, vn) && r.details.leg2Status == ""
    ensures Has(vn, EndsAs(DroppedLeg2), r)
        <==> WasDropped(r) && (!IsAgentSide(r, vn) || r.details.leg2Status != "")
  {
    hide ToLower, Normalise;
    EmptyLowers(r.details.leg2Status);
  }

  // Completed calls: connected when there was a conversation, and then on the customer's side
  // only if the batch has one; else dropped, by the customer's side or with a second leg tried
  // on leg 2, without one on leg 1.
  lemma CompletedCalls(vn: string, rs: seq<CallRecord>)
    ensures var s := SummaryOf(vn, rs);
      && s.connected == (if exists i :: 0 <= i < |rs| && !IsAgentSide(rs[i], vn)
         then |set i | 0 <= i < |rs| && WasConnected(rs[i]) && !IsAgentSide(rs[i], vn)|
         else |set i | 0 <= i < |rs| && WasConnected(rs[i])|)
      && s.counters.droppedLeg1
         == |set i | 0 <= i < |rs| && WasDropped(rs[i]) && IsAgentSide(rs[i], vn) && rs[i].details.leg2Status == ""|
      && s.counters.droppedLeg2
         == |set i | 0 <= i < |rs| && WasDropped(rs[i])
                     && (!IsAgentSide(rs[i], vn) || rs[i].details.leg2Status != "")|
  {
    hide Count, Has, WasConnected, WasDropped, IsAgentSide, PeakOf, HistOf, BreakdownOf, Durations;
    forall r ensures
      && (Has(vn, EndsAs(Connected), r) <==> WasConnected(r))
      && (Has(vn, ConnectedOn(Leg2), r) <==> WasConnected(r) && !IsAgentSide(r, vn))
      && (Has(vn, EndsAs(DroppedLeg1), r) <==> WasDropped(r) && IsAgentSide(r, vn) && r.details.leg2Status == "")
      && (Has(vn, EndsAs(DroppedLeg2), r) <==> WasDropped(r) && (!IsAgentSide(r, vn) || r.details.leg2Status != ""))
    {
      CompletedEnds(vn, r);
    }
    Sized(vn, EndsAs(DroppedLeg1), rs, set i | 0 <= i < |rs| && WasDropped(rs[i])
      && IsAgentSide(rs[i], vn) && rs[i].details.leg2Status == "");
    Sized(vn, EndsAs(DroppedLeg2), rs, set i | 0 <= i < |rs| && WasDropped(rs[i])
      && (!IsAgentSide(rs[i], vn) || rs[i].details.leg2Status != ""));
    Sized(vn, EndsAs(Connected), rs, set i | 0 <= i < |rs| && WasConnected(rs[i]));
    Sized(vn, ConnectedOn(Leg2), rs, set i | 0 <= i < |rs| && WasConnected(rs[i]) && !IsAgentSide(rs[i], vn));
    HasCustomers(vn, rs);
  }

  lemma HasCustomers(vn: string, rs: seq<CallRecord>)
    ensures Count(vn, OnLeg(Leg2), rs) > 0 <==> exists i :: 0 <= i < |rs| && !IsAgentSide(rs[i], vn)
  {
    hide Count, IsAgentSide;
    LegTotals(vn, rs);
    var customers := set i | 0 <= i < |rs| && !IsAgentSide(rs[i], vn);
    if i :| 0 <= i < |rs| && !IsAgentSide(rs[i], vn) {
      assert i in customers;
    } else {
      assert customers == {};
    }
  }

  lemma EmptyLowers(s: string)
    ensures ToLower(s) == "" <==> s == ""
  {
    assert |ToLower(s)| == |s|;
  }

  // The cells of the breakdown, and with them the leg counters, which are its marginals.
  lemma LegStatusCells(vn: string, rs: seq<CallRecord>, l1: string, l2: string)
    ensures Cell(SummaryOf(vn, rs).legStatusBreakdown, l1, l2)
         == |set i | 0 <= i < |rs| && ToLower(rs[i].details.leg1Status) == l1 && ToLower(rs[i].details.leg2Status) == l2|
  {
    hide Count, ToLower;
    BreakdownCells(vn, rs, l1, l2);
    Sized(vn, Pair(l1, l2), rs, set i | 0 <= i < |rs|
      && ToLower(rs[i].details.leg1Status) == l1 && ToLower(rs[i].details.leg2Status) == l2);
  }

  // The hour written in a timestamp text, whatever its offset; unparseable text is hour 0.
  function HourIn(s: TimeText): Option<int> {
    match s
    case Blank => None
    case Bare(w) => Some(w.hour)
    case WithOffset(w, _) => Some(w.hour)
    case Garbage => Some(0)
  }

  lemma HourlySlots(vn: string, rs: seq<CallRecord>, h: Hour)
    ensures SummaryOf(vn, rs).hourlyDistribution[h]
         == |set i | 0 <= i < |rs|
              && (if rs[i].startTime != Blank then HourIn(rs[i].startTime) else HourIn(rs[i].dateCreated)) == Some(h)|
  {
    hide Count;
    Sized(vn, AtHour(h), rs, set i | 0 <= i < |rs|
      && (if rs[i].startTime != Blank then HourIn(rs[i].startTime) else HourIn(rs[i].dateCreated)) == Some(h));
  }

  // A time without an offset is IST, five and a half hours east; a text with one keeps it.
  lemma ParsedTimes(w: Wall, east: int)
    ensures ParseExotelTime(Bare(w)) == Time(w, 5 * 60 + 30)
    ensures ParseExotelTime(WithOffset(w, east)) == Time(w, east)
    ensures FormatTime(ParseExotelTime(Bare(w))) == Bare(w)
  {
  }

  // ---- Durations and rates ----

  ghost function Sum(xs: seq<int>): int {
    if xs == [] then 0 else Sum(xs[..|xs| - 1]) + xs[|xs| - 1]
  }

  lemma {:induction false} DurationsAreSummed(rs: seq<CallRecord>)
    ensures Durations(rs) == Sum(seq(|rs|, i requires 0 <= i < |rs| => rs[i].duration))
  {
    if rs != [] {
      var front := rs[..|rs| - 1];
      DurationsAreSummed(front);
      var xs := seq(|rs|, i requires 0 <= i < |rs| => rs[i].duration);
      assert xs[..|rs| - 1] == seq(|front|, i requires 0 <= i < |front| => front[i].duration);
    }
  }

  // A hundred times a numerator over a denominator.
  predicate IsRate(rate: real, n: int, d: int) {
    rate * d as real == 100.0 * n as real
  }

  lemma PctIsRate(n: int, d: int)
    requires d > 0
    ensures IsRate(Pct(n, d), n, d)
  {
    var q := n as real / d as real;
    assert q * d as real == n as real;
    assert q * 100.0 * d as real == q * d as real * 100.0;
  }

  // The rates of a batch by their denominators: the leg-2 calls when there are any, else all;
  // the leg-1 calls for leg-1 drops; and always all for the last.
  lemma RatesOfABatch(vn: string, rs: seq<CallRecord>)
    ensures var s := SummaryOf(vn, rs);
      var d := if s.counters.leg2Total > 0 then s.counters.leg2Total else |rs|;
      && (rs != [] ==>
        && d > 0
        && IsRate(s.answerRate, s.connected, d) && s.successRate == s.answerRate
        && IsRate(s.dropRate, s.counters.droppedLeg2, d)
        && IsRate(s.leg2DropRate, s.counters.droppedLeg2, |rs|)
        && s.avgDurationSec * |rs| as real == Durations(rs) as real)
      && (s.counters.leg1Total > 0 ==> IsRate(s.leg1DropRate, s.counters.droppedLeg1, s.counters.leg1Total))
      && (s.counters.leg1Total == 0 ==> s.leg1DropRate == 0.0)
      && (rs == [] ==> s.answerRate == s.successRate == s.dropRate == s.leg2DropRate == s.avgDurationSec == 0.0)
  {
    hide Count, Pct, HistOf, BreakdownOf, PeakOf, Durations, IsRate, ConnectedCalls, Dispositions;
    var s := SummaryOf(vn, rs);
    EveryCallIsCountedOnce(vn, rs);
    if s.counters.leg2Total > 0 {
      PctIsRate(s.connected, s.counters.leg2Total);
      PctIsRate(s.counters.droppedLeg2, s.counters.leg2Total);
    }
    if s.counters.leg1Total > 0 {
      PctIsRate(s.counters.droppedLeg1, s.counters.leg1Total);
    }
    if rs != [] {
      PctIsRate(s.connected, |rs|);
      PctIsRate(s.counters.droppedLeg2, |rs|);
    }
  }

  // ---- The rows of a batch ----

  // Each row repeats its record, under the transaction, account and exophone of the job.
  lemma LogsCarryTheRecords(origin: Origin, rs: seq<CallRecord>, i: nat)
    requires i < |rs|
    ensures |LogsOf(origin, rs)| == |rs|
    ensures var cl, r := LogsOf(origin, rs)[i], rs[i];
      && cl.transactionId == origin.transactionId
      && cl.accountId == origin.exophone.accountId && cl.exophoneId == origin.exophone.id
      && cl.callSid == r.sid && cl.parentCallSid == r.parentCallSid && cl.callFrom == r.from && cl.callTo == r.to
      && cl.status == r.status && cl.direction == r.direction && cl.recordingUrl == r.recordingUrl
      && cl.durationSec == r.duration && cl.conversationDuration == r.details.conversationDuration
      && cl.leg1Status == r.details.leg1Status && cl.leg2Status == r.details.leg2Status
      && (cl.legNumber == Leg1 <==> IsAgentSide(r, origin.exophone.number))
      && (r.startTime != Blank ==> cl.startTime == Some(ParseExotelTime(r.startTime)))
      && (r.startTime == Blank && r.dateCreated != Blank ==> cl.startTime == Some(ParseExotelTime(r.dateCreated)))
      && (r.startTime == Blank && r.dateCreated == Blank ==> cl.startTime == None)
      && cl.endTime == if r.endTime == Blank then None else Some(ParseExotelTime(r.endTime))
  {
    hide ToLower, Normalise, ParseExotelTime;
  }
}
