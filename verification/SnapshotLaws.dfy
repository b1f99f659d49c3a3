// The incremental row against the summary of all its records at once.
module SnapshotLaws {
  import opened Text
  import opened Reals
  import opened Records
  import opened Breakdowns
  import opened Hourly
  import opened Counting
  import opened Engine
  import opened EngineLaws
  import opened Snapshots

  // ---- Two-decimal storage ----

  const HALF_CENT := 0.005

  lemma RoundingError(x: real)
    ensures Abs(Round2(x) - x) <= HALF_CENT
    ensures Round2(0.0) == 0.0
  {
    if x >= 0.0 {
      var f := (x * 100.0 + 0.5).Floor as real;
      assert f <= x * 100.0 + 0.5 < f + 1.0;
    } else {
      var f := (-x * 100.0 + 0.5).Floor as real;
      assert f <= -x * 100.0 + 0.5 < f + 1.0;
    }
  }

  // What is stored is a whole number of hundredths, the nearest one.
  lemma StoredInHundredths(x: real) returns (hundredths: int)
    ensures Round2(x) == hundredths as real / 100.0
    ensures Abs(hundredths as real - x * 100.0) <= 0.5
    ensures Abs(hundredths as real - x * 100.0) == 0.5 ==> Abs(hundredths as real) > Abs(x * 100.0)
  {
    hundredths := if x >= 0.0 then (x * 100.0 + 0.5).Floor else -((-x * 100.0 + 0.5).Floor);
  }

  lemma ScaledError(e: real, n: real)
    requires n >= 0.0 && Abs(e) <= HALF_CENT
    ensures Abs(e * n) <= HALF_CENT * n
  {
    NonNegativeProduct(HALF_CENT - e, n);
    NonNegativeProduct(HALF_CENT + e, n);
    assert (HALF_CENT - e) * n == HALF_CENT * n - e * n;
    assert (HALF_CENT + e) * n == HALF_CENT * n + e * n;
  }

  // One store: the error in the reconstructed duration total grows by half a cent for
  // every call now counted.
  lemma DriftStep(avg: real, calls: real, duration: real, more: real, moreDuration: real, error: real)
    requires calls >= 0.0 && more > 0.0
    requires Abs(avg * calls - duration) <= error
    ensures var n := calls + more;
      Abs(Round2(Reweigh(avg, calls, more, moreDuration)) * n - (duration + moreDuration)) <= error + HALF_CENT * n
  {
    hide Round2;
    var n := calls + more;
    var rebuilt := avg * calls + moreDuration;
    var exact := rebuilt / n;
    RoundingError(exact);
    var rounded := Round2(exact);
    var e := rounded - exact;
    assert rounded == exact + e;
    ScaledError(e, n);
    QuotientTimes(rebuilt, n);
    Distributes(exact, e, n);
    Triangle(avg * calls - duration, e * n);
  }

  // ---- Folding batches into the row ----

  ghost predicate NonEmptyBatches(bs: seq<seq<CallRecord>>) {
    forall i :: 0 <= i < |bs| ==> bs[i] != []
  }

  // The row after a run of batches, each stored before the next is read.
  ghost function Folded(vn: string, bs: seq<seq<CallRecord>>): SnapshotRow
    requires NonEmptyBatches(bs)
  {
    if bs == [] then EMPTY_ROW
    else Stored(Accumulated(Folded(vn, bs[..|bs| - 1]), SummaryOf(vn, bs[|bs| - 1])))
  }

  // The same run if the columns kept every digit.
  ghost function Unrounded(vn: string, bs: seq<seq<CallRecord>>): SnapshotRow
    requires NonEmptyBatches(bs)
  {
    if bs == [] then EMPTY_ROW
    else Accumulated(Unrounded(vn, bs[..|bs| - 1]), SummaryOf(vn, bs[|bs| - 1]))
  }

  // N1 + N2 + ... + Nk for the cumulative call counts after each batch.
  ghost function Exposure(bs: seq<seq<CallRecord>>): nat {
    if bs == [] then 0 else Exposure(bs[..|bs| - 1]) + |Flatten(bs)|
  }

  // Every column of the row but the average, in terms of the records the batches hold.
  ghost predicate Represents(vn: string, row: SnapshotRow, bs: seq<seq<CallRecord>>) {
    var rs := Flatten(bs);
    var c := CountersOf(vn, rs);
    var connected := AccumulatedConnected(vn, bs);
    && row.total == |rs|
    && row.counters == c
    && row.connected == connected
    && row.dropped == c.droppedLeg1 + c.droppedLeg2
    && Decode(row.breakdown) == BreakdownOf(rs)
    && DecodeHours(row.hours) == HistOf(vn, rs)
    && row.peakHour == PeakOf(HistOf(vn, rs))
    && row.dropRate == Round2(DropRateOf(|rs|, c))
    && row.leg1DropRate == Round2(Leg1DropRateOf(c))
    && row.answerRate == row.successRate == Round2(AnswerRateOf(|rs|, connected, c))
  }

  // An average of n calls of a total duration, to within half a cent for every exposed call.
  predicate Near(avg: real, n: nat, duration: int, exposure: nat) {
    Abs(avg * n as real - duration as real) <= HALF_CENT * exposure as real
  }

  // The average column, to within half a cent for every call counted at every store.
  ghost predicate AverageWithin(row: SnapshotRow, bs: seq<seq<CallRecord>>) {
    Near(row.avgDurationSec, |Flatten(bs)|, Durations(Flatten(bs)), Exposure(bs))
  }

  lemma EmptyRowRepresentsNothing(vn: string)
    ensures Represents(vn, EMPTY_ROW, []) && AverageWithin(EMPTY_ROW, [])
  {
    hide Count, Pct;
    RoundingError(0.0);
    HistOfNothing(vn);
    PeakOfNothing();
    CountersOfNothing(vn);
    assert DecodeHours(NoHours) == EMPTY_HIST;
  }

  lemma CountersOfNothing(vn: string)
    ensures CountersOf(vn, []) == NO_CALLS
  {
    hide Has;
  }

  // A row written from scratch represents its one batch.
  lemma OverwriteRepresents(vn: string, rs: seq<CallRecord>)
    ensures Represents(vn, Stored(RowOf(SummaryOf(vn, rs))), [rs])
    ensures AverageWithin(Stored(RowOf(SummaryOf(vn, rs))), [rs])
  {
    hide Count, Pct, PeakOf, HistOf, BreakdownOf, Round2, DecodeHours;
    assert [rs][..0] == [] && Flatten([rs]) == rs;
    DecodesBack(BreakdownOf(rs));
    StoredHistReadsBack(HistOf(vn, rs));
    assert AccumulatedConnected(vn, [rs]) == ConnectedCalls(vn, rs);
    assert Exposure([rs]) == |rs|;
    RoundingError(0.0);
    if rs != [] {
      DriftStep(0.0, 0.0, 0.0, |rs| as real, Durations(rs) as real, 0.0);
    }
  }

  // Accumulating onto an empty row is writing from scratch.
  lemma AccumulatedOntoNothing(vn: string, rs: seq<CallRecord>)
    requires rs != []
    ensures Accumulated(EMPTY_ROW, SummaryOf(vn, rs)) == RowOf(SummaryOf(vn, rs))
  {
    hide Count, Pct, PeakOf, HistOf, BreakdownOf, Durations, AnswerRateOf, DropRateOf, Plus;
    var hist, b := HistOf(vn, rs), BreakdownOf(rs);
    assert AddHist(DecodeHours(NoHours), hist) == hist;
    PlusZero(b);
    if |b| == 0 {
      assert b == map[];
    }
  }

  // Accumulating a batch onto a row keeps the row in agreement with its records.
  lemma AccumulateRepresents(vn: string, row: SnapshotRow, bs: seq<seq<CallRecord>>, b: seq<CallRecord>)
    requires b != []
    requires Represents(vn, row, bs)
    ensures Represents(vn, Stored(Accumulated(row, SummaryOf(vn, b))), bs + [b])
  {
    hide Count, Pct, PeakOf, HistOf, BreakdownOf, Durations, Round2, Plus, AddHist, DecodeHours;
    var rs, all := Flatten(bs), Flatten(bs + [b]);
    FlattenSnoc(bs, b);
    assert (bs + [b])[..|bs|] == bs;
    CountersConcat(vn, rs, b);
    HistConcat(vn, rs, b);
    BreakdownConcat(rs, b);
    StoredHistReadsBack(HistOf(vn, all));
    DecodesBack(BreakdownOf(all));
    PlusZero(BreakdownOf(rs));
    if |BreakdownOf(b)| == 0 {
      assert BreakdownOf(b) == map[];
    }
    NoLeg1NoLeg1Drops(vn, rs);
    RoundingError(0.0);
  }

  // What an accumulation makes of the two columns the average is kept in.
  lemma AccumulatedColumns(vn: string, row: SnapshotRow, b: seq<CallRecord>)
    requires b != []
    ensures var next := Stored(Accumulated(row, SummaryOf(vn, b)));
      && next.total == row.total + |b|
      && next.avgDurationSec
         == Round2(Reweigh(row.avgDurationSec, row.total as real, |b| as real, Durations(b) as real))
  {
    hide Durations, CountersOf, AnswerRateOf, DropRateOf, Leg1DropRateOf, Merged, PlusCounters, AddHist,
         DecodeHours, ConnectedCalls, HistOf, BreakdownOf, Pct, PeakOf, Round2, Reweigh;
  }

  lemma NearStep(avg: real, n: nat, duration: int, exposure: nat, more: nat, moreDuration: int)
    requires more > 0 && Near(avg, n, duration, exposure)
    ensures Near(Round2(Reweigh(avg, n as real, more as real, moreDuration as real)),
                 n + more, duration + moreDuration, exposure + n + more)
  {
    hide Round2, Reweigh;
    DriftStep(avg, n as real, duration as real, more as real, moreDuration as real, HALF_CENT * exposure as real);
    assert (n + more) as real == n as real + more as real;
    assert (duration + moreDuration) as real == duration as real + moreDuration as real;
  }

  lemma AccumulateAverage(vn: string, row: SnapshotRow, bs: seq<seq<CallRecord>>, b: seq<CallRecord>)
    requires b != []
    requires row.total == |Flatten(bs)| && AverageWithin(row, bs)
    ensures AverageWithin(Stored(Accumulated(row, SummaryOf(vn, b))), bs + [b])
  {
    hide Durations, Round2, Reweigh, Flatten, Stored, Accumulated, SummaryOf, Near;
    var rs := Flatten(bs);
    FlattenSnoc(bs, b);
    assert (bs + [b])[..|bs|] == bs;
    DurationsConcat(rs, b);
    AccumulatedColumns(vn, row, b);
    NearStep(row.avgDurationSec, |rs|, Durations(rs), Exposure(bs), |b|, Durations(b));
  }

  // The fast form refines the slow form: after any run of non-empty batches every column
  // of the running row is the one computed from all records at once.
  lemma {:induction false} FoldRepresents(vn: string, bs: seq<seq<CallRecord>>)
    requires NonEmptyBatches(bs)
    ensures Represents(vn, Folded(vn, bs), bs)
    ensures AverageWithin(Folded(vn, bs), bs)
  {
    hide Represents, AverageWithin, Stored, Accumulated, SummaryOf;
    if bs == [] {
      EmptyRowRepresentsNothing(vn);
    } else {
      var front, b := bs[..|bs| - 1], bs[|bs| - 1];
      FoldRepresents(vn, front);
      AccumulateRepresents(vn, Folded(vn, front), front, b);
      assert Folded(vn, front).total == |Flatten(front)| by { RepresentsTotal(vn, Folded(vn, front), front); }
      AccumulateAverage(vn, Folded(vn, front), front, b);
      assert front + [b] == bs;
    }
  }

  lemma RepresentsTotal(vn: string, row: SnapshotRow, bs: seq<seq<CallRecord>>)
    requires Represents(vn, row, bs)
    ensures row.total == |Flatten(bs)|
  {
  }

  // Two rows built from the same records, however they were cut into batches: all columns
  // agree except the average and the three that depend on connected calls; those three
  // differ exactly by the unpaired leg-1 records.
  lemma RowsAgree(vn: string, row: SnapshotRow, bs: seq<seq<CallRecord>>, whole: SnapshotRow)
    requires Represents(vn, row, bs) && Represents(vn, whole, [Flatten(bs)])
    requires Flatten(bs) != []
    ensures && row.total == whole.total && row.counters == whole.counters && row.dropped == whole.dropped
            && Decode(row.breakdown) == Decode(whole.breakdown)
            && DecodeHours(row.hours) == DecodeHours(whole.hours) && row.peakHour == whole.peakHour
            && row.dropRate == whole.dropRate && row.leg1DropRate == whole.leg1DropRate
    ensures row.connected - whole.connected == if row.counters.leg2Total == 0 then 0 else Unpaired(vn, bs)
    ensures row.counters.leg2Total == 0 || Unpaired(vn, bs) == 0
            ==> row.answerRate == whole.answerRate && row.successRate == whole.successRate
  {
    hide Count, Pct, Round2, PeakOf, HistOf, BreakdownOf, DecodeHours;
    var rs := Flatten(bs);
    assert [rs][..0] == [] && Flatten([rs]) == rs;
    assert AccumulatedConnected(vn, [rs]) == ConnectedCalls(vn, rs);
    ConnectedLaw(vn, bs);
  }

  // ---- What sums to Total on the daily row ----

  // On any row that stands for its records, however they were cut into batches: leg totals sum
  // to Total; so do the dispositions, once the agent's halves that no batch counted are added;
  // the slots sum to the records with a timestamp text; and the peak is the least busiest hour.
  lemma DayConservation(vn: string, row: SnapshotRow, bs: seq<seq<CallRecord>>)
    requires Represents(vn, row, bs)
    ensures var c := row.counters;
      && c.leg1Total + c.leg2Total == row.total
      && row.connected + c.droppedLeg1 + c.droppedLeg2 + c.failed + c.noAnswer + c.busy + c.canceled + c.other
         + Count(vn, ConnectedOn(Leg1), Flatten(bs)) - Unpaired(vn, bs) == row.total
      && row.dropped == c.droppedLeg1 + c.droppedLeg2
      && Marginals(row.total, c, Decode(row.breakdown))
      && SumSeq(DecodeHours(row.hours)) == Count(vn, Timed, Flatten(bs))
      && IsPeak(DecodeHours(row.hours), row.peakHour)
  {
    hide Count, Marginals, IsPeak;
    EveryCallIsCountedOnce(vn, Flatten(bs));
    AccumulatedConnectedSplits(vn, bs);
    HistCountsTimed(vn, Flatten(bs));
    BatchMarginals(vn, Flatten(bs));
  }

  // ---- Drift of the average ----

  lemma {:induction false} ExposureBound(bs: seq<seq<CallRecord>>)
    ensures Exposure(bs) <= |bs| * |Flatten(bs)|
  {
    if bs != [] {
      var front := bs[..|bs| - 1];
      ExposureBound(front);
      OneMoreRow(|front|, |Flatten(front)|, |Flatten(bs)|);
    }
  }

  lemma OneMoreRow(k: nat, m: nat, n: nat)
    requires m <= n
    ensures k * m + n <= (k + 1) * n
  {
    assert k * (n - m) >= 0;
    assert k * n == k * m + k * (n - m);
  }

  // After k batches the stored average is within k half-cents of the true average.
  lemma DriftBound(vn: string, bs: seq<seq<CallRecord>>)
    requires NonEmptyBatches(bs) && bs != []
    ensures var n, d := |Flatten(bs)|, Durations(Flatten(bs));
      && n > 0
      && Abs(Folded(vn, bs).avgDurationSec - d as real / n as real) <= HALF_CENT * |bs| as real
  {
    hide Folded, Durations, Exposure, Represents, Flatten;
    FoldRepresents(vn, bs);
    ExposureBound(bs);
    assert |Flatten(bs)| > 0 by {
      FlattenSnoc(bs[..|bs| - 1], bs[|bs| - 1]);
      assert bs[..|bs| - 1] + [bs[|bs| - 1]] == bs;
    }
    SharedError(Folded(vn, bs).avgDurationSec, |Flatten(bs)|, Durations(Flatten(bs)), Exposure(bs), |bs|);
  }

  lemma SharedError(avg: real, n: nat, d: int, exposure: nat, k: nat)
    requires n > 0 && exposure <= k * n
    requires Abs(avg * n as real - d as real) <= HALF_CENT * exposure as real
    ensures Abs(avg - d as real / n as real) <= HALF_CENT * k as real
  {
    var gap := avg - d as real / n as real;
    QuotientTimes(d as real, n as real);
    assert gap * n as real == avg * n as real - d as real;
    assert (k * n) as real == k as real * n as real;
    CancelFactor(gap, HALF_CENT * k as real, n as real);
  }

  lemma ReweighTimes(avg: real, calls: real, more: real, moreDuration: real)
    requires calls + more > 0.0
    ensures Reweigh(avg, calls, more, moreDuration) * (calls + more) == avg * calls + moreDuration
  {
    QuotientTimes(avg * calls + moreDuration, calls + more);
  }

  // The running duration total that the row's average and call count stand for.
  function Rebuilt(row: SnapshotRow): real {
    row.avgDurationSec * row.total as real
  }

  lemma UnroundedStep(vn: string, row: SnapshotRow, b: seq<CallRecord>)
    requires b != []
    ensures var next := Accumulated(row, SummaryOf(vn, b));
      && next.total == row.total + |b|
      && Rebuilt(next) == Rebuilt(row) + Durations(b) as real
  {
    hide Durations, CountersOf, AnswerRateOf, DropRateOf, Leg1DropRateOf, Merged, PlusCounters, AddHist,
         DecodeHours, ConnectedCalls, HistOf, BreakdownOf, Pct, PeakOf, Reweigh;
    ReweighTimes(row.avgDurationSec, row.total as real, |b| as real, Durations(b) as real);
    assert (row.total + |b|) as real == row.total as real + |b| as real;
  }

  lemma UnroundedOfNothing(vn: string)
    ensures Unrounded(vn, []).total == |Flatten([])|
    ensures Rebuilt(Unrounded(vn, [])) == Durations(Flatten([])) as real
  {
  }

  // With full-precision columns the reconstruction of the running total is exact.
  lemma {:induction false} UnroundedAverageIsExact(vn: string, bs: seq<seq<CallRecord>>)
    requires NonEmptyBatches(bs)
    ensures Unrounded(vn, bs).total == |Flatten(bs)|
    ensures Rebuilt(Unrounded(vn, bs)) == Durations(Flatten(bs)) as real
  {
    if bs == [] {
      hide *;
      UnroundedOfNothing(vn);
    } else {
      hide Durations, Flatten, Accumulated, SummaryOf, Rebuilt;
      var front, b := bs[..|bs| - 1], bs[|bs| - 1];
      assert NonEmptyBatches(front);
      UnroundedAverageIsExact(vn, front);
      UnroundedStep(vn, Unrounded(vn, front), b);
      assert front + [b] == bs;
      FlattenSnoc(front, b);
      DurationsConcat(Flatten(front), b);
    }
  }

  // So the average itself is the true one.
  lemma UnroundedAverage(vn: string, bs: seq<seq<CallRecord>>)
    requires NonEmptyBatches(bs) && bs != []
    ensures var n := |Flatten(bs)|;
      n > 0 && Unrounded(vn, bs).avgDurationSec == Durations(Flatten(bs)) as real / n as real
  {
    hide Durations, Unrounded, Flatten;
    UnroundedAverageIsExact(vn, bs);
    var front, b := bs[..|bs| - 1], bs[|bs| - 1];
    assert front + [b] == bs;
    FlattenSnoc(front, b);
    DividedBy(Unrounded(vn, bs).avgDurationSec, |Flatten(bs)|, Durations(Flatten(bs)));
  }

  lemma DividedBy(x: real, n: nat, d: int)
    requires n > 0 && x * n as real == d as real
    ensures x == d as real / n as real
  {
  }

  // With the two-decimal column it is not: two thirds of a second over three calls,
  // followed by three calls of no length, store 0.34 instead of 0.33.
  lemma DriftHappens(vn: string, a: seq<CallRecord>, b: seq<CallRecord>)
    requires |a| == 3 && Durations(a) == 2 && |b| == 3 && Durations(b) == 0
    ensures Folded(vn, [a, b]).avgDurationSec == 0.34
    ensures Stored(RowOf(SummaryOf(vn, a + b))).avgDurationSec == 0.33
  {
    hide Count, Pct, PeakOf, HistOf, BreakdownOf, Durations, Plus, AddHist, DecodeHours;
    var bs := [a, b];
    assert bs[..1] == [a] && bs[..1][..0] == [];
    DurationsConcat(a, b);
    assert Folded(vn, [a]).avgDurationSec == Round2(2.0 / 3.0);
    assert (2.0 / 3.0 * 100.0 + 0.5).Floor == 67;
    assert Folded(vn, bs).avgDurationSec == Round2(2.01 / 6.0);
    assert (2.01 / 6.0 * 100.0 + 0.5).Floor == 34;
    assert (2.0 / 6.0 * 100.0 + 0.5).Floor == 33;
  }

  // ---- Exactly when the average does not drift ----

  // The average column times the calls is the duration total, to the digit.
  predicate IsExact(avg: real, n: nat, duration: int) {
    avg * n as real == duration as real
  }

  // The mean has no digit beyond the hundredths.
  predicate IsWhole(n: nat, duration: int)
    requires n > 0
  {
    100 * duration % n == 0
  }

  lemma HundredthsAreKept(k: int)
    ensures Round2(k as real / 100.0) == k as real / 100.0
  {
    var x := k as real / 100.0;
    assert x * 100.0 == k as real;
    if k >= 0 {
      assert (k as real + 0.5).Floor == k;
    } else {
      assert ((-k) as real + 0.5).Floor == -k;
      assert -x * 100.0 == (-k) as real;
    }
  }

  // Storing a mean keeps it exactly if and only if it is a whole number of hundredths.
  lemma MeanIsKept(n: nat, duration: int)
    requires n > 0
    ensures IsExact(Round2(duration as real / n as real), n, duration) <==> IsWhole(n, duration)
  {
    hide Round2;
    var mean := duration as real / n as real;
    QuotientTimes(duration as real, n as real);
    var k := StoredInHundredths(mean);
    if IsExact(Round2(mean), n, duration) {
      assert k as real / 100.0 * n as real == duration as real;
      WholeProduct(k, n, duration);
      NoRemainder(100 * duration, n, k);
    }
    if IsWhole(n, duration) {
      var q := 100 * duration / n;
      assert q * n == 100 * duration;
      QuotientIs(duration, n, q);
      HundredthsAreKept(q);
    }
  }

  lemma WholeProduct(k: int, n: nat, duration: int)
    requires k as real / 100.0 * n as real == duration as real
    ensures k * n == 100 * duration
  {
    assert (k * n) as real == k as real * n as real;
    assert k as real / 100.0 * n as real * 100.0 == k as real * n as real;
  }

  lemma NoRemainder(a: int, n: nat, k: int)
    requires n > 0 && k * n == a
    ensures a % n == 0
  {
    var q, m := a / n, a % n;
    assert (k - q) * n == m;
    AtLeastOne(k - q, n);
    AtLeastOne(q - k, n);
    assert (q - k) * n == -m;
  }

  lemma AtLeastOne(j: int, n: nat)
    ensures j >= 1 ==> j * n >= n
  {
    if j >= 1 {
      assert (j - 1) * n >= 0;
    }
  }

  lemma QuotientIs(duration: int, n: nat, q: int)
    requires n > 0 && q * n == 100 * duration
    ensures duration as real / n as real == q as real / 100.0
  {
    assert (q * n) as real == q as real * n as real;
    var x := q as real / 100.0;
    assert x * n as real == duration as real;
    DividedBy(x, n, duration);
  }

  // One store onto an exact row is exact if and only if the new mean is whole.
  lemma ExactStore(avg: real, n: nat, duration: int, more: nat, moreDuration: int)
    requires more > 0 && IsExact(avg, n, duration)
    ensures IsExact(Round2(Reweigh(avg, n as real, more as real, moreDuration as real)), n + more, duration + moreDuration)
        <==> IsWhole(n + more, duration + moreDuration)
  {
    hide Round2, IsExact;
    assert avg * n as real + moreDuration as real == (duration + moreDuration) as real by { ExactTotal(avg, n, duration); }
    assert (n + more) as real == n as real + more as real;
    assert Reweigh(avg, n as real, more as real, moreDuration as real)
        == (duration + moreDuration) as real / (n + more) as real;
    MeanIsKept(n + more, duration + moreDuration);
  }

  lemma ExactTotal(avg: real, n: nat, duration: int)
    requires IsExact(avg, n, duration)
    ensures avg * n as real == duration as real
  {
  }

  // The stored average is exact after every batch of a run.
  ghost predicate NeverDrifts(vn: string, bs: seq<seq<CallRecord>>)
    requires NonEmptyBatches(bs)
  {
    bs == []
    || (NeverDrifts(vn, bs[..|bs| - 1]) && IsExact(Folded(vn, bs).avgDurationSec, |Flatten(bs)|, Durations(Flatten(bs))))
  }

  // The true mean is whole after every batch of a run.
  ghost predicate AlwaysWhole(bs: seq<seq<CallRecord>>)
    requires NonEmptyBatches(bs)
  {
    bs == []
    || (AlwaysWhole(bs[..|bs| - 1]) && Flatten(bs) != [] && IsWhole(|Flatten(bs)|, Durations(Flatten(bs))))
  }

  // The exact law of the drift: the stored average is the true one after every batch if and
  // only if 100 times the durations is divisible by the number of calls after every batch.
  lemma {:induction false} NoDriftIffWhole(vn: string, bs: seq<seq<CallRecord>>)
    requires NonEmptyBatches(bs)
    ensures NeverDrifts(vn, bs) <==> AlwaysWhole(bs)
  {
    hide Folded, IsExact, IsWhole, Flatten, Durations;
    if bs != [] {
      var front, b := bs[..|bs| - 1], bs[|bs| - 1];
      assert front + [b] == bs;
      FlattenSnoc(front, b);
      NoDriftIffWhole(vn, front);
      if NeverDrifts(vn, front) {
        ExactBatch(vn, front, b);
      }
    }
  }

  lemma ExactBatch(vn: string, front: seq<seq<CallRecord>>, b: seq<CallRecord>)
    requires NonEmptyBatches(front) && b != [] && NeverDrifts(vn, front)
    ensures NonEmptyBatches(front + [b]) && Flatten(front + [b]) != []
    ensures var rs := Flatten(front + [b]);
      IsExact(Folded(vn, front + [b]).avgDurationSec, |rs|, Durations(rs)) <==> IsWhole(|rs|, Durations(rs))
  {
    hide Durations, Round2, Reweigh, Stored, Accumulated, SummaryOf, Represents, AverageWithin, IsWhole;
    assert (front + [b])[..|front|] == front;
    FlattenSnoc(front, b);
    DurationsConcat(Flatten(front), b);
    FoldRepresents(vn, front);
    RepresentsTotal(vn, Folded(vn, front), front);
    AccumulatedColumns(vn, Folded(vn, front), b);
    NothingDrifts();
    ExactStore(Folded(vn, front).avgDurationSec, |Flatten(front)|, Durations(Flatten(front)), |b|, Durations(b));
  }

  lemma NothingDrifts()
    ensures IsExact(EMPTY_ROW.avgDurationSec, |Flatten([])|, Durations(Flatten([])))
  {
  }

  // ---- What every accumulation keeps, whatever the existing row ----

  // If the row's leg counters are the marginals of its breakdown, so they are afterwards;
  // the dropped column becomes the sum of its two parts even if it was not before.
  lemma AccumulateKeepsMarginals(vn: string, row: SnapshotRow, b: seq<CallRecord>)
    requires b != []
    requires Marginals(row.total, row.counters, Decode(row.breakdown))
    ensures var next := Accumulated(row, SummaryOf(vn, b));
      && Marginals(next.total, next.counters, Decode(next.breakdown))
      && next.dropped == next.counters.droppedLeg1 + next.counters.droppedLeg2
  {
    hide Marginals, Count, Pct, PeakOf, HistOf, BreakdownOf, Plus, AddHist, DecodeHours, PlusCounters, CountersOf;
    BatchMarginals(vn, b);
    MarginalsAdd(row.total, row.counters, Decode(row.breakdown), |b|, CountersOf(vn, b), BreakdownOf(b));
    DecodesBack(Plus(Decode(row.breakdown), BreakdownOf(b)));
    PlusZero(Decode(row.breakdown));
    if |BreakdownOf(b)| == 0 {
      assert BreakdownOf(b) == map[];
    }
  }

  // ---- The rates of the row by their denominators ----

  lemma PctWrittenOut(n: int, d: int)
    requires d > 0
    ensures Pct(n, d) == 100.0 * n as real / d as real
  {
    PctIsRate(n, d);
    QuotientTimes(100.0 * n as real, d as real);
    SameFactor(Pct(n, d), 100.0 * n as real / d as real, d as real);
  }

  lemma SameFactor(x: real, y: real, n: real)
    requires n > 0.0 && x * n == y * n
    ensures x == y
  {
    Distributes(x, -y, n);
    Distributes(y, -x, n);
    MinusTimes(y, n);
    MinusTimes(x, n);
    SignOfProduct(x + -y, n);
    SignOfProduct(y + -x, n);
  }

  // On any row that stands for its records, however they were cut into batches: the answer and
  // drop rates are over the leg-2 calls when there are any, else over all; the leg-1 drop rate
  // is over the leg-1 calls; each to two decimals.
  lemma RatesOfARow(vn: string, row: SnapshotRow, bs: seq<seq<CallRecord>>)
    requires Represents(vn, row, bs)
    ensures var c := row.counters;
      var d := if c.leg2Total > 0 then c.leg2Total else row.total;
      && (d > 0 ==>
        && row.answerRate == row.successRate == Round2(100.0 * row.connected as real / d as real)
        && row.dropRate == Round2(100.0 * c.droppedLeg2 as real / d as real))
      && (d == 0 ==> row.answerRate == row.successRate == row.dropRate == 0.0)
      && (c.leg1Total > 0 ==> row.leg1DropRate == Round2(100.0 * c.droppedLeg1 as real / c.leg1Total as real))
      && (c.leg1Total == 0 ==> row.leg1DropRate == 0.0)
  {
    hide Count, Pct, Round2, Flatten, HistOf, BreakdownOf, PeakOf, DecodeHours;
    RoundingError(0.0);
    EveryCallIsCountedOnce(vn, Flatten(bs));
    var c := row.counters;
    var d := if c.leg2Total > 0 then c.leg2Total else row.total;
    if d > 0 {
      PctWrittenOut(row.connected, d);
      PctWrittenOut(c.droppedLeg2, d);
    }
    if c.leg1Total > 0 {
      PctWrittenOut(c.droppedLeg1, c.leg1Total);
    }
  }

  // ---- Rates above 100 ----

  lemma RoundsIntoRange(p: real)
    requires p >= 0.0
    ensures IsPercentage(Round2(p)) <==> p < 100.005
  {
  }

  lemma PctBelow(n: int, d: int)
    requires d > 0
    ensures Pct(n, d) < 100.005 <==> 20000 * n < 20001 * d
  {
    var q, x := n as real / d as real, d as real;
    QuotientTimes(n as real, x);
    Distributes(1.00005, -q, x);
    MinusTimes(q, x);
    SignOfProduct(1.00005 + -q, x);
    assert Pct(n, d) == q * 100.0;
    assert 1.00005 * x - n as real > 0.0 <==> 20000 * n < 20001 * d;
  }

  lemma MinusTimes(q: real, x: real)
    ensures -q * x == -(q * x)
  {
  }

  lemma StoredPct(n: int, d: int)
    requires d > 0 && n >= 0
    ensures IsPercentage(Round2(Pct(n, d))) <==> 20000 * n < 20001 * d
  {
    hide Round2, Pct;
    PctSign(n, d);
    PctBelow(n, d);
    RoundsIntoRange(Pct(n, d));
  }

  lemma PctSign(n: int, d: int)
    requires d > 0 && n >= 0
    ensures Pct(n, d) >= 0.0
  {
    QuotientTimes(n as real, d as real);
    SignOfProduct(-(n as real / d as real), d as real);
  }

  // On the stored row: the two rates leave the range exactly when they do so by half a
  // hundredth or more, the columns rounding to 100.00 before that.
  lemma StoredRates(vn: string, row: SnapshotRow, bs: seq<seq<CallRecord>>)
    requires Represents(vn, row, bs)
    ensures IsPercentage(row.answerRate)
        <==> row.counters.leg2Total == 0 || 20000 * row.connected < 20001 * row.counters.leg2Total
    ensures IsPercentage(row.dropRate)
        <==> row.counters.leg2Total == 0 || 20000 * row.counters.droppedLeg2 < 20001 * row.counters.leg2Total
    ensures row.connected == Count(vn, ConnectedOn(Leg2), Flatten(bs)) + Unpaired(vn, bs)
  {
    hide Count, Pct, Round2, Flatten, HistOf, BreakdownOf, PeakOf, DecodeHours;
    var rs := Flatten(bs);
    AccumulatedConnectedSplits(vn, bs);
    EveryCallIsCountedOnce(vn, rs);
    OnlyLeg1(vn, rs);
    DropBounds(vn, rs);
    RoundingError(0.0);
    if row.counters.leg2Total > 0 {
      StoredPct(row.connected, row.counters.leg2Total);
      StoredPct(row.counters.droppedLeg2, row.counters.leg2Total);
    } else if rs != [] {
      StoredPct(row.connected, |rs|);
      StoredPct(row.counters.droppedLeg2, |rs|);
    }
  }

  // A completed panel call: its leg, its conversation and its second leg's status.
  function PanelCall(sid: string, parent: string, conversation: int, leg2Status: string): CallRecord {
    CallRecord(sid, parent, "", "", "", "completed", "inbound", 0, Blank, Blank, Blank, "",
               CallDetails(conversation, "completed", leg2Status))
  }

  lemma PanelOutcomes(vn: string, sid: string, conversation: int, leg2Status: string)
    ensures var agent := PanelCall(sid, "", conversation, leg2Status);
      ClassifyLeg(agent, vn) == Leg1
      && (conversation > 0 ==> OutcomeOf(vn, agent) == Connected)
      && (conversation <= 0 && leg2Status != "" ==> OutcomeOf(vn, agent) == DroppedLeg2)
    ensures var customer := PanelCall(sid, "parent", conversation, leg2Status);
      ClassifyLeg(customer, vn) == Leg2
      && (conversation > 0 ==> OutcomeOf(vn, customer) == Connected)
      && (conversation <= 0 ==> OutcomeOf(vn, customer) == DroppedLeg2)
  {
    assert ToLower("completed") == "completed" && ToLower("inbound") == "inbound";
    assert leg2Status != "" ==> |ToLower(leg2Status)| > 0;
  }

  // One bridged call whose halves arrive in two batches gives the day an AnswerRate of 200.
  lemma AnswerRateOf200(vn: string)
    ensures var bs := [[PanelCall("a", "", 1, "")], [PanelCall("b", "parent", 1, "")]];
      NonEmptyBatches(bs) && Folded(vn, bs).answerRate == 200.0
  {
    hide OutcomeOf, ClassifyLeg, Folded, Represents, AverageWithin, PanelCall;
    var agent, customer := PanelCall("a", "", 1, ""), PanelCall("b", "parent", 1, "");
    var bs := [[agent], [customer]];
    PanelOutcomes(vn, "a", 1, "");
    PanelOutcomes(vn, "b", 1, "");
    PanelCallSplitInTwo(vn, agent, customer);
    FlattenTwo([agent], [customer]);
    TwoCounts(vn, OnLeg(Leg2), agent, customer);
    FoldRepresents(vn, bs);
    RateColumns(vn, Folded(vn, bs), bs);
    RoundOf200();
  }

  // A drop on leg 1 that is charged to leg 2, beside a dropped leg-2 record, gives a DropRate
  // of 200 for the batch.
  lemma DropRateOf200(vn: string)
    ensures SummaryOf(vn, [PanelCall("a", "", 0, "canceled"), PanelCall("b", "parent", 0, "")]).dropRate == 200.0
  {
    hide OutcomeOf, ClassifyLeg, PanelCall, Count, PeakOf, HistOf, BreakdownOf, Durations;
    var agent, customer := PanelCall("a", "", 0, "canceled"), PanelCall("b", "parent", 0, "");
    PanelOutcomes(vn, "a", 0, "canceled");
    PanelOutcomes(vn, "b", 0, "");
    TwoCounts(vn, OnLeg(Leg2), agent, customer);
    TwoCounts(vn, EndsAs(DroppedLeg2), agent, customer);
  }

  lemma TwoCounts(vn: string, f: Feature, a: CallRecord, b: CallRecord)
    ensures Count(vn, f, [a, b]) == (if Has(vn, f, a) then 1 else 0) + if Has(vn, f, b) then 1 else 0
  {
    hide Has;
    assert [a, b] == [] + [a] + [b];
    CountSnoc(vn, f, [], a);
    CountSnoc(vn, f, [] + [a], b);
  }

  lemma FlattenTwo(a: seq<CallRecord>, b: seq<CallRecord>)
    ensures Flatten([a, b]) == a + b
  {
    assert [a, b] == [] + [a] + [b];
    FlattenSnoc([], a);
    FlattenSnoc([] + [a], b);
  }

  lemma RateColumns(vn: string, row: SnapshotRow, bs: seq<seq<CallRecord>>)
    requires Represents(vn, row, bs)
    ensures row.answerRate
         == Round2(AnswerRateOf(|Flatten(bs)|, AccumulatedConnected(vn, bs), CountersOf(vn, Flatten(bs))))
  {
  }

  lemma RoundOf200()
    ensures Round2(200.0) == 200.0
  {
    assert (200.0 * 100.0 + 0.5).Floor == 20000;
  }
}
