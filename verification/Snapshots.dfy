// The daily call_metrics_snapshot row: incremental accumulation and full overwrite.
module Snapshots {
  import opened Text
  import opened Records
  import opened Breakdowns
  import opened Hourly
  import opened Counting
  import opened Engine
  import opened Dedup

  datatype SnapshotRow = SnapshotRow(
    total: nat,
    counters: Counters,
    connected: int,
    dropped: int,
    avgDurationSec: real,
    answerRate: real,
    successRate: real,
    dropRate: real,
    leg1DropRate: real,
    hours: HoursJson,
    peakHour: Hour,
    breakdown: Json)

  const EMPTY_ROW := SnapshotRow(0, NO_CALLS, 0, 0, 0.0, 0.0, 0.0, 0.0, 0.0, NoHours, 0, EmptyText)

  // A two-decimal column keeps the nearest hundredth, halves away from zero.
  function Round2(x: real): real {
    if x >= 0.0 then (x * 100.0 + 0.5).Floor as real / 100.0
    else -((-x * 100.0 + 0.5).Floor as real / 100.0)
  }

  // The row as the table keeps it.
  function Stored(row: SnapshotRow): SnapshotRow {
    row.(avgDurationSec := Round2(row.avgDurationSec),
         answerRate := Round2(row.answerRate),
         successRate := Round2(row.successRate),
         dropRate := Round2(row.dropRate),
         leg1DropRate := Round2(row.leg1DropRate))
  }

  // The row written from one summary, as backfill and reprocess do.
  function RowOf(s: CallSummary): SnapshotRow {
    SnapshotRow(
      s.total, s.counters, s.connected, s.counters.droppedLeg1 + s.counters.droppedLeg2, s.avgDurationSec,
      s.answerRate, s.successRate, s.dropRate, s.leg1DropRate,
      Hours(s.hourlyDistribution), s.peakHour, LegBreakdownJSON(s.legStatusBreakdown))
  }

  // The average over more calls, from the stored average of the earlier ones.
  function Reweigh(avg: real, calls: real, more: real, moreDuration: real): real
    requires calls + more > 0.0
  {
    (avg * calls + moreDuration) / (calls + more)
  }

  // The row after one more non-empty batch.
  ghost function Accumulated(row: SnapshotRow, s: CallSummary): SnapshotRow
    requires s.total > 0
  {
    var total := row.total + s.total;
    var c := PlusCounters(row.counters, s.counters);
    var connected := row.connected + s.connected;
    var hist := AddHist(DecodeHours(row.hours), s.hourlyDistribution);
    var rate := AnswerRateOf(total, connected, c);
    SnapshotRow(
      total, c, connected, c.droppedLeg1 + c.droppedLeg2,
      Reweigh(row.avgDurationSec, row.total as real, s.total as real, s.totalDurationSec as real),
      rate, rate, DropRateOf(total, c),
      if c.leg1Total > 0 then Leg1DropRateOf(c) else row.leg1DropRate,
      Hours(hist), PeakOf(hist), Merged(row.breakdown, s.legStatusBreakdown))
  }

  class SnapshotTable {
    var rows: map<Key, SnapshotRow>

    constructor ()
      ensures rows == map[]
    {
      rows := map[];
    }

    function Get(key: Key): Option<SnapshotRow>
      reads this
    {
      if key in rows then Some(rows[key]) else None
    }

    // INSERT ... ON DUPLICATE KEY UPDATE of every column.
    method Upsert(key: Key, row: SnapshotRow)
      modifies this
      ensures rows == old(rows)[key := Stored(row)]
    {
      rows := rows[key := Stored(row)];
    }

    // Adds a batch to today's row, creating it on the first non-empty batch.
    method AccumulateCallMetrics(key: Key, s: CallSummary)
      modifies this
      ensures s.total == 0 ==> rows == old(rows)
      ensures s.total > 0 ==>
        rows == old(rows)[key := Stored(Accumulated(old(if Get(key).Some? then Get(key).value else EMPTY_ROW), s))]
    {
      hide PeakOf, Pct, Merged, AddHist, DecodeHours, PlusCounters;
      if s.total == 0 {
        return;
      }
      var existing := Get(key);
      var snap := if existing.Some? then existing.value else EMPTY_ROW;
      ghost var before := snap;

      snap := snap.(total := snap.total + s.total);
      snap := snap.(counters := PlusCounters(snap.counters, s.counters));
      snap := snap.(connected := snap.connected + s.connected);
      snap := snap.(dropped := snap.counters.droppedLeg1 + snap.counters.droppedLeg2);
      var breakdown := MergeWithBreakdownMap(snap.breakdown, s.legStatusBreakdown);
      snap := snap.(breakdown := breakdown);

      var existingTotalDur := snap.avgDurationSec * (snap.total - s.total) as real;
      var newTotalDur := existingTotalDur + s.totalDurationSec as real;
      if snap.total > 0 {
        snap := snap.(avgDurationSec := newTotalDur / snap.total as real);
      }
      assert snap.avgDurationSec
          == Reweigh(before.avgDurationSec, before.total as real, s.total as real, s.totalDurationSec as real);

      var dist := AddSlots(DecodeHours(snap.hours), s.hourlyDistribution);
      snap := snap.(hours := Hours(dist));
      var peak := FindPeak(dist);
      snap := snap.(peakHour := peak);

      var c := snap.counters;
      var denom := snap.total;
      if c.leg2Total > 0 {
        denom := c.leg2Total;
        snap := snap.(dropRate := Pct(c.droppedLeg2, c.leg2Total));
      } else if snap.total > 0 {
        snap := snap.(dropRate := Pct(c.droppedLeg2, snap.total));
      }
      if denom > 0 {
        snap := snap.(answerRate := Pct(snap.connected, denom));
      }
      snap := snap.(successRate := snap.answerRate);
      if c.leg1Total > 0 {
        snap := snap.(leg1DropRate := Pct(c.droppedLeg1, c.leg1Total));
      }
      assert snap == Accumulated(before, s);
      Upsert(key, snap);
    }
  }

  method AddSlots(dist: Hist, more: Hist) returns (sum: Hist)
    ensures sum == AddHist(dist, more)
  {
    sum := dist;
    for h := 0 to 24
      invariant forall j :: 0 <= j < h ==> sum[j] == dist[j] + more[j]
      invariant forall j :: h <= j < 24 ==> sum[j] == dist[j]
    {
      sum := sum[h := sum[h] + more[h]];
    }
  }
}
