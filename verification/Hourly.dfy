// The 24-slot hourly distribution, its stored text form and the peak hour.
module Hourly {
  import opened Records

  type Hist = h: seq<nat> | |h| == 24 witness seq(24, _ => 0)

  const EMPTY_HIST: Hist := seq(24, _ => 0)

  // The stored column: never written, a JSON array of counts, or text that does not decode.
  datatype HoursJson = NoHours | Hours(counts: seq<nat>) | BadHours

  // Decoding into a fixed array keeps 24 slots: short arrays are padded, long ones cut.
  function DecodeHours(text: HoursJson): Hist {
    seq(24, h requires 0 <= h < 24 => if text.Hours? && h < |text.counts| then text.counts[h] else 0)
  }

  function AddHist(a: Hist, b: Hist): Hist {
    seq(24, h requires 0 <= h < 24 => a[h] + b[h])
  }

  lemma StoredHistReadsBack(h: Hist)
    ensures DecodeHours(Hours(h)) == h
  {
  }

  // The least hour among those with the most calls.
  ghost predicate IsPeak(dist: Hist, h: Hour) {
    && (forall j :: 0 <= j < 24 ==> dist[j] <= dist[h])
    && (forall j :: 0 <= j < h ==> dist[j] < dist[h])
  }

  ghost function PeakAmong(dist: Hist, n: nat): (peak: nat)
    requires 1 <= n <= 24
    ensures peak < n
    ensures forall j :: 0 <= j < n ==> dist[j] <= dist[peak]
    ensures forall j :: 0 <= j < peak ==> dist[j] < dist[peak]
  {
    if n == 1 then 0
    else
      var peak := PeakAmong(dist, n - 1);
      if dist[n - 1] > dist[peak] then n - 1 else peak
  }

  ghost function PeakOf(dist: Hist): (peak: Hour)
    ensures IsPeak(dist, peak)
  {
    PeakAmong(dist, 24)
  }

  lemma PeakIsUnique(dist: Hist, a: Hour, b: Hour)
    requires IsPeak(dist, a) && IsPeak(dist, b)
    ensures a == b
  {
    assert dist[a] == dist[b];
  }

  lemma PeakOfNothing()
    ensures PeakOf(EMPTY_HIST) == 0
  {
    PeakIsUnique(EMPTY_HIST, PeakOf(EMPTY_HIST), 0);
  }

  method FindPeak(dist: Hist) returns (peak: Hour)
    ensures peak == PeakOf(dist)
  {
    peak := 0;
    var most := 0;
    for h := 0 to 24
      invariant most == if h == 0 then 0 else dist[peak]
      invariant peak < h || peak == 0
      invariant forall j :: 0 <= j < h ==> dist[j] <= most
      invariant forall j :: 0 <= j < peak ==> dist[j] < most
    {
      if dist[h] > most {
        most := dist[h];
        peak := h;
      }
    }
    PeakIsUnique(dist, peak, PeakOf(dist));
  }

  ghost function SumSeq(s: seq<nat>): nat {
    if s == [] then 0 else SumSeq(s[..|s| - 1]) + s[|s| - 1]
  }

  lemma {:induction false} SumSeqUpdate(s: seq<nat>, i: nat, v: nat)
    requires i < |s|
    ensures SumSeq(s[i := v]) == SumSeq(s) - s[i] + v
  {
    var front := s[..|s| - 1];
    if i < |s| - 1 {
      SumSeqUpdate(front, i, v);
      assert s[i := v][..|s| - 1] == front[i := v];
    } else {
      assert s[i := v][..|s| - 1] == front;
    }
  }

  lemma {:induction false} SumSeqZero(n: nat)
    ensures SumSeq(seq(n, _ => 0)) == 0
  {
    if n > 0 {
      SumSeqZero(n - 1);
      assert seq(n, _ => 0)[..n - 1] == seq(n - 1, _ => 0);
    }
  }

  // Written slots read back; a column never written, or broken, reads as no calls at all.
  lemma SlotsReadBack(h: Hist)
    ensures DecodeHours(Hours(h)) == h
    ensures AddHist(DecodeHours(NoHours), h) == h == AddHist(DecodeHours(BadHours), h)
  {
    assert forall k :: 0 <= k < 24 ==> DecodeHours(Hours(h))[k] == h[k];
  }
}
