// The per-exophone, per-IST-day Sid set and the filter built on it.
module Dedup {
  import opened Records

  // One exophone on one IST calendar day: the key of the Sid set and of the snapshot row.
  datatype Key = Key(exophoneId: nat, date: int)

  function SetAt(sets: map<Key, set<string>>, key: Key): set<string> {
    if key in sets then sets[key] else {}
  }

  function SidSet(sids: seq<string>): set<string> {
    set s <- sids
  }

  function SidList(rs: seq<CallRecord>): seq<string> {
    seq(|rs|, i requires 0 <= i < |rs| => rs[i].sid)
  }

  lemma SidListSet(rs: seq<CallRecord>)
    ensures SidSet(SidList(rs)) == Sids(rs)
  {
    forall r | r in rs ensures r.sid in SidList(rs) {
      var i :| 0 <= i < |rs| && rs[i] == r;
      assert SidList(rs)[i] == r.sid;
    }
  }

  // Whether the cache answered: every command of the pipeline ran, or an error came back after
  // some of them had taken effect.
  datatype Link = Up | Down(written: nat)

  // The commands that took effect.
  function Sent<T>(link: Link, xs: seq<T>): seq<T> {
    if link.Down? && link.written < |xs| then xs[..link.written] else xs
  }

  lemma SentSids(link: Link, rs: seq<CallRecord>)
    ensures SidSet(Sent(link, SidList(rs))) == Sids(Sent(link, rs))
  {
    SidListSet(Sent(link, rs));
    assert Sent(link, SidList(rs)) == SidList(Sent(link, rs));
  }

  lemma SentNothing(link: Link)
    ensures Sids(Sent(link, [])) == {}
  {
  }

  lemma NothingSent(seen: set<string>, rs: seq<CallRecord>)
    ensures seen + Sids(Sent(Down(0), rs)) == seen
  {
    assert Sids([]) == {};
  }

  // The i-th Sid is new when neither the set nor an earlier position holds it.
  predicate IsNewAt(seen: set<string>, sids: seq<string>, i: nat)
    requires i < |sids|
  {
    sids[i] !in seen && sids[i] !in sids[..i]
  }

  class SidCache {
    var sets: map<Key, set<string>>

    constructor ()
      ensures sets == map[]
    {
      sets := map[];
    }

    // The pipelined SADD commands: each answers how many members it added.
    method Pipelined(key: Key, sids: seq<string>) returns (added: seq<int>)
      modifies this
      ensures |added| == |sids|
      ensures forall i :: 0 <= i < |sids| ==> (added[i] == 1 <==> IsNewAt(old(SetAt(sets, key)), sids, i))
      ensures SetAt(sets, key) == old(SetAt(sets, key)) + SidSet(sids)
      ensures forall k :: k != key ==> SetAt(sets, k) == old(SetAt(sets, k))
    {
      added := [];
      for i := 0 to |sids|
        invariant |added| == i
        invariant SetAt(sets, key) == old(SetAt(sets, key)) + SidSet(sids[..i])
        invariant forall k :: k != key ==> SetAt(sets, k) == old(SetAt(sets, k))
        invariant forall j :: 0 <= j < i ==> (added[j] == 1 <==> IsNewAt(old(SetAt(sets, key)), sids, j))
      {
        assert sids[..i + 1] == sids[..i] + [sids[i]];
        added := added + [if sids[i] in SetAt(sets, key) then 0 else 1];
        sets := sets[key := SetAt(sets, key) + {sids[i]}];
      }
      assert sids[..|sids|] == sids;
    }

    // Adds every Sid to the day's set and reports which ones were not there yet. When the
    // pipeline fails every Sid is reported new, also those that were added before it failed.
    method AddCallSids(key: Key, sids: seq<string>, link: Link) returns (isNew: seq<bool>)
      modifies this
      ensures |isNew| == |sids|
      ensures forall i :: 0 <= i < |sids| ==> (isNew[i] <==> link.Down? || IsNewAt(old(SetAt(sets, key)), sids, i))
      ensures SetAt(sets, key) == old(SetAt(sets, key)) + SidSet(Sent(link, sids))
      ensures forall k :: k != key ==> SetAt(sets, k) == old(SetAt(sets, k))
    {
      var result := new bool[|sids|](_ => false);
      if |sids| == 0 {
        return [];
      }
      var added := Pipelined(key, Sent(link, sids));
      if link.Down? {
        for i := 0 to |sids|
          invariant forall j :: 0 <= j < i ==> result[j]
          modifies result
        {
          result[i] := true;
        }
        return result[..];
      }
      for i := 0 to |sids|
        invariant forall j :: 0 <= j < i ==> (result[j] <==> added[j] == 1)
        modifies result
      {
        result[i] := added[i] == 1;
      }
      return result[..];
    }

    // Drops the records whose Sid was already registered today.
    method FilterNewRecords(key: Key, records: seq<CallRecord>, link: Link) returns (out: seq<CallRecord>)
      modifies this
      ensures out == if link.Up? then Fresh(old(SetAt(sets, key)), records) else records
      ensures SetAt(sets, key) == old(SetAt(sets, key)) + Sids(Sent(link, records))
      ensures forall k :: k != key ==> SetAt(sets, k) == old(SetAt(sets, k))
    {
      hide Fresh, Sids, Sent, SetAt;
      if |records| == 0 {
        NothingFresh(SetAt(sets, key));
        SentNothing(link);
        return records;
      }
      var sids := SidList(records);
      SentSids(link, records);
      var isNew := AddCallSids(key, sids, link);
      out := [];
      NothingFresh(old(SetAt(sets, key)));
      for i := 0 to |records|
        invariant out == if link.Up? then Fresh(old(SetAt(sets, key)), records[..i]) else records[..i]
        modifies {}
      {
        assert records[..i + 1] == records[..i] + [records[i]];
        FreshSnoc(old(SetAt(sets, key)), records[..i], records[i]);
        SidListSet(records[..i]);
        assert sids[..i] == SidList(records[..i]);
        assert (records[i].sid in sids[..i]) == (records[i].sid in Sids(records[..i]));
        if isNew[i] {
          out := out + [records[i]];
        }
      }
      assert records[..|records|] == records;
    }
  }

  // ---- What the filter keeps: first occurrences of Sids outside the set ----

  function Fresh(seen: set<string>, rs: seq<CallRecord>): seq<CallRecord> {
    if rs == [] then []
    else
      var front, r := rs[..|rs| - 1], rs[|rs| - 1];
      Fresh(seen, front) + if r.sid in seen || r.sid in Sids(front) then [] else [r]
  }

  lemma FreshSnoc(seen: set<string>, front: seq<CallRecord>, r: CallRecord)
    ensures Fresh(seen, front + [r])
         == Fresh(seen, front) + if r.sid in seen || r.sid in Sids(front) then [] else [r]
  {
    assert (front + [r])[..|front|] == front;
  }

  // Filtering a list in two parts, registering in between, is filtering it whole.
  lemma {:induction false} FreshConcat(seen: set<string>, a: seq<CallRecord>, b: seq<CallRecord>)
    ensures Fresh(seen, a + b) == Fresh(seen, a) + Fresh(seen + Sids(a), b)
  {
    hide Fresh, Sids;
    if b == [] {
      assert a + b == a;
      NothingFresh(seen + Sids(a));
    } else {
      var front, r := b[..|b| - 1], b[|b| - 1];
      FreshConcat(seen, a, front);
      assert b == front + [r] && a + b == (a + front) + [r];
      FreshSnoc(seen, a + front, r);
      FreshSnoc(seen + Sids(a), front, r);
      SidsConcat(a, front);
    }
  }

  lemma NothingFresh(seen: set<string>)
    ensures Fresh(seen, []) == []
  {
  }

  // The kept records have each Sid once, and exactly the Sids that were not in the set.
  lemma {:induction false} FreshKeepsEachSidOnce(seen: set<string>, rs: seq<CallRecord>)
    ensures Distinct(Fresh(seen, rs))
    ensures Sids(Fresh(seen, rs)) == Sids(rs) - seen
  {
    if rs != [] {
      var front, r := rs[..|rs| - 1], rs[|rs| - 1];
      FreshKeepsEachSidOnce(seen, front);
      assert rs == front + [r];
      SidsConcat(front, [r]);
      assert Sids(rs) == Sids(front) + {r.sid} by { assert Sids([r]) == {r.sid}; }
      if r.sid !in seen && r.sid !in Sids(front) {
        DistinctConcat(Fresh(seen, front), [r]);
        SidsConcat(Fresh(seen, front), [r]);
        assert Sids([r]) == {r.sid};
      } else {
        assert Fresh(seen, rs) == Fresh(seen, front);
        assert Sids(front) + {r.sid} - seen == Sids(front) - seen;
      }
    }
  }

  // A list of Sids nobody has seen passes unchanged.
  lemma {:induction false} FreshOfUnseen(seen: set<string>, rs: seq<CallRecord>)
    requires Distinct(rs) && Sids(rs) !! seen
    ensures Fresh(seen, rs) == rs
  {
    if rs != [] {
      var front, r := rs[..|rs| - 1], rs[|rs| - 1];
      assert rs == front + [r];
      DistinctConcat(front, [r]);
      SidsConcat(front, [r]);
      assert r.sid in Sids([r]);
      FreshOfUnseen(seen, front);
    }
  }

  // ---- Keeping only records that satisfy a test before taking first occurrences ----

  function Keep(test: CallRecord -> bool, rs: seq<CallRecord>): seq<CallRecord> {
    if rs == [] then []
    else
      var front, r := rs[..|rs| - 1], rs[|rs| - 1];
      Keep(test, front) + if test(r) then [r] else []
  }

  lemma {:induction false} KeepConcat(test: CallRecord -> bool, a: seq<CallRecord>, b: seq<CallRecord>)
    ensures Keep(test, a + b) == Keep(test, a) + Keep(test, b)
  {
    if b == [] {
      assert a + b == a;
    } else {
      KeepConcat(test, a, b[..|b| - 1]);
      assert (a + b)[..|a + b| - 1] == a + b[..|b| - 1];
    }
  }

  lemma {:induction false} KeptPassTest(test: CallRecord -> bool, seen: set<string>, rs: seq<CallRecord>)
    ensures forall r :: r in Keep(test, rs) ==> test(r)
    ensures forall r :: r in Fresh(seen, rs) ==> r in rs
  {
    if rs != [] {
      KeptPassTest(test, seen, rs[..|rs| - 1]);
    }
  }

  // Testing before deduplicating changes nothing exactly when every first occurrence
  // passes the test; later copies of the same Sid do not matter.
  lemma FirstOccurrencesUnderTest(test: CallRecord -> bool, rs: seq<CallRecord>)
    ensures Fresh({}, Keep(test, rs)) == Fresh({}, rs) <==> forall r :: r in Fresh({}, rs) ==> test(r)
  {
    KeptPassTest(test, {}, rs);
    KeptPassTest(test, {}, Keep(test, rs));
    if forall r :: r in Fresh({}, rs) ==> test(r) {
      TestedFirstOccurrences(test, rs);
    }
  }

  lemma {:induction false} TestedFirstOccurrences(test: CallRecord -> bool, rs: seq<CallRecord>)
    requires forall r :: r in Fresh({}, rs) ==> test(r)
    ensures Fresh({}, Keep(test, rs)) == Fresh({}, rs)
  {
    if rs != [] {
      var front, r := rs[..|rs| - 1], rs[|rs| - 1];
      assert rs == front + [r];
      hide Fresh;
      FreshSnoc({}, front, r);
      TestedFirstOccurrences(test, front);
      FreshKeepsEachSidOnce({}, front);
      FreshKeepsEachSidOnce({}, Keep(test, front));
      assert Sids(front) - {} == Sids(front) && Sids(Keep(test, front)) - {} == Sids(Keep(test, front));
      assert r.sid !in Sids(front) ==> r in Fresh({}, rs);
      if test(r) {
        FreshSnoc({}, Keep(test, front), r);
      } else {
        assert r.sid in Sids(front);
        assert Keep(test, rs) == Keep(test, front);
      }
    }
  }

  // The position holds a Sid that is not in the set and has not come before.
  predicate IsFirst(seen: set<string>, rs: seq<CallRecord>, i: int)
    requires 0 <= i < |rs|
  {
    rs[i].sid !in seen && forall j :: 0 <= j < i ==> rs[j].sid != rs[i].sid
  }

  lemma FirstSnoc(seen: set<string>, front: seq<CallRecord>, r: CallRecord)
    ensures IsFirst(seen, front + [r], |front|) <==> r.sid !in seen && r.sid !in Sids(front)
    ensures forall i :: 0 <= i < |front| ==> (IsFirst(seen, front + [r], i) <==> IsFirst(seen, front, i))
  {
    var rs := front + [r];
    assert forall j :: 0 <= j < |front| ==> rs[j] == front[j];
    if r.sid in Sids(front) {
      var q :| q in front && q.sid == r.sid;
      var j :| 0 <= j < |front| && front[j] == q;
      assert rs[j].sid == r.sid;
    } else {
      assert forall j :: 0 <= j < |front| ==> front[j].sid in Sids(front);
    }
  }

  ghost predicate HasFirst(seen: set<string>, rs: seq<CallRecord>, r: CallRecord) {
    exists i :: 0 <= i < |rs| && rs[i] == r && IsFirst(seen, rs, i)
  }

  lemma HasFirstSnoc(seen: set<string>, front: seq<CallRecord>, last: CallRecord, r: CallRecord)
    ensures HasFirst(seen, front + [last], r)
        <==> HasFirst(seen, front, r) || (r == last && r.sid !in seen && r.sid !in Sids(front))
  {
    hide IsFirst;
    var rs := front + [last];
    FirstSnoc(seen, front, last);
    if HasFirst(seen, front, r) {
      var i :| 0 <= i < |front| && front[i] == r && IsFirst(seen, front, i);
      assert rs[i] == r && IsFirst(seen, rs, i);
    }
    if r == last && r.sid !in seen && r.sid !in Sids(front) {
      assert rs[|front|] == r && IsFirst(seen, rs, |front|);
    }
    if HasFirst(seen, rs, r) {
      var i :| 0 <= i < |rs| && rs[i] == r && IsFirst(seen, rs, i);
      assert i < |front| ==> front[i] == r && IsFirst(seen, front, i);
    }
  }

  // Kept are exactly the records at those positions.
  lemma {:induction false} FreshKeepsFirsts(seen: set<string>, rs: seq<CallRecord>, r: CallRecord)
    ensures r in Fresh(seen, rs) <==> HasFirst(seen, rs, r)
  {
    if rs != [] {
      hide HasFirst, Fresh, Sids;
      var front, last := rs[..|rs| - 1], rs[|rs| - 1];
      assert rs == front + [last];
      FreshKeepsFirsts(seen, front, r);
      FreshSnoc(seen, front, last);
      HasFirstSnoc(seen, front, last, r);
    }
  }

  lemma {:induction false} KeptExactly(test: CallRecord -> bool, rs: seq<CallRecord>)
    ensures forall r :: r in Keep(test, rs) <==> r in rs && test(r)
  {
    if rs != [] {
      var front, last := rs[..|rs| - 1], rs[|rs| - 1];
      KeptExactly(test, front);
      assert forall r :: r in rs <==> r in front || r == last;
    }
  }
}
