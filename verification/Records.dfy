// The call record returned by the vendor, the call_logs row made from it, and timestamps.
module Records {
  import opened Text

  type Hour = h: int | 0 <= h < 24

  // Wall-clock fields of a timestamp: a calendar date (a day number), an hour and the rest.
  datatype Wall = Wall(date: int, hour: Hour, secondOfHour: nat)

  // A parsed instant keeps the offset it was written in; hours are read in that offset.
  datatype Time = Time(wall: Wall, minutesEast: int)

  const IST := 330
  const YEAR_ONE := 0
  const ZERO_TIME := Time(Wall(YEAR_ONE, 0, 0), 0)

  // A timestamp text by what the parser makes of it: nothing, the bare layout that carries
  // no offset, one of the two layouts that do, or text that no layout accepts.
  datatype TimeText = Blank | Bare(wall: Wall) | WithOffset(wall: Wall, minutesEast: int) | Garbage

  // Bare timestamps are IST. Unparseable text is the zero time, never an error.
  function ParseExotelTime(s: TimeText): Time {
    match s
    case Bare(w) => Time(w, IST)
    case WithOffset(w, east) => Time(w, east)
    case _ => ZERO_TIME
  }

  // Formatting with the bare layout drops the offset.
  function FormatTime(t: Time): TimeText {
    Bare(t.wall)
  }

  datatype CallDetails = CallDetails(conversationDuration: int, leg1Status: string, leg2Status: string)

  datatype CallRecord = CallRecord(
    sid: string,
    parentCallSid: string,
    from: string,
    to: string,
    phoneNumber: string,
    status: string,
    direction: string,
    duration: int,
    startTime: TimeText,
    endTime: TimeText,
    dateCreated: TimeText,
    recordingUrl: string,
    details: CallDetails)

  datatype Leg = Leg1 | Leg2

  // One monitored virtual number, as far as the pipeline reads it.
  datatype Exophone = Exophone(id: nat, accountId: nat, number: string)

  datatype CallLog = CallLog(
    transactionId: string,
    accountId: nat,
    exophoneId: nat,
    callSid: string,
    parentCallSid: string,
    legNumber: Leg,
    callFrom: string,
    callTo: string,
    status: string,
    direction: string,
    durationSec: int,
    conversationDuration: int,
    startTime: Option<Time>,
    endTime: Option<Time>,
    recordingUrl: string,
    leg1Status: string,
    leg2Status: string)

  // The record rebuilt from a stored row when no raw response is available.
  function CallLogToRecord(cl: CallLog): CallRecord {
    CallRecord(
      cl.callSid, cl.parentCallSid, cl.callFrom, cl.callTo, "", cl.status, cl.direction, cl.durationSec,
      if cl.startTime.Some? then FormatTime(cl.startTime.value) else Blank,
      Blank, Blank, "",
      CallDetails(cl.conversationDuration, cl.leg1Status, cl.leg2Status))
  }

  function RecordsOfLogs(logs: seq<CallLog>): seq<CallRecord> {
    seq(|logs|, i requires 0 <= i < |logs| => CallLogToRecord(logs[i]))
  }

  function Sids(rs: seq<CallRecord>): set<string> {
    set r <- rs :: r.sid
  }

  predicate Distinct(rs: seq<CallRecord>) {
    forall i, j :: 0 <= i < j < |rs| ==> rs[i].sid != rs[j].sid
  }

  lemma SidsConcat(a: seq<CallRecord>, b: seq<CallRecord>)
    ensures Sids(a + b) == Sids(a) + Sids(b)
  {
    assert forall r :: r in a + b <==> r in a || r in b;
  }

  lemma DistinctConcat(a: seq<CallRecord>, b: seq<CallRecord>)
    ensures Distinct(a + b) <==> Distinct(a) && Distinct(b) && Sids(a) !! Sids(b)
  {
    var c := a + b;
    if Distinct(c) {
      forall i, j | 0 <= i < j < |a| ensures a[i].sid != a[j].sid {
        assert c[i] == a[i] && c[j] == a[j];
      }
      forall i, j | 0 <= i < j < |b| ensures b[i].sid != b[j].sid {
        assert c[|a| + i] == b[i] && c[|a| + j] == b[j];
      }
      forall i, j | 0 <= i < |a| && 0 <= j < |b| ensures a[i].sid != b[j].sid {
        assert c[i] == a[i] && c[|a| + j] == b[j];
      }
    } else if Distinct(a) && Distinct(b) {
      var i, j :| 0 <= i < j < |c| && c[i].sid == c[j].sid;
      assert i < |a| <= j;
      assert a[i].sid in Sids(a) && b[j - |a|].sid in Sids(b);
    }
  }

  // A list without repeated Sids has exactly as many records as Sids.
  lemma OneSid(r: CallRecord)
    ensures Sids([r]) == {r.sid} && Distinct([r])
  {
    assert r in [r];
  }

  lemma {:induction false} DistinctCount(rs: seq<CallRecord>)
    requires Distinct(rs)
    ensures |Sids(rs)| == |rs|
  {
    if rs != [] {
      hide Sids;
      var front, last := rs[..|rs| - 1], rs[|rs| - 1];
      assert rs == front + [last];
      DistinctConcat(front, [last]);
      DistinctCount(front);
      SidsConcat(front, [last]);
      OneSid(last);
    }
  }
}
