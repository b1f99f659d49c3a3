// The call_logs table with its unique (exophone_id, call_sid) key, and the chunked
// INSERT IGNORE that fills it.
module CallLogs {
  import opened Text
  import opened Records
  import opened SqlLiteral

  // ---- Insert-ignore ----

  predicate SameKey(a: CallLog, b: CallLog) {
    a.exophoneId == b.exophoneId && a.callSid == b.callSid
  }

  predicate HoldsKey(table: seq<CallLog>, row: CallLog) {
    exists i :: 0 <= i < |table| && SameKey(table[i], row)
  }

  ghost predicate UniqueKeys(table: seq<CallLog>) {
    forall i, j :: 0 <= i < j < |table| ==> !SameKey(table[i], table[j])
  }

  // The first row of a key wins; later ones are skipped.
  function InsertIgnore(table: seq<CallLog>, rows: seq<CallLog>): seq<CallLog> {
    if rows == [] then table
    else
      var t := InsertIgnore(table, rows[..|rows| - 1]);
      if HoldsKey(t, rows[|rows| - 1]) then t else t + [rows[|rows| - 1]]
  }

  lemma {:induction false} InsertIgnoreConcat(table: seq<CallLog>, a: seq<CallLog>, b: seq<CallLog>)
    ensures InsertIgnore(table, a + b) == InsertIgnore(InsertIgnore(table, a), b)
  {
    if b == [] {
      assert a + b == a;
    } else {
      InsertIgnoreConcat(table, a, b[..|b| - 1]);
      assert (a + b)[..|a + b| - 1] == a + b[..|b| - 1];
    }
  }

  // Old rows stay where they are, keys stay unique, every submitted key ends up held, and
  // a row that is added is one of the submitted ones.
  lemma {:induction false} InsertIgnoreKeepsFirst(table: seq<CallLog>, rows: seq<CallLog>)
    ensures var t := InsertIgnore(table, rows);
      && table <= t
      && (UniqueKeys(table) ==> UniqueKeys(t))
      && (forall i :: 0 <= i < |rows| ==> HoldsKey(t, rows[i]))
      && (forall i :: |table| <= i < |t| ==> t[i] in rows)
  {
    if rows != [] {
      var front, last := rows[..|rows| - 1], rows[|rows| - 1];
      InsertIgnoreKeepsFirst(table, front);
      var before, after := InsertIgnore(table, front), InsertIgnore(table, rows);
      forall i | 0 <= i < |rows| ensures HoldsKey(after, rows[i]) {
        if i < |rows| - 1 {
          assert HoldsKey(before, front[i]);
          var k :| 0 <= k < |before| && SameKey(before[k], rows[i]);
          assert SameKey(after[k], rows[i]);
        } else if !HoldsKey(before, last) {
          assert SameKey(after[|before|], last);
        }
      }
    }
  }

  lemma {:induction false} HeldRowsAreIgnored(table: seq<CallLog>, rows: seq<CallLog>)
    requires forall i :: 0 <= i < |rows| ==> HoldsKey(table, rows[i])
    ensures InsertIgnore(table, rows) == table
  {
    if rows != [] {
      HeldRowsAreIgnored(table, rows[..|rows| - 1]);
    }
  }

  // Submitting the same rows again changes nothing.
  lemma ResubmissionIsHarmless(table: seq<CallLog>, rows: seq<CallLog>)
    ensures InsertIgnore(InsertIgnore(table, rows), rows) == InsertIgnore(table, rows)
  {
    InsertIgnoreKeepsFirst(table, rows);
    HeldRowsAreIgnored(InsertIgnore(table, rows), rows);
  }

  const BATCH_SIZE := 500

  class CallLogTable {
    var rows: seq<CallLog>

    constructor ()
      ensures rows == []
    {
      rows := [];
    }

    // One INSERT IGNORE statement.
    method ExecIgnoreInsert(batch: seq<CallLog>)
      modifies this
      ensures rows == InsertIgnore(old(rows), batch)
    {
      for i := 0 to |batch|
        invariant rows == InsertIgnore(old(rows), batch[..i])
      {
        assert batch[..i + 1][..i] == batch[..i];
        if !HoldsKey(rows, batch[i]) {
          rows := rows + [batch[i]];
        }
      }
      assert batch[..|batch|] == batch;
    }

    // Statements of at most 500 rows leave the same table as one statement would.
    method SaveCallLogs(logs: seq<CallLog>)
      modifies this
      ensures rows == InsertIgnore(old(rows), logs)
    {
      var i := 0;
      while i < |logs|
        invariant 0 <= i <= |logs|
        invariant rows == InsertIgnore(old(rows), logs[..i])
      {
        var end := i + BATCH_SIZE;
        if end > |logs| {
          end := |logs|;
        }
        ExecIgnoreInsert(logs[i..end]);
        InsertIgnoreConcat(old(rows), logs[..i], logs[i..end]);
        assert logs[..i] + logs[i..end] == logs[..end];
        i := end;
      }
      assert logs[..|logs|] == logs;
    }
  }

  // The rows of one exophone that started on one calendar day.
  function LogsOfDay(rows: seq<CallLog>, exophoneId: nat, date: int): seq<CallLog> {
    if rows == [] then []
    else
      var front, r := rows[..|rows| - 1], rows[|rows| - 1];
      LogsOfDay(front, exophoneId, date)
      + if r.exophoneId == exophoneId && r.startTime.Some? && r.startTime.value.wall.date == date then [r] else []
  }

  // Rows read back for one exophone never repeat a Sid.
  lemma {:induction false} LogsOfDayAreDistinct(rows: seq<CallLog>, exophoneId: nat, date: int)
    requires UniqueKeys(rows)
    ensures Distinct(RecordsOfLogs(LogsOfDay(rows, exophoneId, date)))
    ensures forall cl :: cl in LogsOfDay(rows, exophoneId, date) ==> cl in rows && cl.exophoneId == exophoneId
  {
    if rows != [] {
      var front, r := rows[..|rows| - 1], rows[|rows| - 1];
      LogsOfDayAreDistinct(front, exophoneId, date);
      var before, after := LogsOfDay(front, exophoneId, date), LogsOfDay(rows, exophoneId, date);
      var old_, new_ := RecordsOfLogs(before), RecordsOfLogs(after);
      forall i, j | 0 <= i < j < |new_| ensures new_[i].sid != new_[j].sid {
        if j < |old_| {
          assert old_[i].sid != old_[j].sid;
        } else {
          assert before[i] in before;
          var k :| 0 <= k < |front| && front[k] == before[i];
          assert !SameKey(rows[k], rows[|rows| - 1]);
        }
      }
    }
  }

  predicate IsOfDay(cl: CallLog, exophoneId: nat, date: int) {
    cl.exophoneId == exophoneId && cl.startTime.Some? && cl.startTime.value.wall.date == date
  }

  // Exactly the rows of this exophone that started on this date.
  lemma {:induction false} LogsOfDayExactly(rows: seq<CallLog>, exophoneId: nat, date: int)
    ensures forall cl ::
      cl in LogsOfDay(rows, exophoneId, date) <==> cl in rows && IsOfDay(cl, exophoneId, date)
  {
    if rows != [] {
      var front, last := rows[..|rows| - 1], rows[|rows| - 1];
      LogsOfDayExactly(front, exophoneId, date);
      assert forall cl :: cl in rows <==> cl in front || cl == last;
    }
  }

  // ---- The statement text ----

  function Digits(n: nat): string {
    (if n < 10 then "" else Digits(n / 10)) + [(n % 10 + '0' as int) as char]
  }

  function Decimal(n: int): string {
    if n < 0 then "-" + Digits(-n) else Digits(n)
  }

  // The columns of one row; stamp renders a time as quoted text.
  function ColumnsOf(cl: CallLog, stamp: Time -> string): seq<Column> {
    [Quoted(cl.transactionId), Unquoted(Decimal(cl.accountId)), Unquoted(Decimal(cl.exophoneId)),
     Quoted(cl.callSid), Quoted(cl.parentCallSid), Unquoted(if cl.legNumber == Leg1 then "1" else "2"),
     Quoted(cl.callFrom), Quoted(cl.callTo), Quoted(cl.status), Quoted(cl.direction),
     Unquoted(Decimal(cl.durationSec)), Unquoted(Decimal(cl.conversationDuration)),
     if cl.startTime.Some? then Quoted(stamp(cl.startTime.value)) else Unquoted("NULL"),
     if cl.endTime.Some? then Quoted(stamp(cl.endTime.value)) else Unquoted("NULL"),
     Quoted(cl.recordingUrl), Quoted(cl.leg1Status), Quoted(cl.leg2Status), Unquoted("NOW()")]
  }

  // The column list of the statement.
  const HEADER: seq<string> := [
    "transaction_id", "account_id", "exophone_id", "call_sid", "parent_call_sid", "leg_number",
    "call_from", "call_to", "status", "direction",
    "duration_sec", "conversation_duration", "start_time", "end_time", "recording_url",
    "leg1_status", "leg2_status", "created_at"]

  // What the table is to hold under a column name.
  function Field(cl: CallLog, name: string, stamp: Time -> string): Column {
    match name
    case "call_sid" => Quoted(cl.callSid)
    case "parent_call_sid" => Quoted(cl.parentCallSid)
    case "call_from" => Quoted(cl.callFrom)
    case "call_to" => Quoted(cl.callTo)
    case "status" => Quoted(cl.status)
    case "direction" => Quoted(cl.direction)
    case "leg_number" => Unquoted(if cl.legNumber == Leg1 then "1" else "2")
    case "leg1_status" => Quoted(cl.leg1Status)
    case "leg2_status" => Quoted(cl.leg2Status)
    case "duration_sec" => Unquoted(Decimal(cl.durationSec))
    case "conversation_duration" => Unquoted(Decimal(cl.conversationDuration))
    case "start_time" => if cl.startTime.Some? then Quoted(stamp(cl.startTime.value)) else Unquoted("NULL")
    case "end_time" => if cl.endTime.Some? then Quoted(stamp(cl.endTime.value)) else Unquoted("NULL")
    case "recording_url" => Quoted(cl.recordingUrl)
    case "transaction_id" => Quoted(cl.transactionId)
    case "account_id" => Unquoted(Decimal(cl.accountId))
    case "exophone_id" => Unquoted(Decimal(cl.exophoneId))
    case _ => Unquoted("NOW()")
  }

  // Every value stands under its own name in the column list.
  ghost predicate UnderOwnNames(cs: seq<Column>, cl: CallLog, stamp: Time -> string) {
    |cs| == |HEADER| && forall i :: 0 <= i < |HEADER| ==> cs[i] == Field(cl, HEADER[i], stamp)
  }

  lemma ColumnsFollowHeader(cl: CallLog, stamp: Time -> string)
    ensures UnderOwnNames(ColumnsOf(cl, stamp), cl, stamp)
  {
    hide Decimal;
  }

  function RowsOf(batch: seq<CallLog>, stamp: Time -> string): seq<seq<Column>> {
    seq(|batch|, i requires 0 <= i < |batch| => ColumnsOf(batch[i], stamp))
  }

  lemma {:induction false} UnquotedOkConcat(a: string, b: string)
    requires UnquotedOk(a, 0) && UnquotedOk(b, 0)
    requires forall c :: c in a ==> c != '(' && c != ')' && c != ','
    ensures UnquotedOk(a + b, 0)
  {
    if a == "" {
      assert a + b == b;
    } else {
      assert (a + b)[1..] == a[1..] + b;
      assert a[0] in a && forall c :: c in a[1..] ==> c in a;
      UnquotedOkConcat(a[1..], b);
    }
  }

  lemma {:induction false} DigitsArePlain(n: nat)
    ensures Digits(n) != ""
    ensures forall c :: c in Digits(n) ==> '0' <= c <= '9'
    ensures UnquotedOk(Digits(n), 0)
  {
    var last := [(n % 10 + '0' as int) as char];
    assert last[1..] == "";
    assert UnquotedOk(last, 0);
    if n >= 10 {
      DigitsArePlain(n / 10);
      UnquotedOkConcat(Digits(n / 10), last);
    }
  }

  lemma DecimalIsPrintable(n: int)
    ensures Printable(Unquoted(Decimal(n)))
  {
    if n < 0 {
      DigitsArePlain(-n);
      assert Decimal(n)[1..] == Digits(-n);
    } else {
      DigitsArePlain(n);
      assert Digits(n)[0] in Digits(n);
    }
  }

  lemma WordsArePrintable()
    ensures Printable(Unquoted("NULL")) && Printable(Unquoted("1")) && Printable(Unquoted("2")) && Printable(Unquoted("NOW()"))
  {
    assert "1"[1..] == "" && "2"[1..] == "";
    assert "NULL"[1..] == "ULL" && "ULL"[1..] == "LL" && "LL"[1..] == "L" && "L"[1..] == "";
    assert "NOW()"[1..] == "OW()" && "OW()"[1..] == "W()" && "W()"[1..] == "()" && "()"[1..] == ")" && ")"[1..] == "";
    assert UnquotedOk(")", 1) && UnquotedOk("()", 0);
    assert UnquotedOk("W()", 0) && UnquotedOk("OW()", 0);
    assert UnquotedOk("L", 0) && UnquotedOk("LL", 0) && UnquotedOk("ULL", 0);
  }

  // Every column of every row of a batch is read back from its printed form as it was.
  lemma PrintedRowsReadBack(batch: seq<CallLog>, stamp: Time -> string)
    requires batch != []
    ensures NonEmptyRows(RowsOf(batch, stamp))
    ensures ReadRows(PrintRows(RowsOf(batch, stamp))) == Some(RowsOf(batch, stamp))
  {
    hide Printable, ReadRows, Decimal;
    var rows := RowsOf(batch, stamp);
    forall i, c | 0 <= i < |rows| && c in rows[i] ensures Printable(c) {
      var cl := batch[i];
      DecimalIsPrintable(cl.accountId);
      DecimalIsPrintable(cl.exophoneId);
      DecimalIsPrintable(cl.durationSec);
      DecimalIsPrintable(cl.conversationDuration);
      WordsArePrintable();
      if c.Quoted? {
        QuotedIsPrintable(c.text);
      }
    }
    ValuesRoundTrip(rows);
  }

  lemma QuotedIsPrintable(text: string)
    ensures Printable(Quoted(text))
  {
  }

  // A text without quotes or backslashes needs no escaping.
  predicate IsPlain(text: string) {
    forall c :: c in text ==> c != QUOTE && c != BACKSLASH
  }

  lemma {:induction false} PlainTextIsPrintedAsIs(text: string)
    requires IsPlain(text)
    ensures MysqlEscape(text) == text
  {
    if text != "" {
      EscapeStep(text);
      assert text[0] in text && forall c :: c in text[1..] ==> c in text;
      assert text == [text[0]] + text[1..];
      PlainTextIsPrintedAsIs(text[1..]);
    }
  }

  // The cells as the statement is put together: texts escaped and quoted, times quoted only.
  function Escaped(text: string): string {
    [QUOTE] + MysqlEscape(text) + [QUOTE]
  }

  function StampText(t: Option<Time>, stamp: Time -> string): string {
    if t.Some? then [QUOTE] + stamp(t.value) + [QUOTE] else "NULL"
  }

  function PrintLog(cl: CallLog, stamp: Time -> string): string {
    "(" + Joined([
      Escaped(cl.transactionId), Decimal(cl.accountId), Decimal(cl.exophoneId), Escaped(cl.callSid),
      Escaped(cl.parentCallSid), if cl.legNumber == Leg1 then "1" else "2",
      Escaped(cl.callFrom), Escaped(cl.callTo),
      Escaped(cl.status), Escaped(cl.direction),
      Decimal(cl.durationSec), Decimal(cl.conversationDuration),
      StampText(cl.startTime, stamp), StampText(cl.endTime, stamp), Escaped(cl.recordingUrl),
      Escaped(cl.leg1Status), Escaped(cl.leg2Status), "NOW()"]) + ")"
  }

  const PREFIX := "INSERT IGNORE INTO call_logs (" + Joined(HEADER) + ") VALUES "

  // Leaving the escape out for times makes no difference to times without quotes.
  lemma PrintedLogIsItsRow(cl: CallLog, stamp: Time -> string)
    requires forall t :: IsPlain(stamp(t))
    ensures PrintLog(cl, stamp) == PrintRow(ColumnsOf(cl, stamp))
  {
    hide MysqlEscape, Decimal, Joined, PrintColumns;
    var cs := ColumnsOf(cl, stamp);
    ColumnsAreJoinedCells(cs);
    if cl.startTime.Some? {
      PlainTextIsPrintedAsIs(stamp(cl.startTime.value));
    }
    if cl.endTime.Some? {
      PlainTextIsPrintedAsIs(stamp(cl.endTime.value));
    }
    assert Cells(cs) == [
      Escaped(cl.transactionId), Decimal(cl.accountId), Decimal(cl.exophoneId), Escaped(cl.callSid),
      Escaped(cl.parentCallSid), if cl.legNumber == Leg1 then "1" else "2",
      Escaped(cl.callFrom), Escaped(cl.callTo),
      Escaped(cl.status), Escaped(cl.direction),
      Decimal(cl.durationSec), Decimal(cl.conversationDuration),
      StampText(cl.startTime, stamp), StampText(cl.endTime, stamp), Escaped(cl.recordingUrl),
      Escaped(cl.leg1Status), Escaped(cl.leg2Status), "NOW()"];
  }

  // The statement for any batch of logs carries exactly the batch: after its fixed beginning
  // the server reads every column of every row as it was, and under its own name. Times are
  // formatted without quotes.
  method BuildIgnoreInsert(batch: seq<CallLog>, stamp: Time -> string) returns (q: string)
    requires forall t :: IsPlain(stamp(t))
    ensures NonEmptyRows(RowsOf(batch, stamp)) && q == PREFIX + PrintRows(RowsOf(batch, stamp))
    ensures batch != [] ==> ReadRows(q[|PREFIX|..]) == Some(RowsOf(batch, stamp))
    ensures forall i :: 0 <= i < |batch| ==> UnderOwnNames(RowsOf(batch, stamp)[i], batch[i], stamp)
  {
    hide PrintLog, PrintRow, ReadRows, ColumnsOf, Joined;
    ghost var rows := RowsOf(batch, stamp);
    SomeColumns(batch, stamp);
    forall i | 0 <= i < |batch| ensures UnderOwnNames(rows[i], batch[i], stamp) {
      ColumnsFollowHeader(batch[i], stamp);
    }
    q := PREFIX;
    for i := 0 to |batch|
      invariant q == PREFIX + PrintRows(rows[..i])
    {
      assert rows[..i + 1][..i] == rows[..i];
      PrintedLogIsItsRow(batch[i], stamp);
      if i > 0 {
        q := q + ",";
      }
      q := q + PrintLog(batch[i], stamp);
    }
    assert rows[..|batch|] == rows;
    if batch != [] {
      PrintedRowsReadBack(batch, stamp);
      assert q[|PREFIX|..] == PrintRows(rows);
    }
  }

  lemma SomeColumns(batch: seq<CallLog>, stamp: Time -> string)
    ensures NonEmptyRows(RowsOf(batch, stamp))
  {
  }

  // ---- What the printed numbers say ----

  // The number that a text of decimal digits, with an optional sign, stands for.
  function ValueOf(text: string): int {
    if text == "" then 0
    else if text[0] == '-' then -ValueOfDigits(text[1..])
    else ValueOfDigits(text)
  }

  function ValueOfDigits(text: string): int {
    if text == "" then 0
    else 10 * ValueOfDigits(text[..|text| - 1]) + (text[|text| - 1] as int - '0' as int)
  }

  lemma {:induction false} DigitsReadBack(n: nat)
    ensures ValueOfDigits(Digits(n)) == n
  {
    var last := [(n % 10 + '0' as int) as char];
    if n < 10 {
      assert Digits(n) == last && last[..0] == "";
    } else {
      DigitsReadBack(n / 10);
      assert Digits(n)[..|Digits(n)| - 1] == Digits(n / 10);
    }
  }

  // Every printed number reads back as itself.
  lemma DecimalReadsBack(n: int)
    ensures ValueOf(Decimal(n)) == n
  {
    if n < 0 {
      DigitsReadBack(-n);
      assert Decimal(n)[1..] == Digits(-n);
    } else {
      DigitsReadBack(n);
      DigitsArePlain(n);
      assert Digits(n)[0] in Digits(n);
    }
  }
}
