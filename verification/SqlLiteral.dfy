// Printing call_logs rows into an INSERT IGNORE statement, and reading them back with the
// server's rules: MySQL Reference Manual, "String Literals", default backslash mode.
module SqlLiteral {
  import opened Text

  const BACKSLASH := '\\'
  const QUOTE := '\''

  // ---- Printing ----

  // Replacing every occurrence of a one-character pattern.
  function ReplaceAll(s: string, old_: char, new_: string): string {
    if s == "" then ""
    else (if s[0] == old_ then new_ else [s[0]]) + ReplaceAll(s[1..], old_, new_)
  }

  function MysqlEscape(s: string): string {
    ReplaceAll(ReplaceAll(s, BACKSLASH, [BACKSLASH, BACKSLASH]), QUOTE, [QUOTE, QUOTE])
  }

  // Text is quoted and escaped; numbers, NULL and NOW() are printed as they are.
  datatype Column = Quoted(text: string) | Unquoted(text: string)

  function PrintColumn(c: Column): string {
    match c
    case Quoted(text) => [QUOTE] + MysqlEscape(text) + [QUOTE]
    case Unquoted(text) => text
  }

  function PrintColumns(cs: seq<Column>): string
    requires cs != []
  {
    if |cs| == 1 then PrintColumn(cs[0]) else PrintColumn(cs[0]) + "," + PrintColumns(cs[1..])
  }

  function PrintRow(cs: seq<Column>): string
    requires cs != []
  {
    "(" + PrintColumns(cs) + ")"
  }

  ghost predicate NonEmptyRows(rows: seq<seq<Column>>) {
    forall i :: 0 <= i < |rows| ==> rows[i] != []
  }

  ghost function PrintRows(rows: seq<seq<Column>>): string
    requires NonEmptyRows(rows)
  {
    if rows == [] then ""
    else if |rows| == 1 then PrintRow(rows[0])
    else PrintRows(rows[..|rows| - 1]) + "," + PrintRow(rows[|rows| - 1])
  }

  // Texts separated by commas.
  function Joined(texts: seq<string>): string
    requires texts != []
  {
    if |texts| == 1 then texts[0] else texts[0] + "," + Joined(texts[1..])
  }

  function Cells(cs: seq<Column>): seq<string> {
    seq(|cs|, i requires 0 <= i < |cs| => PrintColumn(cs[i]))
  }

  lemma {:induction false} ColumnsAreJoinedCells(cs: seq<Column>)
    requires cs != []
    ensures PrintColumns(cs) == Joined(Cells(cs))
  {
    hide PrintColumn;
    if |cs| > 1 {
      ColumnsAreJoinedCells(cs[1..]);
      assert Cells(cs)[1..] == Cells(cs[1..]);
    }
  }

  // ---- Reading ----

  // What a backslash followed by this character stands for.
  function Unescape(c: char): string {
    match c
    case '0' => ['\0']
    case 'b' => [8 as char]
    case 'n' => ['\n']
    case 'r' => ['\r']
    case 't' => ['\t']
    case 'Z' => [26 as char]
    case '%' => [BACKSLASH, '%']
    case '_' => [BACKSLASH, '_']
    case _ => [c]
  }

  // The value of a literal whose opening quote has been read, and the text after its
  // closing quote; None when the literal is not closed.
  function ReadLiteral(t: string): (r: Option<(string, string)>)
    ensures r.Some? ==> |r.value.1| < |t|
  {
    if t == "" then None
    else if t[0] == BACKSLASH then
      if |t| < 2 then None else Prepend(Unescape(t[1]), ReadLiteral(t[2..]))
    else if t[0] == QUOTE then
      if |t| >= 2 && t[1] == QUOTE then Prepend([QUOTE], ReadLiteral(t[2..])) else Some(("", t[1..]))
    else Prepend([t[0]], ReadLiteral(t[1..]))
  }

  function Prepend(s: string, r: Option<(string, string)>): Option<(string, string)> {
    if r.None? then None else Some((s + r.value.0, r.value.1))
  }

  // The length of an unquoted expression: up to a comma or closing parenthesis of its own.
  function UnquotedLength(t: string, depth: nat): nat
    ensures UnquotedLength(t, depth) <= |t|
  {
    if t == "" then 0
    else if depth == 0 && (t[0] == ',' || t[0] == ')') then 0
    else if t[0] == '(' then 1 + UnquotedLength(t[1..], depth + 1)
    else if t[0] == ')' then 1 + UnquotedLength(t[1..], depth - 1)
    else 1 + UnquotedLength(t[1..], depth)
  }

  function ReadColumn(t: string): (r: Option<(Column, string)>)
    ensures r.Some? ==> |r.value.1| <= |t|
  {
    if t != "" && t[0] == QUOTE then
      var r := ReadLiteral(t[1..]);
      if r.None? then None else Some((Quoted(r.value.0), r.value.1))
    else
      var n := UnquotedLength(t, 0);
      Some((Unquoted(t[..n]), t[n..]))
  }

  // The columns of a row whose opening parenthesis has been read, and the text after it.
  function ReadColumns(t: string): (r: Option<(seq<Column>, string)>)
    ensures r.Some? ==> |r.value.1| < |t|
    decreases |t|
  {
    var first := ReadColumn(t);
    if first.None? then None
    else
      var rest := first.value.1;
      if rest != "" && rest[0] == ')' then Some(([first.value.0], rest[1..]))
      else if rest != "" && rest[0] == ',' then
        var others := ReadColumns(rest[1..]);
        if others.None? then None else Some(([first.value.0] + others.value.0, others.value.1))
      else None
  }

  // All rows of a VALUES list.
  function ReadRows(t: string): Option<seq<seq<Column>>>
    decreases |t|
  {
    if t == "" || t[0] != '(' then None
    else
      var row := ReadColumns(t[1..]);
      if row.None? then None
      else if row.value.1 == "" then Some([row.value.0])
      else if row.value.1[0] == ',' then
        var others := ReadRows(row.value.1[1..]);
        if others.None? then None else Some([row.value.0] + others.value)
      else None
  }

  // ---- The escape ----

  function EscapeChar(c: char): string {
    if c == BACKSLASH then [BACKSLASH, BACKSLASH] else if c == QUOTE then [QUOTE, QUOTE] else [c]
  }

  lemma {:induction false} ReplaceAllConcat(a: string, b: string, old_: char, new_: string)
    ensures ReplaceAll(a + b, old_, new_) == ReplaceAll(a, old_, new_) + ReplaceAll(b, old_, new_)
  {
    if a == "" {
      assert a + b == b;
    } else {
      ReplaceAllConcat(a[1..], b, old_, new_);
      assert (a + b)[1..] == a[1..] + b && (a + b)[0] == a[0];
      var head := if a[0] == old_ then new_ else [a[0]];
      Associates(head, ReplaceAll(a[1..], old_, new_), ReplaceAll(b, old_, new_));
    }
  }

  lemma Associates(a: string, b: string, c: string)
    ensures (a + b) + c == a + (b + c)
  {
  }

  // The two ordered replacements are one per-character map, in either order.
  lemma EscapeStep(s: string)
    requires s != ""
    ensures MysqlEscape(s) == EscapeChar(s[0]) + MysqlEscape(s[1..])
    ensures ReplaceAll(ReplaceAll(s, QUOTE, [QUOTE, QUOTE]), BACKSLASH, [BACKSLASH, BACKSLASH])
         == EscapeChar(s[0]) + ReplaceAll(ReplaceAll(s[1..], QUOTE, [QUOTE, QUOTE]), BACKSLASH, [BACKSLASH, BACKSLASH])
  {
    var slashed := if s[0] == BACKSLASH then [BACKSLASH, BACKSLASH] else [s[0]];
    ReplaceAllConcat(slashed, ReplaceAll(s[1..], BACKSLASH, [BACKSLASH, BACKSLASH]), QUOTE, [QUOTE, QUOTE]);
    ReplaceOne(slashed, QUOTE, [QUOTE, QUOTE]);
    var doubled := if s[0] == QUOTE then [QUOTE, QUOTE] else [s[0]];
    ReplaceAllConcat(doubled, ReplaceAll(s[1..], QUOTE, [QUOTE, QUOTE]), BACKSLASH, [BACKSLASH, BACKSLASH]);
    ReplaceOne(doubled, BACKSLASH, [BACKSLASH, BACKSLASH]);
  }

  // On whole texts: the order of the two replacements does not matter, and together they
  // replace each character on its own.
  lemma {:induction false} ReplacementsCommute(s: string)
    ensures MysqlEscape(s) == ReplaceAll(ReplaceAll(s, QUOTE, [QUOTE, QUOTE]), BACKSLASH, [BACKSLASH, BACKSLASH])
    ensures MysqlEscape(s) == EscapeEach(s)
  {
    if s != "" {
      EscapeStep(s);
      ReplacementsCommute(s[1..]);
    }
  }

  function EscapeEach(s: string): string {
    if s == "" then "" else EscapeChar(s[0]) + EscapeEach(s[1..])
  }

  lemma ReplaceOne(s: string, old_: char, new_: string)
    requires 1 <= |s| <= 2
    ensures |s| == 1 ==> ReplaceAll(s, old_, new_) == if s[0] == old_ then new_ else s
    ensures |s| == 2 && s[0] != old_ && s[1] != old_ ==> ReplaceAll(s, old_, new_) == s
  {
    assert s[1..] == "" || (s[1..] == [s[1]] && s[1..][1..] == "");
    assert ReplaceAll("", old_, new_) == "";
    if |s| == 2 {
      assert ReplaceAll(s[1..], old_, new_) == (if s[1] == old_ then new_ else [s[1]]) + "";
    }
  }

  lemma ReadEscapedChar(c: char, tail: string)
    ensures ReadLiteral(EscapeChar(c) + tail) == Prepend([c], ReadLiteral(tail))
  {
    var t := EscapeChar(c) + tail;
    if c == BACKSLASH || c == QUOTE {
      assert t[2..] == tail;
    } else {
      assert t[1..] == tail;
    }
  }

  // Reading a quoted, escaped text returns exactly that text and stops at its own closing
  // quote, whatever follows other than another quote.
  lemma {:induction false} LiteralRoundTrip(s: string, suffix: string)
    requires suffix == "" || suffix[0] != QUOTE
    ensures ReadLiteral(MysqlEscape(s) + [QUOTE] + suffix) == Some((s, suffix))
  {
    hide MysqlEscape, ReadLiteral, EscapeChar;
    if s == "" {
      ReadClosingQuote(suffix);
    } else {
      EscapeStep(s);
      LiteralRoundTrip(s[1..], suffix);
      var head, rest := EscapeChar(s[0]), MysqlEscape(s[1..]);
      ReadEscapedChar(s[0], rest + [QUOTE] + suffix);
      assert head + rest + [QUOTE] + suffix == head + (rest + [QUOTE] + suffix);
      assert s == [s[0]] + s[1..];
    }
  }

  lemma ReadClosingQuote(suffix: string)
    requires suffix == "" || suffix[0] != QUOTE
    ensures ReadLiteral(MysqlEscape("") + [QUOTE] + suffix) == Some(("", suffix))
  {
    assert MysqlEscape("") == "";
    assert (MysqlEscape("") + [QUOTE] + suffix)[1..] == suffix;
  }

  // ---- The whole VALUES list ----

  // An unquoted expression that the reader takes as one: it does not start with a quote
  // and has no comma or closing parenthesis of its own.
  predicate UnquotedOk(text: string, depth: nat) {
    if text == "" then depth == 0
    else if text[0] == '(' then UnquotedOk(text[1..], depth + 1)
    else if text[0] == ')' then depth > 0 && UnquotedOk(text[1..], depth - 1)
    else (depth > 0 || text[0] != ',') && UnquotedOk(text[1..], depth)
  }

  predicate Printable(c: Column) {
    c.Unquoted? ==> (c.text == "" || c.text[0] != QUOTE) && UnquotedOk(c.text, 0)
  }

  lemma {:induction false} UnquotedStops(text: string, depth: nat, suffix: string)
    requires UnquotedOk(text, depth)
    requires suffix != "" && (suffix[0] == ',' || suffix[0] == ')')
    ensures UnquotedLength(text + suffix, depth) == |text|
  {
    var t := text + suffix;
    if text == "" {
      assert t == suffix;
    } else {
      assert t[1..] == text[1..] + suffix;
      if text[0] == '(' {
        UnquotedStops(text[1..], depth + 1, suffix);
      } else if text[0] == ')' {
        UnquotedStops(text[1..], depth - 1, suffix);
      } else {
        UnquotedStops(text[1..], depth, suffix);
      }
    }
  }

  lemma ColumnRoundTrip(c: Column, suffix: string)
    requires Printable(c)
    requires suffix != "" && (suffix[0] == ',' || suffix[0] == ')')
    ensures ReadColumn(PrintColumn(c) + suffix) == Some((c, suffix))
  {
    var t := PrintColumn(c) + suffix;
    match c
    case Quoted(text) =>
      assert t[1..] == MysqlEscape(text) + [QUOTE] + suffix;
      LiteralRoundTrip(text, suffix);
    case Unquoted(text) =>
      UnquotedStops(text, 0, suffix);
      assert t[..|text|] == text && t[|text|..] == suffix;
  }

  lemma {:induction false} RowRoundTrip(cs: seq<Column>, suffix: string)
    requires cs != [] && forall c :: c in cs ==> Printable(c)
    ensures ReadColumns(PrintColumns(cs) + ")" + suffix) == Some((cs, suffix))
  {
    hide ReadColumn, PrintColumn;
    var t := PrintColumns(cs) + ")" + suffix;
    if |cs| == 1 {
      assert t == PrintColumn(cs[0]) + (")" + suffix);
      ColumnRoundTrip(cs[0], ")" + suffix);
      assert (")" + suffix)[1..] == suffix;
      assert cs == [cs[0]];
    } else {
      var tail := PrintColumns(cs[1..]) + ")" + suffix;
      assert t == PrintColumn(cs[0]) + ("," + tail);
      ColumnRoundTrip(cs[0], "," + tail);
      assert ("," + tail)[1..] == tail;
      RowRoundTrip(cs[1..], suffix);
      assert [cs[0]] + cs[1..] == cs;
    }
  }

  // Every batch of rows is read back column for column: no text value, however it mixes
  // quotes, backslashes, commas and parentheses, reaches beyond its own column.
  lemma {:induction false} ValuesRoundTrip(rows: seq<seq<Column>>)
    requires NonEmptyRows(rows) && rows != []
    requires forall i :: 0 <= i < |rows| ==> forall c :: c in rows[i] ==> Printable(c)
    ensures ReadRows(PrintRows(rows)) == Some(rows)
  {
    hide ReadColumns, PrintColumns, Printable, ReadRows, PrintRow;
    var row, rest := rows[0], rows[1..];
    if rest == [] {
      assert rows == [row];
      ReadOneRow(row, "");
    } else {
      assert rows == [row] + rest;
      ValuesRoundTrip(rest);
      PrintRowsCons(row, rest);
      ReadOneRow(row, PrintRows(rest));
    }
  }

  lemma ReadOneRow(row: seq<Column>, others: string)
    requires row != [] && forall c :: c in row ==> Printable(c)
    ensures ReadRows(PrintRow(row)) == Some([row])
    ensures ReadRows(PrintRow(row) + ("," + others))
         == if ReadRows(others).None? then None else Some([row] + ReadRows(others).value)
  {
    hide ReadColumns, PrintColumns, Printable;
    var suffix := "," + others;
    assert PrintRow(row)[1..] == PrintColumns(row) + ")" + "";
    RowRoundTrip(row, "");
    assert (PrintRow(row) + suffix)[1..] == PrintColumns(row) + ")" + suffix;
    RowRoundTrip(row, suffix);
    assert suffix[1..] == others;
  }

  lemma {:induction false} PrintRowsCons(row: seq<Column>, rest: seq<seq<Column>>)
    requires row != [] && NonEmptyRows(rest) && rest != []
    ensures NonEmptyRows([row] + rest)
    ensures PrintRows([row] + rest) == PrintRow(row) + ("," + PrintRows(rest))
    decreases |rest|
  {
    var all, front := [row] + rest, rest[..|rest| - 1];
    assert all[..|all| - 1] == [row] + front;
    if front == [] {
      assert [row] + front == [row];
    } else {
      PrintRowsCons(row, front);
    }
  }
}
