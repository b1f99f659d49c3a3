// The nested Leg1Status -> Leg2Status -> count map, its stored text form and its merges.
module Breakdowns {

  type Row = map<string, int>
  type Breakdown = map<string, Row>

  // The stored column: empty, the encoding of a map, or text that does not decode.
  datatype Json = EmptyText | Encoded(value: Breakdown) | Malformed

  // What a reader makes of the column; a decoding error leaves nothing.
  function Decode(text: Json): Breakdown {
    if text.Encoded? then text.value else map[]
  }

  function LegBreakdownJSON(b: Breakdown): Json {
    if |b| == 0 then EmptyText else Encoded(b)
  }

  function Get(m: Row, k: string): int {
    if k in m then m[k] else 0
  }

  function RowAt(b: Breakdown, l1: string): Row {
    if l1 in b then b[l1] else map[]
  }

  function Cell(b: Breakdown, l1: string, l2: string): int {
    Get(RowAt(b, l1), l2)
  }

  function PlusRow(a: Row, b: Row): Row {
    map k | k in a.Keys + b.Keys :: Get(a, k) + Get(b, k)
  }

  function Plus(a: Breakdown, b: Breakdown): Breakdown {
    map l1 | l1 in a.Keys + b.Keys :: PlusRow(RowAt(a, l1), RowAt(b, l1))
  }

  function BumpRow(m: Row, k: string): Row {
    m[k := Get(m, k) + 1]
  }

  // One more call with this pair of leg statuses.
  function Bump(b: Breakdown, l1: string, l2: string): Breakdown {
    b[l1 := BumpRow(RowAt(b, l1), l2)]
  }

  // ---- Merging ----

  method AddRow(base: Row, extra: Row) returns (row: Row)
    ensures row == PlusRow(base, extra)
  {
    row := base;
    var todo := extra.Keys;
    while todo != {}
      invariant todo <= extra.Keys
      invariant row.Keys == base.Keys + (extra.Keys - todo)
      invariant forall k :: k in row ==> row[k] == Get(base, k) + if k in todo then 0 else Get(extra, k)
    {
      var l2 :| l2 in todo;
      row := row[l2 := Get(row, l2) + extra[l2]];
      todo := todo - {l2};
    }
  }

  method AddInto(base: Breakdown, extra: Breakdown) returns (merged: Breakdown)
    ensures merged == Plus(base, extra)
  {
    merged := base;
    var todo := extra.Keys;
    while todo != {}
      invariant todo <= extra.Keys
      invariant merged.Keys == base.Keys + (extra.Keys - todo)
      invariant forall l1 :: l1 in merged ==>
        merged[l1] == if l1 in todo then RowAt(base, l1) else PlusRow(RowAt(base, l1), RowAt(extra, l1))
    {
      var l1 :| l1 in todo;
      PlusRowZero(RowAt(merged, l1));
      var row := AddRow(RowAt(merged, l1), extra[l1]);
      merged := merged[l1 := row];
      todo := todo - {l1};
    }
    forall l1 | l1 in base && l1 !in extra ensures merged[l1] == Plus(base, extra)[l1] {
      PlusRowZero(base[l1]);
    }
  }

  // Both columns are decoded and summed; a column that does not decode contributes nothing.
  method MergeLegBreakdown(existing: Json, incoming: Json) returns (merged: Json)
    ensures merged == MergedTexts(existing, incoming)
  {
    var sum: Breakdown := map[];
    var texts, i := [existing, incoming], 0;
    while i < 2
      invariant 0 <= i <= 2
      invariant i == 0 ==> sum == map[]
      invariant i == 1 ==> sum == Decode(existing)
      invariant i == 2 ==> sum == Plus(Decode(existing), Decode(incoming))
    {
      PlusZero(sum);
      PlusZero(Decode(texts[i]));
      PlusCommutes(sum, Decode(texts[i]));
      if texts[i].Encoded? {
        sum := AddInto(sum, texts[i].value);
      }
      i := i + 1;
    }
    merged := LegBreakdownJSON(sum);
  }

  // The same merge when the incoming side is still a map. Nothing incoming leaves the
  // stored text alone, even text that does not decode.
  function Merged(existing: Json, incoming: Breakdown): Json {
    if |incoming| == 0 then existing else LegBreakdownJSON(Plus(Decode(existing), incoming))
  }

  method MergeWithBreakdownMap(existing: Json, incoming: Breakdown) returns (merged: Json)
    ensures merged == Merged(existing, incoming)
  {
    if |incoming| == 0 {
      return existing;
    }
    var sum: Breakdown := map[];
    if existing.Encoded? {
      sum := existing.value;
    }
    sum := AddInto(sum, incoming);
    merged := LegBreakdownJSON(sum);
  }

  // ---- The algebra of the merge ----

  lemma PlusRowZero(a: Row)
    ensures PlusRow(a, map[]) == a && PlusRow(map[], a) == a
  {
  }

  lemma PlusZero(a: Breakdown)
    ensures Plus(a, map[]) == a && Plus(map[], a) == a
  {
    forall l1 | l1 in a ensures PlusRow(a[l1], map[]) == a[l1] && PlusRow(map[], a[l1]) == a[l1] {
      PlusRowZero(a[l1]);
    }
  }

  lemma RowAtPlus(a: Breakdown, b: Breakdown, l1: string)
    ensures RowAt(Plus(a, b), l1) == PlusRow(RowAt(a, l1), RowAt(b, l1))
  {
    PlusRowZero(map[]);
  }

  // Breakdowns with the same keys and the same rows are equal.
  lemma SameRows(a: Breakdown, b: Breakdown)
    requires a.Keys == b.Keys
    requires forall l1 :: RowAt(a, l1) == RowAt(b, l1)
    ensures a == b
  {
    forall l1 | l1 in a ensures a[l1] == b[l1] {
      assert RowAt(a, l1) == RowAt(b, l1);
    }
  }

  lemma PlusRowCommutes(x: Row, y: Row)
    ensures PlusRow(x, y) == PlusRow(y, x)
  {
  }

  lemma PlusRowAssociates(x: Row, y: Row, z: Row)
    ensures PlusRow(PlusRow(x, y), z) == PlusRow(x, PlusRow(y, z))
  {
    var l, r := PlusRow(PlusRow(x, y), z), PlusRow(x, PlusRow(y, z));
    assert l.Keys == r.Keys;
    forall k | k in l ensures l[k] == r[k] {
      assert Get(PlusRow(x, y), k) == Get(x, k) + Get(y, k);
      assert Get(PlusRow(y, z), k) == Get(y, k) + Get(z, k);
    }
  }

  lemma PlusCommutes(a: Breakdown, b: Breakdown)
    ensures Plus(a, b) == Plus(b, a)
  {
    forall l1 ensures RowAt(Plus(a, b), l1) == RowAt(Plus(b, a), l1) {
      RowAtPlus(a, b, l1);
      RowAtPlus(b, a, l1);
      PlusRowCommutes(RowAt(a, l1), RowAt(b, l1));
    }
    SameRows(Plus(a, b), Plus(b, a));
  }

  lemma PlusAssociates(a: Breakdown, b: Breakdown, c: Breakdown)
    ensures Plus(Plus(a, b), c) == Plus(a, Plus(b, c))
  {
    var l, r := Plus(Plus(a, b), c), Plus(a, Plus(b, c));
    assert l.Keys == r.Keys == a.Keys + b.Keys + c.Keys;
    forall l1 ensures RowAt(l, l1) == RowAt(r, l1) {
      RowAtPlus(Plus(a, b), c, l1);
      RowAtPlus(a, b, l1);
      RowAtPlus(a, Plus(b, c), l1);
      RowAtPlus(b, c, l1);
      PlusRowAssociates(RowAt(a, l1), RowAt(b, l1), RowAt(c, l1));
    }
    SameRows(l, r);
  }

  // Merging is addition of every cell; this is what the merged text means to a reader.
  lemma PlusCells(a: Breakdown, b: Breakdown, l1: string, l2: string)
    ensures Cell(Plus(a, b), l1, l2) == Cell(a, l1, l2) + Cell(b, l1, l2)
  {
    if l1 in Plus(a, b) {
      assert RowAt(Plus(a, b), l1) == PlusRow(RowAt(a, l1), RowAt(b, l1));
    }
  }

  // What MergeLegBreakdown writes.
  function MergedTexts(existing: Json, incoming: Json): Json {
    LegBreakdownJSON(Plus(Decode(existing), Decode(incoming)))
  }

  lemma DecodesBack(b: Breakdown)
    ensures Decode(LegBreakdownJSON(b)) == b
  {
    if |b| == 0 {
      assert b == map[];
    }
  }

  // On stored text: the merge does not depend on order or grouping, the empty column is
  // its identity, and every cell reads back as the sum, whether or not the columns decode.
  lemma MergeAlgebra(a: Json, b: Json, c: Json)
    ensures MergedTexts(a, b) == MergedTexts(b, a)
    ensures MergedTexts(MergedTexts(a, b), c) == MergedTexts(a, MergedTexts(b, c))
    ensures Decode(MergedTexts(a, EmptyText)) == Decode(a) == Decode(MergedTexts(EmptyText, a))
    ensures forall l1, l2 ::
      Cell(Decode(MergedTexts(a, b)), l1, l2) == Cell(Decode(a), l1, l2) + Cell(Decode(b), l1, l2)
  {
    var x, y, z := Decode(a), Decode(b), Decode(c);
    PlusCommutes(x, y);
    PlusAssociates(x, y, z);
    PlusZero(x);
    DecodesBack(Plus(x, y));
    DecodesBack(Plus(y, z));
    DecodesBack(x);
    forall l1, l2 ensures Cell(Plus(x, y), l1, l2) == Cell(x, l1, l2) + Cell(y, l1, l2) {
      PlusCells(x, y, l1, l2);
    }
  }

  // The shortcut that skips encoding the incoming map reads back the same as the full
  // merge, and leaves a different text exactly when nothing comes in and the stored
  // text is either undecodable or an encoded empty map.
  lemma ShortcutAgrees(existing: Json, incoming: Breakdown)
    ensures var full := MergedTexts(existing, LegBreakdownJSON(incoming));
      && Decode(Merged(existing, incoming)) == Decode(full)
      && (Merged(existing, incoming) == full
          <==> |incoming| > 0 || (existing != Malformed && existing != Encoded(map[])))
  {
    PlusZero(Decode(existing));
    DecodesBack(incoming);
    DecodesBack(Decode(existing));
    if |incoming| == 0 {
      assert incoming == map[];
    }
  }

  lemma PlusRowBump(x: Row, y: Row, k: string)
    ensures PlusRow(x, BumpRow(y, k)) == BumpRow(PlusRow(x, y), k)
  {
  }

  lemma RowAtBump(b: Breakdown, l1: string, l2: string, k: string)
    ensures RowAt(Bump(b, l1, l2), k) == if k == l1 then BumpRow(RowAt(b, k), l2) else RowAt(b, k)
  {
  }

  lemma PlusBump(a: Breakdown, b: Breakdown, l1: string, l2: string)
    ensures Plus(a, Bump(b, l1, l2)) == Bump(Plus(a, b), l1, l2)
  {
    var p, q := Plus(a, Bump(b, l1, l2)), Bump(Plus(a, b), l1, l2);
    assert p.Keys == q.Keys == a.Keys + b.Keys + {l1};
    forall k ensures RowAt(p, k) == RowAt(q, k) {
      RowAtPlus(a, Bump(b, l1, l2), k);
      RowAtPlus(a, b, k);
      RowAtBump(b, l1, l2, k);
      RowAtBump(Plus(a, b), l1, l2, k);
      PlusRowBump(RowAt(a, l1), RowAt(b, l1), l2);
    }
    SameRows(p, q);
  }

  // ---- Marginals ----

  ghost function SumOver(m: Row, ks: set<string>): int {
    if ks == {} then 0
    else
      var k :| k in ks;
      Get(m, k) + SumOver(m, ks - {k})
  }

  ghost function Sum(m: Row): int {
    SumOver(m, m.Keys)
  }

  // The sum does not depend on the order in which keys are taken.
  lemma {:induction false} SumTakes(m: Row, ks: set<string>, k: string)
    requires k in ks
    ensures SumOver(m, ks) == Get(m, k) + SumOver(m, ks - {k})
    decreases |ks|
  {
    var j :| j in ks && SumOver(m, ks) == Get(m, j) + SumOver(m, ks - {j});
    if j != k {
      SumTakes(m, ks - {j}, k);
      SumTakes(m, ks - {k}, j);
      assert ks - {j} - {k} == ks - {k} - {j};
    }
  }

  lemma {:induction false} SumAgrees(m: Row, n: Row, ks: set<string>)
    requires forall k :: k in ks ==> Get(m, k) == Get(n, k)
    ensures SumOver(m, ks) == SumOver(n, ks)
  {
    if ks != {} {
      var k :| k in ks;
      SumTakes(m, ks, k);
      SumTakes(n, ks, k);
      SumAgrees(m, n, ks - {k});
    }
  }

  // Keys outside the map add nothing.
  lemma {:induction false} SumPads(m: Row, ks: set<string>)
    requires m.Keys <= ks
    ensures SumOver(m, ks) == Sum(m)
    decreases |ks|
  {
    if ks != m.Keys {
      var k :| k in ks && k !in m;
      SumTakes(m, ks, k);
      SumPads(m, ks - {k});
    }
  }

  lemma {:induction false} SumOverPlus(a: Row, b: Row, ks: set<string>)
    ensures SumOver(PlusRow(a, b), ks) == SumOver(a, ks) + SumOver(b, ks)
  {
    if ks != {} {
      var k :| k in ks;
      SumTakes(a, ks, k);
      SumTakes(b, ks, k);
      SumTakes(PlusRow(a, b), ks, k);
      SumOverPlus(a, b, ks - {k});
    }
  }

  lemma SumPlus(a: Row, b: Row)
    ensures Sum(PlusRow(a, b)) == Sum(a) + Sum(b)
  {
    assert PlusRow(a, b).Keys == a.Keys + b.Keys;
    SumOverPlus(a, b, a.Keys + b.Keys);
    SumPads(a, a.Keys + b.Keys);
    SumPads(b, a.Keys + b.Keys);
  }

  lemma SumUpdate(m: Row, k: string, v: int)
    ensures Sum(m[k := v]) == Sum(m) - Get(m, k) + v
  {
    var ks := m.Keys + {k};
    assert m[k := v].Keys == ks;
    SumTakes(m[k := v], ks, k);
    SumTakes(m, ks, k);
    SumAgrees(m[k := v], m, ks - {k});
    SumPads(m, ks);
  }

  // Row sums, column entries and their totals.
  ghost function RowTotals(b: Breakdown): Row {
    map l1 | l1 in b :: Sum(b[l1])
  }

  ghost function Column(b: Breakdown, l2: string): Row {
    map l1 | l1 in b :: Get(b[l1], l2)
  }

  ghost function RowTotal(b: Breakdown, l1: string): int {
    Sum(RowAt(b, l1))
  }

  ghost function ColumnTotal(b: Breakdown, l2: string): int {
    Sum(Column(b, l2))
  }

  ghost function GrandTotal(b: Breakdown): int {
    Sum(RowTotals(b))
  }

  lemma TotalsOfNothing()
    ensures GrandTotal(map[]) == 0
    ensures forall k :: RowTotal(map[], k) == 0 && ColumnTotal(map[], k) == 0
  {
    assert RowTotals(map[]) == map[];
    assert forall k :: Column(map[], k) == map[];
  }

  lemma TotalsAfterBump(b: Breakdown, l1: string, l2: string)
    ensures GrandTotal(Bump(b, l1, l2)) == GrandTotal(b) + 1
    ensures forall k :: RowTotal(Bump(b, l1, l2), k) == RowTotal(b, k) + if k == l1 then 1 else 0
    ensures forall k :: ColumnTotal(Bump(b, l1, l2), k) == ColumnTotal(b, k) + if k == l2 then 1 else 0
  {
    var after := Bump(b, l1, l2);
    SumUpdate(RowAt(b, l1), l2, Cell(b, l1, l2) + 1);
    forall k ensures RowTotal(after, k) == RowTotal(b, k) + if k == l1 then 1 else 0 {
      RowAtBump(b, l1, l2, k);
    }
    RowTotalsAt(b, l1);
    assert RowTotals(after) == RowTotals(b)[l1 := RowTotal(b, l1) + 1] by {
      assert RowTotal(after, l1) == RowTotal(b, l1) + 1;
    }
    SumUpdate(RowTotals(b), l1, RowTotal(b, l1) + 1);
    forall k ensures ColumnTotal(after, k) == ColumnTotal(b, k) + if k == l2 then 1 else 0 {
      ColumnAfterBump(b, l1, l2, k);
    }
  }

  lemma RowTotalsAt(b: Breakdown, l1: string)
    ensures Get(RowTotals(b), l1) == RowTotal(b, l1)
  {
  }

  lemma ColumnAfterBump(b: Breakdown, l1: string, l2: string, k: string)
    ensures ColumnTotal(Bump(b, l1, l2), k) == ColumnTotal(b, k) + if k == l2 then 1 else 0
  {
    var v := Cell(b, l1, k) + if k == l2 then 1 else 0;
    assert Get(BumpRow(RowAt(b, l1), l2), k) == v;
    assert Column(Bump(b, l1, l2), k) == Column(b, k)[l1 := v];
    SumUpdate(Column(b, k), l1, v);
  }

  // Merging adds every row total, every column total and the grand total.
  lemma TotalsAfterPlus(a: Breakdown, b: Breakdown)
    ensures GrandTotal(Plus(a, b)) == GrandTotal(a) + GrandTotal(b)
    ensures forall k :: RowTotal(Plus(a, b), k) == RowTotal(a, k) + RowTotal(b, k)
    ensures forall k :: ColumnTotal(Plus(a, b), k) == ColumnTotal(a, k) + ColumnTotal(b, k)
  {
    forall k ensures RowTotal(Plus(a, b), k) == RowTotal(a, k) + RowTotal(b, k) {
      RowTotalIsSum(a, b, k);
    }
    RowTotalsOfPlus(a, b);
    SumPlus(RowTotals(a), RowTotals(b));
    forall k ensures ColumnTotal(Plus(a, b), k) == ColumnTotal(a, k) + ColumnTotal(b, k) {
      ColumnOfPlus(a, b, k);
      SumPlus(Column(a, k), Column(b, k));
    }
  }

  lemma RowTotalsOfPlus(a: Breakdown, b: Breakdown)
    ensures RowTotals(Plus(a, b)) == PlusRow(RowTotals(a), RowTotals(b))
  {
    forall k ensures Get(RowTotals(Plus(a, b)), k) == Get(RowTotals(a), k) + Get(RowTotals(b), k) {
      hide *;
      RowTotalsAt(a, k);
      RowTotalsAt(b, k);
      RowTotalsAt(Plus(a, b), k);
      RowTotalIsSum(a, b, k);
    }
    PlusRowCells(RowTotals(a), RowTotals(b));
    RowTotalsKeys(a, b);
    hide *;
    SameCells(RowTotals(Plus(a, b)), PlusRow(RowTotals(a), RowTotals(b)));
  }

  lemma PlusRowCells(x: Row, y: Row)
    ensures forall k :: Get(PlusRow(x, y), k) == Get(x, k) + Get(y, k)
  {
  }

  lemma RowTotalsKeys(a: Breakdown, b: Breakdown)
    ensures RowTotals(Plus(a, b)).Keys == PlusRow(RowTotals(a), RowTotals(b)).Keys
  {
    hide Sum;
  }

  lemma RowTotalIsSum(a: Breakdown, b: Breakdown, k: string)
    ensures RowTotal(Plus(a, b), k) == RowTotal(a, k) + RowTotal(b, k)
  {
    RowAtPlus(a, b, k);
    SumPlus(RowAt(a, k), RowAt(b, k));
  }

  lemma SameCells(m: Row, n: Row)
    requires m.Keys == n.Keys
    requires forall k :: Get(m, k) == Get(n, k)
    ensures m == n
  {
    forall k | k in m ensures m[k] == n[k] {
      assert Get(m, k) == Get(n, k);
    }
  }

  lemma ColumnOfPlus(a: Breakdown, b: Breakdown, l2: string)
    ensures Column(Plus(a, b), l2) == PlusRow(Column(a, l2), Column(b, l2))
  {
    var l, r := Column(Plus(a, b), l2), PlusRow(Column(a, l2), Column(b, l2));
    assert l.Keys == r.Keys == a.Keys + b.Keys;
    forall k | k in l ensures l[k] == r[k] {
      PlusCells(a, b, k, l2);
      assert l[k] == Cell(Plus(a, b), k, l2);
    }
  }
}
