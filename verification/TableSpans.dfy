/** The spans found in a page with well-nested tables: in order, apart, and inside each
    other as the elements are. */
module TableSpans {
  import opened Text
  import opened Tables

  // Well-nested pages

  predicate FitsTable(p: Parser, t: Token) {
    && (t.Is(EndTag, "table") ==> p.row.None? && !p.inHead && !p.inBody)
  }

  predicate FitsGroup(p: Parser, t: Token)
    requires p.tables != []
  {
    && (t.name == "thead" ==>
          && p.row.None? && t.kind != SelfClosingTag && !p.inBody
          && (t.kind == StartTag ==>
                !p.inHead && Current(p.tables).head.None? && Current(p.tables).rows == [] && Current(p.tables).bodyEnd == 0))
    && (t.Is(StartTag, "tbody") ==> p.row.None? && !p.inHead && !p.inBody && Current(p.tables).rows == [] && Current(p.tables).bodyEnd == 0)
    && (t.Is(EndTag, "tbody") ==> p.row.None? && p.inBody)
  }

  predicate FitsRow(p: Parser, t: Token) {
    && (t.Is(StartTag, "tr") ==> p.row.None? && p.cell == NoCell)
    && (t.Is(EndTag, "tr") ==> p.cell == NoCell)
    && (t.IsCell() && t.kind == StartTag ==> p.cell == NoCell)
  }

  /** The token may follow: one thead before one closed tbody, rows and cells closed
      before the next one begins. Tables inside cells may look as they like. */
  predicate Fits(p: Parser, t: Token) {
    IsToken(t) && (t.IsTag() && p.depth == 1 && p.tables != [] ==> FitsTable(p, t) && FitsGroup(p, t) && FitsRow(p, t))
  }

  predicate WellNested(p: Parser, tokens: seq<Token>)
    decreases |tokens|
  {
    tokens != [] ==> Fits(p, tokens[0]) && WellNested(Step(p, tokens[0]), tokens[1..])
  }

  // Spans in order

  predicate CellOk(c: Cell, lo: int, hi: int) {
    lo <= c.start < c.openEnd <= c.end <= hi
  }

  predicate CellsOk(cells: seq<Cell>, lo: int, hi: int) {
    && (forall i | 0 <= i < |cells| :: CellOk(cells[i], lo, hi))
    && forall i, j | 0 <= i < j < |cells| :: cells[i].end <= cells[j].start
  }

  /** Room for <tr> in front of the cells and for </tr> behind them. */
  predicate RowOk(r: Row) {
    r.start + 9 <= r.end && CellsOk(r.cells, r.start + 4, r.end - 5)
  }

  predicate OpenRowOk(r: Row, inCell: bool, pos: nat) {
    && r.start + 4 <= pos
    && if !inCell then CellsOk(r.cells, r.start + 4, pos)
       else
         && r.cells != []
         && var n := |r.cells| - 1;
            CellsOk(r.cells[..n], r.start + 4, r.cells[n].start) && r.start + 4 <= r.cells[n].start < r.cells[n].openEnd <= pos
  }

  predicate RowsOk(rows: seq<Row>, lo: int, hi: int) {
    && (forall i | 0 <= i < |rows| :: RowOk(rows[i]) && lo <= rows[i].start && rows[i].end <= hi)
    && forall i, j | 0 <= i < j < |rows| :: rows[i].end <= rows[j].start
  }

  function HeadEnd(t: Table): nat {
    if t.head.Some? then t.head.value.end else 0
  }

  predicate TableOk(t: Table, hi: nat) {
    && (t.head.Some? ==> RowOk(t.head.value))
    && t.bodyEnd <= hi && HeadEnd(t) <= hi
    && (t.bodyEnd > 0 ==> HeadEnd(t) <= t.bodyEnd)
    && RowsOk(t.rows, HeadEnd(t), if t.bodyEnd > 0 then t.bodyEnd else hi)
  }

  predicate AllOk(tables: seq<Table>, hi: nat) {
    forall i | 0 <= i < |tables| :: TableOk(tables[i], hi)
  }

  /** Every table ends before a later one begins. */
  predicate Apart(tables: seq<Table>) {
    forall i, j | 0 <= i < j < |tables| && tables[j].head.Some? :: tables[i].bodyEnd <= tables[j].head.value.start
  }

  predicate BehindOthers(tables: seq<Table>, r: Row) {
    forall i | 0 <= i < |tables| - 1 :: tables[i].bodyEnd <= r.start
  }

  predicate RowBehind(t: Table, r: Row) {
    HeadEnd(t) <= r.start && forall i | 0 <= i < |t.rows| :: t.rows[i].end <= r.start
  }

  predicate Flags(p: Parser) {
    && !(p.inHead && p.inBody)
    && (p.cell == NoCell || (p.cell == OfRow && p.row.Some?))
    && (p.row.Some? ==> p.inHead || p.inBody)
    && (p.inHead || p.inBody ==> p.depth > 0)
    && (p.depth > 0 ==> p.tables != [] && p.pos > 0)
  }

  predicate CurrentFlags(p: Parser)
    requires p.tables != []
  {
    && (p.inHead ==> Current(p.tables).rows == [] && Current(p.tables).bodyEnd == 0)
    && (p.inBody ==> Current(p.tables).bodyEnd == 0)
    && (p.row.Some? ==>
          && (p.inHead ==> Current(p.tables).head.None?)
          && OpenRowOk(p.row.value, p.cell == OfRow, p.pos)
          && RowBehind(Current(p.tables), p.row.value) && BehindOthers(p.tables, p.row.value))
  }

  predicate Good(p: Parser) {
    Flags(p) && (p.tables != [] ==> CurrentFlags(p)) && AllOk(p.tables, p.pos) && Apart(p.tables)
  }

  // Each token keeps the spans in order

  lemma CellsAppend(cells: seq<Cell>, c: Cell, lo: int, mid: int, hi: int)
    requires CellsOk(cells, lo, mid) && CellOk(c, mid, hi) && lo <= mid
    ensures CellsOk(cells + [c], lo, hi)
  {
  }

  lemma TableGrows(t: Table, a: nat, b: nat)
    requires TableOk(t, a) && a <= b
    ensures TableOk(t, b)
  {
    hide RowOk;
  }

  lemma AllGrow(tables: seq<Table>, a: nat, b: nat)
    requires AllOk(tables, a) && a <= b
    ensures AllOk(tables, b)
  {
    hide TableOk;
    forall i | 0 <= i < |tables|
      ensures TableOk(tables[i], b)
    {
      TableGrows(tables[i], a, b);
    }
  }

  lemma Advance(p: Parser, pos: nat)
    requires Good(p) && p.pos <= pos
    ensures Good(p.(pos := pos))
  {
    hide TableOk, AllOk, RowBehind;
    AllGrow(p.tables, p.pos, pos);
    if p.tables != [] && p.row.Some? {
      OpenRowGrows(p.row.value, p.cell == OfRow, p.pos, pos);
    }
  }

  lemma OpenRowGrows(r: Row, inCell: bool, a: nat, b: nat)
    requires OpenRowOk(r, inCell, a) && a <= b
    ensures OpenRowOk(r, inCell, b)
  {
  }

  /** Changing only the current table. */
  lemma ReplaceCurrent(tables: seq<Table>, t: Table, hi: nat)
    requires tables != [] && AllOk(tables, hi) && Apart(tables) && TableOk(t, hi)
    requires t.head.Some? ==> t.head == Current(tables).head || BehindOthers(tables, t.head.value)
    ensures AllOk(SetCurrent(tables, t), hi) && Apart(SetCurrent(tables, t))
  {
    hide TableOk;
  }

  /** Text, check boxes and sort links change no offset. */
  lemma QuietChange(p: Parser, change: Change)
    requires Good(p) && !change.CloseAt?
    ensures Good(ChangeOpen(p, change))
  {
    hide TableOk, AllOk, Apart, RowBehind, BehindOthers;
    if p.cell == OfRow {
      QuietRow(p.row.value, change, p.pos);
      RowStart(p.row.value, change);
      SameStart(p.tables, p.row.value, ChangeLast(p.row.value, change));
    }
  }

  lemma QuietRow(r: Row, change: Change, pos: nat)
    requires OpenRowOk(r, true, pos) && !change.CloseAt?
    ensures OpenRowOk(ChangeLast(r, change), true, pos)
  {
    assert ChangeLast(r, change).cells[..|r.cells| - 1] == r.cells[..|r.cells| - 1];
  }

  lemma RowStart(r: Row, change: Change)
    ensures ChangeLast(r, change).start == r.start
  {
  }

  lemma SameStart(tables: seq<Table>, a: Row, b: Row)
    requires tables != [] && RowBehind(Current(tables), a) && BehindOthers(tables, a) && a.start == b.start
    ensures RowBehind(Current(tables), b) && BehindOthers(tables, b)
  {
  }

  lemma CloseCell(p: Parser)
    requires Good(p) && p.cell == OfRow
    ensures Good(ChangeOpen(p, CloseAt(p.pos)).(cell := NoCell))
  {
    hide TableOk, AllOk, Apart, RowBehind, BehindOthers;
    var r := p.row.value;
    ClosedRow(r, p.pos);
    RowStart(r, CloseAt(p.pos));
    SameStart(p.tables, r, ChangeLast(r, CloseAt(p.pos)));
  }

  lemma ClosedRow(r: Row, pos: nat)
    requires OpenRowOk(r, true, pos)
    ensures OpenRowOk(ChangeLast(r, CloseAt(pos)), false, pos)
  {
    var n := |r.cells| - 1;
    var c := r.cells[n].(end := pos);
    CellsAppend(r.cells[..n], c, r.start + 4, r.cells[n].start, pos);
    assert ChangeLast(r, CloseAt(pos)).cells == r.cells[..n] + [c];
  }

  lemma OpenCell(p: Parser, c: Cell)
    requires Good(p) && p.row.Some? && p.cell == NoCell
    requires c.start < c.openEnd && p.pos <= c.start
    ensures Good(p.(pos := c.openEnd, row := Some(p.row.value.(cells := p.row.value.cells + [c])), cell := OfRow))
  {
    hide TableOk, AllOk, Apart, RowBehind, BehindOthers, CellsOk;
    AllGrow(p.tables, p.pos, c.openEnd);
    var r := p.row.value;
    var s := r.(cells := r.cells + [c]);
    assert s.cells[..|s.cells| - 1] == r.cells;
    CellsGrow(r.cells, r.start + 4, p.pos, c.start);
    SameStart(p.tables, r, s);
  }

  lemma CellsGrow(cells: seq<Cell>, lo: int, a: int, b: int)
    requires CellsOk(cells, lo, a) && a <= b
    ensures CellsOk(cells, lo, b)
  {
  }

  lemma OpenRow(p: Parser, pos: nat)
    requires Good(p) && p.row.None? && p.cell == NoCell && p.depth > 0
    requires p.inHead || p.inBody
    requires p.inHead ==> Current(p.tables).head.None?
    requires p.pos + 4 <= pos
    ensures Good(p.(pos := pos, row := Some(Row(p.pos, 0, []))))
  {
    hide RowOk;
    var r := Row(p.pos, 0, []);
    AllGrow(p.tables, p.pos, pos);
    assert TableOk(Current(p.tables), p.pos);
    assert forall i | 0 <= i < |p.tables| :: TableOk(p.tables[i], p.pos);
  }

  /** Storing the row that ends at pos. */
  lemma CloseRow(p: Parser, pos: nat)
    requires Good(p) && p.row.Some? && p.cell == NoCell && p.pos + 5 <= pos
    ensures Good(StoreRow(p.(pos := pos), p.row.value.(end := pos)))
  {
    hide AllOk, Apart, BehindOthers, CellsOk, CellOk;
    var r, t := p.row.value.(end := pos), Current(p.tables);
    CellsGrow(r.cells, r.start + 4, p.pos, pos - 5);
    AllGrow(p.tables, p.pos, pos);
    CurrentOk(p.tables, pos);
    if p.inHead {
      SameOthers(p.tables, p.row.value, r);
      ReplaceCurrent(p.tables, t.(head := Some(r)), pos);
    } else {
      RowsAppend(t, r, pos);
      ReplaceCurrent(p.tables, t.(rows := t.rows + [r]), pos);
    }
  }

  lemma CurrentOk(tables: seq<Table>, hi: nat)
    requires tables != [] && AllOk(tables, hi)
    ensures TableOk(Current(tables), hi)
  {
  }

  lemma SameOthers(tables: seq<Table>, a: Row, b: Row)
    requires BehindOthers(tables, a) && a.start == b.start
    ensures BehindOthers(tables, b)
  {
  }

  lemma RowsAppend(t: Table, r: Row, hi: nat)
    requires TableOk(t, hi) && RowBehind(t, r) && RowOk(r) && r.end <= hi && t.bodyEnd == 0
    ensures TableOk(t.(rows := t.rows + [r]), hi)
  {
    hide RowOk;
  }

  lemma CloseBody(p: Parser, pos: nat)
    requires Good(p) && p.row.None? && p.inBody && p.pos < pos && p.pos > 0
    ensures Good(p.(pos := pos, inBody := false, tables := SetCurrent(p.tables, Current(p.tables).(bodyEnd := p.pos))))
  {
    hide AllOk, Apart, BehindOthers, RowOk;
    var t := Current(p.tables);
    CurrentOk(p.tables, p.pos);
    ReplaceCurrent(p.tables, t.(bodyEnd := p.pos), p.pos);
    AllGrow(SetCurrent(p.tables, t.(bodyEnd := p.pos)), p.pos, pos);
  }

  lemma MarkTemplate(p: Parser)
    requires Good(p) && p.row.None? && p.tables != []
    ensures Good(p.(tables := SetCurrent(p.tables, Current(p.tables).(hasTemplate := true))))
  {
    hide AllOk, Apart, BehindOthers, RowOk;
    CurrentOk(p.tables, p.pos);
    ReplaceCurrent(p.tables, Current(p.tables).(hasTemplate := true), p.pos);
  }

  lemma SetFlags(p: Parser, inHead: bool, inBody: bool)
    requires Good(p) && p.row.None? && !(inHead && inBody)
    requires inHead || inBody ==> p.depth > 0 && Current(p.tables).rows == [] && Current(p.tables).bodyEnd == 0
    ensures Good(p.(inHead := inHead, inBody := inBody))
  {
    hide AllOk, Apart;
  }

  lemma KeepsFlags(p: Parser, inHead: bool, inBody: bool)
    requires Good(p) && p.row.None? && (inHead ==> p.inHead) && (inBody ==> p.inBody)
    ensures Good(p.(inHead := inHead, inBody := inBody))
  {
    hide AllOk, Apart;
  }

  lemma InnerRow(p: Parser, t: Token)
    requires Good(p) && p.depth == 1 && Fits(p, t) && t.IsTag() && t.name == "tr"
    ensures Good(InnerTag(p.(pos := p.pos + |t.raw|), t, p.pos))
  {
    hide AllOk, Apart, BehindOthers, RowBehind, OpenRowOk, FitsGroup, FitsTable, SetCurrent, StoreRow;
    var pos := p.pos + |t.raw|;
    Advance(p, pos);
    if t.kind == StartTag {
      if (p.inHead && Current(p.tables).head.None?) || p.inBody {
        OpenRow(p, pos);
      }
    } else if t.kind == EndTag && p.row.Some? {
      CloseRow(p, pos);
    }
  }

  lemma InnerGroup(p: Parser, t: Token)
    requires Good(p) && p.depth == 1 && Fits(p, t) && t.IsTag() && (t.name == "thead" || t.name == "tbody")
    ensures Good(InnerTag(p.(pos := p.pos + |t.raw|), t, p.pos))
  {
    hide AllOk, Apart, BehindOthers, RowBehind, OpenRowOk, FitsRow, FitsTable, SetCurrent, StoreRow;
    var pos := p.pos + |t.raw|;
    Advance(p, pos);
    var q := p.(pos := pos);
    if t.name == "thead" {
      if t.kind == StartTag {
        SetFlags(q, true, false);
      } else {
        KeepsFlags(q, false, p.inBody);
      }
    } else if t.kind == StartTag {
      SetFlags(q, false, true);
    } else if t.kind == EndTag {
      CloseBody(p, pos);
    }
  }

  lemma InnerCell(p: Parser, t: Token)
    requires Good(p) && p.depth == 1 && Fits(p, t) && t.IsTag() && t.IsCell()
    ensures Good(InnerTag(p.(pos := p.pos + |t.raw|), t, p.pos))
  {
    hide AllOk, Apart, BehindOthers, RowBehind, OpenRowOk, FitsGroup, FitsTable, SetCurrent, StoreRow, ChangeOpen;
    var pos := p.pos + |t.raw|;
    Advance(p, pos);
    var q := p.(pos := pos);
    if t.kind == StartTag && p.row.Some? {
      OpenCell(p, Cell(p.pos, 0, pos, t.Attr("class"), t.Attr("colspan") != "", "", false, ""));
    } else if t.kind == EndTag && p.cell != NoCell {
      CloseCell(q);
    }
  }

  lemma InnerOther(p: Parser, t: Token)
    requires Good(p) && p.depth == 1 && p.tables != [] && t.IsTag()
    requires t.name != "tr" && t.name != "thead" && t.name != "tbody" && !t.IsCell()
    ensures Good(InnerTag(p.(pos := p.pos + |t.raw|), t, p.pos))
  {
    hide Good, SetCurrent, StoreRow, ChangeOpen;
    var q := p.(pos := p.pos + |t.raw|);
    Advance(p, q.pos);
    if t.Is(StartTag, "template") && q.inBody && q.row.None? {
      MarkTemplate(q);
    } else if t.name == "input" && q.cell != NoCell && t.Attr("type") == "checkbox" {
      QuietChange(q, Check);
    } else if t.name == "a" && q.cell != NoCell && q.inHead && t.sort.Some? {
      QuietChange(q, SortBy(t.sort.value));
    }
  }

  lemma NewTableOk(id: string, hi: nat)
    ensures TableOk(Table(id, false, None, [], 0), hi)
  {
  }

  lemma TableTagKeeps(p: Parser, t: Token)
    requires Good(p) && Fits(p, t) && t.IsTag() && t.name == "table"
    ensures Good(TableTag(p.(pos := p.pos + |t.raw|), t))
  {
    hide BehindOthers, RowBehind, OpenRowOk, FitsGroup, FitsRow, RowOk, TableOk, AllOk, Apart;
    var pos := p.pos + |t.raw|;
    Advance(p, pos);
    NewTableOk(t.Attr("id"), pos);
    AddTable(p.tables, Table(t.Attr("id"), false, None, [], 0), pos);
  }

  lemma AddTable(tables: seq<Table>, t: Table, hi: nat)
    requires AllOk(tables, hi) && TableOk(t, hi) && Apart(tables) && t.head.None?
    ensures AllOk(tables + [t], hi) && Apart(tables + [t])
  {
    hide TableOk;
  }

  lemma StepKeeps(p: Parser, t: Token)
    requires Good(p) && Fits(p, t)
    ensures Good(Step(p, t))
  {
    hide Good, InnerTag, TableTag, ChangeOpen, FitsGroup, FitsRow, FitsTable;
    var pos := p.pos + |t.raw|;
    Advance(p, pos);
    if !t.IsTag() {
      QuietChange(p.(pos := pos), AddText(t.raw));
    } else if t.name == "table" {
      TableTagKeeps(p, t);
    } else if p.depth == 1 && p.tables != [] {
      if t.name == "tr" {
        InnerRow(p, t);
      } else if t.name == "thead" || t.name == "tbody" {
        InnerGroup(p, t);
      } else if t.IsCell() {
        InnerCell(p, t);
      } else {
        InnerOther(p, t);
      }
    }
  }

  lemma {:induction false} RunKeeps(p: Parser, tokens: seq<Token>)
    requires Good(p) && WellNested(p, tokens)
    ensures Good(Run(p, tokens))
    decreases |tokens|
  {
    hide Good, Fits, Step;
    if tokens != [] {
      StepKeeps(p, tokens[0]);
      RunKeeps(Step(p, tokens[0]), tokens[1..]);
    }
  }

  lemma {:induction false} RunEnds(p: Parser, tokens: seq<Token>)
    ensures Run(p, tokens).pos == p.pos + |Raws(tokens)|
    decreases |tokens|
  {
    hide InnerTag, TableTag, ChangeOpen;
    if tokens != [] {
      StepPos(p, tokens[0]);
      RunEnds(Step(p, tokens[0]), tokens[1..]);
    }
  }

  lemma StepPos(p: Parser, t: Token)
    ensures Step(p, t).pos == p.pos + |t.raw|
  {
  }

  function Raws(tokens: seq<Token>): string
    decreases |tokens|
  {
    if tokens == [] then "" else tokens[0].raw + Raws(tokens[1..])
  }

  lemma {:induction false} RawsConcat(a: seq<Token>, b: seq<Token>)
    ensures Raws(a + b) == Raws(a) + Raws(b)
    decreases |a|
  {
    if a == [] {
      assert a + b == b;
    } else {
      assert (a + b)[1..] == a[1..] + b;
      RawsConcat(a[1..], b);
    }
  }

  /** In a well-nested page every table's header row, rows and body end lie in this order,
      with the cells inside their rows, every table ends before the next begins, and all of
      it lies within the page. */
  lemma SpansAreOrdered(offset: nat, tokens: seq<Token>)
    requires WellNested(Start(offset), tokens)
    ensures AllOk(ParsedTables(offset, tokens), offset + |Raws(tokens)|) && Apart(ParsedTables(offset, tokens))
  {
    hide Fits, Step;
    RunKeeps(Start(offset), tokens);
    RunEnds(Start(offset), tokens);
  }
}
