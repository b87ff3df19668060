/** internal/cluster/merge.go: finding the tables of a page by byte offset. A page is a
    sequence of HTML tokens whose raw texts follow each other. */
module Tables {
  import opened Text

  datatype Kind = TextToken | StartTag | EndTag | SelfClosingTag | OtherToken

  /** sort is the "sort" query of a link without its "-" prefix, None when href is no URL. */
  datatype Token = Token(kind: Kind, name: string, attrs: map<string, string>, sort: Option<string>, raw: string) {
    predicate IsTag() {
      kind == StartTag || kind == EndTag || kind == SelfClosingTag
    }

    function Attr(key: string): string {
      if key in attrs then attrs[key] else ""
    }

    predicate Is(k: Kind, n: string) {
      kind == k && name == n
    }

    predicate IsCell() {
      name == "td" || name == "th"
    }
  }

  /** What every tokenizer guarantees: no token is empty, and a tag spells out its name. */
  predicate IsToken(t: Token) {
    |t.raw| >= (if t.kind == StartTag then |t.name| + 2 else if t.kind == EndTag then |t.name| + 3 else 1)
  }

  datatype Cell = Cell(start: nat, end: nat, openEnd: nat, classes: string, colspan: bool, text: string, checkbox: bool, sortKey: string)

  datatype Row = Row(start: nat, end: nat, cells: seq<Cell>)

  /** bodyEnd is the offset of </tbody>, 0 without one. */
  datatype Table = Table(id: string, hasTemplate: bool, head: Option<Row>, rows: seq<Row>, bodyEnd: nat)

  /** Where the open cell is kept: in the row being read, in the stored header or a stored
      row of the current table when its row ended first, or in a row that was dropped. */
  datatype Place = NoCell | OfRow | OfHead | OfBody(i: nat) | Dropped

  /** The variables of the loop; the current table is the last of tables while depth > 0. */
  datatype Parser = Parser(tables: seq<Table>, row: Option<Row>, cell: Place, depth: nat, inHead: bool, inBody: bool, pos: nat)

  function Start(offset: nat): Parser {
    Parser([], None, NoCell, 0, false, false, offset)
  }

  // Changing the current table, row and cell

  function Current(tables: seq<Table>): Table
    requires tables != []
  {
    tables[|tables| - 1]
  }

  function SetCurrent(tables: seq<Table>, t: Table): (r: seq<Table>)
    requires tables != []
    ensures |r| == |tables| && r[|r| - 1] == t
    ensures forall i | 0 <= i < |r| - 1 :: r[i] == tables[i]
  {
    tables[|tables| - 1 := t]
  }

  datatype Change = AddText(raw: string) | Check | SortBy(key: string) | CloseAt(pos: nat)

  function ChangeCell(c: Cell, change: Change): Cell {
    match change
    case AddText(raw) => c.(text := c.text + raw)
    case Check => c.(checkbox := true)
    case SortBy(key) => if c.sortKey == "" then c.(sortKey := key) else c
    case CloseAt(pos) => c.(end := pos)
  }

  function ChangeLast(r: Row, change: Change): Row {
    if r.cells == [] then r else r.(cells := r.cells[|r.cells| - 1 := ChangeCell(r.cells[|r.cells| - 1], change)])
  }

  /** A change of the open cell, wherever it is kept. */
  function ChangeOpen(p: Parser, change: Change): Parser {
    match p.cell
    case NoCell => p
    case Dropped => p
    case OfRow => if p.row.Some? then p.(row := Some(ChangeLast(p.row.value, change))) else p
    case OfHead =>
      if p.tables != [] && Current(p.tables).head.Some? then
        p.(tables := SetCurrent(p.tables, Current(p.tables).(head := Some(ChangeLast(Current(p.tables).head.value, change)))))
      else p
    case OfBody(i) =>
      if p.tables != [] && i < |Current(p.tables).rows| then
        var rows := Current(p.tables).rows;
        p.(tables := SetCurrent(p.tables, Current(p.tables).(rows := rows[i := ChangeLast(rows[i], change)])))
      else p
  }

  function StoreRow(p: Parser, row: Row): Parser
    requires p.tables != []
  {
    var t := Current(p.tables);
    if p.inHead then
      p.(tables := SetCurrent(p.tables, t.(head := Some(row))), row := None,
         cell := if p.cell == OfRow then OfHead else if p.cell == OfHead then Dropped else p.cell)
    else
      p.(tables := SetCurrent(p.tables, t.(rows := t.rows + [row])), row := None,
         cell := if p.cell == OfRow then OfBody(|t.rows|) else p.cell)
  }

  // One token

  function TableTag(p: Parser, t: Token): Parser {
    if t.kind == StartTag then
      p.(depth := p.depth + 1,
         tables := if p.depth == 0 then p.tables + [Table(t.Attr("id"), false, None, [], 0)] else p.tables)
    else if t.kind == EndTag then
      if p.depth == 1 then Parser(p.tables, None, NoCell, 0, false, false, p.pos)
      else p.(depth := if p.depth > 0 then p.depth - 1 else 0)
    else p
  }

  /** A tag directly inside the current table, start being its offset; p.pos is the end. */
  function InnerTag(p: Parser, t: Token, start: nat): Parser
    requires p.tables != []
  {
    var cur := Current(p.tables);
    if t.name == "thead" then p.(inHead := t.kind == StartTag)
    else if t.Is(StartTag, "tbody") then p.(inBody := true)
    else if t.Is(EndTag, "tbody") then p.(inBody := false, tables := SetCurrent(p.tables, cur.(bodyEnd := start)))
    else if t.Is(StartTag, "template") && p.inBody && p.row.None? then
      p.(tables := SetCurrent(p.tables, cur.(hasTemplate := true)))
    else if t.Is(StartTag, "tr") && ((p.inHead && cur.head.None?) || p.inBody) then
      p.(row := Some(Row(start, 0, [])), cell := if p.cell == OfRow then Dropped else p.cell)
    else if t.Is(EndTag, "tr") && p.row.Some? then StoreRow(p, p.row.value.(end := p.pos))
    else if t.IsCell() && t.kind == StartTag && p.row.Some? then
      var cell := Cell(start, 0, p.pos, t.Attr("class"), t.Attr("colspan") != "", "", false, "");
      p.(row := Some(p.row.value.(cells := p.row.value.cells + [cell])), cell := OfRow)
    else if t.name == "input" && p.cell != NoCell && t.Attr("type") == "checkbox" then ChangeOpen(p, Check)
    else if t.name == "a" && p.cell != NoCell && p.inHead then
      if t.sort.Some? then ChangeOpen(p, SortBy(t.sort.value)) else p
    else if t.IsCell() && t.kind == EndTag && p.cell != NoCell then ChangeOpen(p, CloseAt(p.pos)).(cell := NoCell)
    else p
  }

  function Step(before: Parser, t: Token): Parser {
    var p := before.(pos := before.pos + |t.raw|);
    if !t.IsTag() then
      if t.kind == TextToken && p.cell != NoCell && p.depth == 1 then ChangeOpen(p, AddText(t.raw)) else p
    else if t.name == "table" then TableTag(p, t)
    else if p.depth != 1 || p.tables == [] then p
    else InnerTag(p, t, before.pos)
  }

  function Run(p: Parser, tokens: seq<Token>): Parser
    decreases |tokens|
  {
    if tokens == [] then p else Run(Step(p, tokens[0]), tokens[1..])
  }

  function ParsedTables(offset: nat, tokens: seq<Token>): seq<Table> {
    Run(Start(offset), tokens).tables
  }

  method ParseTables(offset: nat, tokens: seq<Token>) returns (tables: seq<Table>)
    ensures tables == ParsedTables(offset, tokens)
  {
    hide TableTag, InnerTag, ChangeOpen;
    var p := Start(offset);
    for n := 0 to |tokens|
      invariant Run(p, tokens[n..]) == Run(Start(offset), tokens)
    {
      assert tokens[n..][1..] == tokens[n + 1..];
      var t, start := tokens[n], p.pos;
      p := p.(pos := p.pos + |t.raw|);
      if t.kind != StartTag && t.kind != EndTag && t.kind != SelfClosingTag {
        if t.kind == TextToken && p.cell != NoCell && p.depth == 1 {
          p := ChangeOpen(p, AddText(t.raw));
        }
        continue;
      }
      if t.name == "table" {
        p := TableTag(p, t);
        continue;
      }
      if p.depth != 1 || p.tables == [] {
        continue;
      }
      p := InnerTag(p, t, start);
    }
    assert tokens[|tokens|..] == [];
    tables := p.tables;
  }

  // Reading a table

  predicate IsDetail(r: Row) {
    |r.cells| == 1
  }

  /** A table with data, not a placeholder and not filled by JavaScript. */
  predicate IsReal(t: Table) {
    !t.hasTemplate && t.head.Some? && t.rows != [] && !(|t.rows| == 1 && |t.rows[0].cells| <= 1)
  }

  /** The first row that is no detail row. */
  function SampleOf(rows: seq<Row>): Option<Row>
    decreases |rows|
  {
    if rows == [] then None else if IsDetail(rows[0]) then SampleOf(rows[1..]) else Some(rows[0])
  }

  predicate IsCheckColumn(head: Row, sample: Option<Row>, i: nat) {
    && i < |head.cells|
    && (head.cells[i].checkbox || (sample.Some? && i < |sample.value.cells| && sample.value.cells[i].checkbox))
  }

  /** The column behind the last one with a check box, below n. */
  function AfterChecks(head: Row, sample: Option<Row>, n: nat): (start: nat)
    requires n <= |head.cells|
    ensures start <= n
    ensures start > 0 ==> IsCheckColumn(head, sample, start - 1)
    ensures forall i | start <= i < n :: !IsCheckColumn(head, sample, i)
  {
    if n == 0 then 0 else if IsCheckColumn(head, sample, n - 1) then n else AfterChecks(head, sample, n - 1)
  }

  /** namesRow tells the header cells that are visible and name the row: not blank, not an id. */
  function FirstNaming(cells: seq<Cell>, start: nat, namesRow: Cell -> bool): (i: nat)
    requires start <= |cells|
    ensures start <= i <= |cells|
    ensures i < |cells| ==> namesRow(cells[i])
    ensures forall j | start <= j < i :: !namesRow(cells[j])
    decreases |cells| - start
  {
    if start == |cells| || namesRow(cells[start]) then start else FirstNaming(cells, start + 1, namesRow)
  }

  function AfterAllChecks(t: Table): (start: nat)
    requires t.head.Some?
    ensures start <= |t.head.value.cells|
  {
    AfterChecks(t.head.value, SampleOf(t.rows), |t.head.value.cells|)
  }

  /** The last column with a check box is the last one with a box in the header or in the
      first row that is no detail row; the search begins behind it. */
  lemma BehindChecks(t: Table) returns (k: nat)
    requires t.head.Some?
    ensures k <= |t.rows| && (forall j | 0 <= j < k :: |t.rows[j].cells| == 1) && (k < |t.rows| ==> |t.rows[k].cells| != 1)
    ensures var start, cells := AfterAllChecks(t), t.head.value.cells;
            && (start > 0 ==>
                  cells[start - 1].checkbox || (k < |t.rows| && start - 1 < |t.rows[k].cells| && t.rows[k].cells[start - 1].checkbox))
            && (forall i | start <= i < |cells| :: !cells[i].checkbox)
            && forall i | start <= i < |cells| && k < |t.rows| && i < |t.rows[k].cells| :: !t.rows[k].cells[i].checkbox
  {
    k := SampleAt(t.rows);
    var start, cells := AfterAllChecks(t), t.head.value.cells;
    forall i | start <= i < |cells|
      ensures !cells[i].checkbox && (k < |t.rows| && i < |t.rows[k].cells| ==> !t.rows[k].cells[i].checkbox)
    {
      assert !IsCheckColumn(t.head.value, SampleOf(t.rows), i);
    }
  }

  lemma {:induction false} SampleAt(rows: seq<Row>) returns (k: nat)
    ensures k <= |rows| && (forall j | 0 <= j < k :: |rows[j].cells| == 1) && (k < |rows| ==> |rows[k].cells| != 1)
    ensures SampleOf(rows) == if k < |rows| then Some(rows[k]) else None
    decreases |rows|
  {
    if rows == [] || |rows[0].cells| != 1 {
      k := 0;
    } else {
      var n := SampleAt(rows[1..]);
      k := n + 1;
    }
  }

  /** The Server column goes behind the first column that names the row, looked for behind
      the check boxes; without one, behind the first column there. */
  function TableColumn(t: Table, namesRow: Cell -> bool): (col: nat)
    requires t.head.Some?
    ensures col <= |t.head.value.cells|
    ensures t.head.value.cells != [] ==> col > 0
    ensures (exists i | AfterAllChecks(t) <= i < |t.head.value.cells| :: namesRow(t.head.value.cells[i])) ==>
              && AfterAllChecks(t) < col && namesRow(t.head.value.cells[col - 1])
              && forall j | AfterAllChecks(t) <= j < col - 1 :: !namesRow(t.head.value.cells[j])
    ensures (forall i | AfterAllChecks(t) <= i < |t.head.value.cells| :: !namesRow(t.head.value.cells[i])) ==>
              col == if AfterAllChecks(t) < |t.head.value.cells| then AfterAllChecks(t) + 1 else |t.head.value.cells|
  {
    var cells := t.head.value.cells;
    var start := AfterAllChecks(t);
    var i := FirstNaming(cells, start, namesRow);
    if i < |cells| then i + 1 else if start < |cells| then start + 1 else |cells|
  }

  method FindTableColumn(t: Table, namesRow: Cell -> bool) returns (col: nat)
    requires t.head.Some?
    ensures col == TableColumn(t, namesRow)
  {
    var head := t.head.value;
    var sample := FindSample(t.rows);
    var start := 0;
    for i := 0 to |head.cells|
      invariant start == AfterChecks(head, sample, i)
    {
      if head.cells[i].checkbox || (sample.Some? && i < |sample.value.cells| && sample.value.cells[i].checkbox) {
        start := i + 1;
      }
    }
    for i := start to |head.cells|
      invariant FirstNaming(head.cells, i, namesRow) == FirstNaming(head.cells, start, namesRow)
    {
      if namesRow(head.cells[i]) {
        return i + 1;
      }
    }
    col := if start + 1 < |head.cells| then start + 1 else |head.cells|;
  }

  method FindSample(rows: seq<Row>) returns (sample: Option<Row>)
    ensures sample == SampleOf(rows)
  {
    for i := 0 to |rows|
      invariant SampleOf(rows[i..]) == SampleOf(rows)
    {
      assert rows[i..][1..] == rows[i + 1..];
      if !IsDetail(rows[i]) {
        return Some(rows[i]);
      }
    }
    assert rows[|rows|..] == [];
    sample := None;
  }

  /** The header position in a row with fewer cells than the header. */
  function RowColumn(t: Table, r: Row, namesRow: Cell -> bool): (col: nat)
    requires t.head.Some?
    ensures col <= |t.head.value.cells|
    ensures |r.cells| >= |t.head.value.cells| ==> col == TableColumn(t, namesRow)
  {
    var col := TableColumn(t, namesRow);
    var extra := |t.head.value.cells| - |r.cells|;
    if extra > 0 && col - extra >= 0 then col - extra else col
  }

  /** In a row with fewer cells the Server cell keeps its distance from the right end, so
      it never lands behind the row's cells unless the header has no room for the shift. */
  lemma RowColumnKeepsRight(t: Table, r: Row, namesRow: Cell -> bool)
    requires t.head.Some?
    ensures var col, wide := TableColumn(t, namesRow), |t.head.value.cells|;
            if |r.cells| < wide && wide - |r.cells| <= col then wide - col == |r.cells| - RowColumn(t, r, namesRow)
            else RowColumn(t, r, namesRow) == col
  {
    hide TableColumn;
  }

  /** The remote table for a local one: the first with its id, or the one at its place. */
  function MatchTable(tables: seq<Table>, id: string, index: nat): (m: Option<Table>)
    ensures m.Some? ==> m.value in tables && (id != "" ==> m.value.id == id)
    ensures m.None? ==> if id != "" then forall i | 0 <= i < |tables| :: tables[i].id != id else index >= |tables|
  {
    if id != "" then FirstWithId(tables, id) else if index < |tables| then Some(tables[index]) else None
  }

  function FirstWithId(tables: seq<Table>, id: string): (m: Option<Table>)
    ensures m.Some? ==> m.value in tables && m.value.id == id
    ensures m.None? ==> forall i | 0 <= i < |tables| :: tables[i].id != id
  {
    if tables == [] then None
    else if tables[0].id == id then Some(tables[0])
    else FirstWithId(tables[1..], id)
  }
}
