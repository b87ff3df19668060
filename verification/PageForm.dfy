/** The tables of a page in its usual form, printed as tokens and found again by the parser:
    every table, row and cell, with its place and what is read from it. */
module PageForm {
  import opened Text
  import opened Tables
  import opened TableSpans

  // The form

  predicate IsPlain(t: Token) {
    t.kind == TextToken || t.kind == OtherToken
  }

  /** Text and comments between the tags. */
  predicate IsGap(gap: seq<Token>) {
    forall i | 0 <= i < |gap| :: IsPlain(gap[i])
  }

  predicate IsCellName(name: string) {
    name == "td" || name == "th"
  }

  predicate IsInline(t: Token) {
    IsPlain(t) || (t.name != "table" && t.name != "thead" && t.name != "tbody" && t.name != "tr" && !IsCellName(t.name))
  }

  datatype CellForm = CellForm(gap: seq<Token>, open: Token, content: seq<Token>, close: Token) {
    predicate Valid() {
      && IsGap(gap) && open.kind == StartTag && IsCellName(open.name) && close.kind == EndTag && IsCellName(close.name)
      && forall i | 0 <= i < |content| :: IsInline(content[i])
    }

    function Tokens(): seq<Token> {
      gap + [open] + content + [close]
    }
  }

  function CellTokens(cells: seq<CellForm>): seq<Token>
    decreases |cells|
  {
    if cells == [] then [] else cells[0].Tokens() + CellTokens(cells[1..])
  }

  datatype RowForm = RowForm(gap: seq<Token>, open: Token, cells: seq<CellForm>, end: seq<Token>, close: Token) {
    predicate Valid() {
      && IsGap(gap) && open.Is(StartTag, "tr") && IsGap(end) && close.Is(EndTag, "tr")
      && forall i | 0 <= i < |cells| :: cells[i].Valid()
    }

    function Tokens(): seq<Token> {
      gap + [open] + CellTokens(cells) + end + [close]
    }
  }

  function RowTokens(rows: seq<RowForm>): seq<Token>
    decreases |rows|
  {
    if rows == [] then [] else rows[0].Tokens() + RowTokens(rows[1..])
  }

  /** thead and tbody stand for their start and end tags, with the gaps in front of them. */
  datatype TableForm = TableForm(gap: seq<Token>, open: Token, head: RowForm, rows: seq<RowForm>,
                                 thead: seq<Token>, theadEnd: seq<Token>, tbody: seq<Token>, tbodyEnd: seq<Token>,
                                 end: seq<Token>, close: Token) {
    predicate Valid() {
      && IsGap(gap) && open.Is(StartTag, "table") && IsGap(end) && close.Is(EndTag, "table")
      && EndsWith(thead, StartTag, "thead") && EndsWith(theadEnd, EndTag, "thead")
      && EndsWith(tbody, StartTag, "tbody") && EndsWith(tbodyEnd, EndTag, "tbody")
      && head.Valid() && forall i | 0 <= i < |rows| :: rows[i].Valid()
    }

    function Tokens(): seq<Token> {
      gap + [open] + (thead + head.Tokens() + theadEnd) + (tbody + RowTokens(rows) + tbodyEnd) + (end + [close])
    }
  }

  /** A gap and then one tag. */
  predicate EndsWith(tokens: seq<Token>, kind: Kind, name: string) {
    tokens != [] && IsGap(tokens[..|tokens| - 1]) && tokens[|tokens| - 1].Is(kind, name)
  }

  // What is to be found

  function TextOf(content: seq<Token>): string
    decreases |content|
  {
    if content == [] then ""
    else (if content[0].kind == TextToken then content[0].raw else "") + TextOf(content[1..])
  }

  predicate IsCheckbox(t: Token) {
    !IsPlain(t) && t.name == "input" && Get(t.attrs, "type") == "checkbox"
  }

  predicate HasCheckbox(content: seq<Token>) {
    exists i | 0 <= i < |content| :: IsCheckbox(content[i])
  }

  /** The sort key of the first link that has one. */
  function SortOf(content: seq<Token>): string
    decreases |content|
  {
    if content == [] then ""
    else
      var t := content[0];
      if !IsPlain(t) && t.name == "a" && t.sort.Some? && t.sort.value != "" then t.sort.value else SortOf(content[1..])
  }

  function Size(tokens: seq<Token>): nat {
    |Raws(tokens)|
  }

  function CellOf(c: CellForm, pos: nat, inHead: bool): Cell {
    var start := pos + Size(c.gap);
    Cell(start, pos + Size(c.Tokens()), start + |c.open.raw|, Get(c.open.attrs, "class"), Get(c.open.attrs, "colspan") != "",
         TextOf(c.content), HasCheckbox(c.content), if inHead then SortOf(c.content) else "")
  }

  function CellsOf(cells: seq<CellForm>, pos: nat, inHead: bool): seq<Cell>
    decreases |cells|
  {
    if cells == [] then []
    else [CellOf(cells[0], pos, inHead)] + CellsOf(cells[1..], pos + Size(cells[0].Tokens()), inHead)
  }

  function RowOf(r: RowForm, pos: nat, inHead: bool): Row {
    var start := pos + Size(r.gap);
    Row(start, pos + Size(r.Tokens()), CellsOf(r.cells, start + |r.open.raw|, inHead))
  }

  function RowsOf(rows: seq<RowForm>, pos: nat): seq<Row>
    decreases |rows|
  {
    if rows == [] then []
    else [RowOf(rows[0], pos, false)] + RowsOf(rows[1..], pos + Size(rows[0].Tokens()))
  }

  function GapOf(tokens: seq<Token>): seq<Token> {
    if tokens == [] then [] else tokens[..|tokens| - 1]
  }

  function TableOf(t: TableForm, pos: nat): Table {
    var head := pos + Size(t.gap) + |t.open.raw| + Size(t.thead);
    var rows := head + Size(t.head.Tokens()) + Size(t.theadEnd) + Size(t.tbody);
    var end := rows + Size(RowTokens(t.rows)) + Size(GapOf(t.tbodyEnd));
    Table(Get(t.open.attrs, "id"), false, Some(RowOf(t.head, head, true)), RowsOf(t.rows, rows), end)
  }

  // Running the parser over a piece

  lemma SizeConcat(a: seq<Token>, b: seq<Token>)
    ensures Size(a + b) == Size(a) + Size(b)
  {
    RawsConcat(a, b);
  }

  lemma SizeOne(t: Token)
    ensures Size([t]) == |t.raw|
  {
    assert Raws([t][1..]) == "";
  }

  lemma {:induction false} RunConcat(p: Parser, a: seq<Token>, b: seq<Token>)
    ensures Run(p, a + b) == Run(Run(p, a), b)
    decreases |a|
  {
    hide Step;
    if a == [] {
      assert a + b == b;
    } else {
      assert (a + b)[1..] == a[1..] + b;
      RunConcat(Step(p, a[0]), a[1..], b);
    }
  }

  lemma RunOne(p: Parser, t: Token)
    ensures Run(p, [t]) == Step(p, t)
  {
    hide Step;
    assert [t][1..] == [];
  }

  lemma {:induction false} GapRun(p: Parser, gap: seq<Token>)
    requires IsGap(gap) && p.cell == NoCell
    ensures Run(p, gap) == p.(pos := p.pos + Size(gap))
    decreases |gap|
  {
    hide InnerTag, TableTag, ChangeOpen;
    if gap != [] {
      GapRun(Step(p, gap[0]), gap[1..]);
    }
  }

  /** A cell with what its content adds. */
  function Filled(c: Cell, content: seq<Token>, inHead: bool): Cell {
    c.(text := c.text + TextOf(content), checkbox := c.checkbox || HasCheckbox(content),
       sortKey := if c.sortKey == "" && inHead then SortOf(content) else c.sortKey)
  }

  function WithLast(r: Row, c: Cell): Row
    requires r.cells != []
  {
    r.(cells := r.cells[|r.cells| - 1 := c])
  }

  function LastOf(r: Row): Cell
    requires r.cells != []
  {
    r.cells[|r.cells| - 1]
  }

  predicate InCell(p: Parser) {
    p.depth == 1 && p.tables != [] && p.row.Some? && p.row.value.cells != [] && p.cell == OfRow
  }

  /** What a token inside a cell does. */
  function ChangesOf(t: Token, inHead: bool): Option<Change> {
    if t.kind == TextToken then Some(AddText(t.raw))
    else if IsCheckbox(t) then Some(Check)
    else if !IsPlain(t) && t.name == "a" && inHead && t.sort.Some? then Some(SortBy(t.sort.value))
    else None
  }

  lemma InlineChange(p: Parser, t: Token)
    requires InCell(p) && IsInline(t)
    ensures var q := p.(pos := p.pos + |t.raw|);
            Step(p, t) == match ChangesOf(t, p.inHead) case None => q case Some(change) => ChangeOpen(q, change)
  {
    hide StoreRow, SetCurrent, TableTag, ChangeOpen;
  }

  lemma OneChange(c: Cell, t: Token, inHead: bool)
    ensures Filled(c, [t], inHead) == match ChangesOf(t, inHead) case None => c case Some(change) => ChangeCell(c, change)
  {
    hide IsCheckbox;
    OneFilled(c, t, inHead);
    CheckboxKind(t);
  }

  lemma CheckboxKind(t: Token)
    ensures IsCheckbox(t) ==> t.kind != TextToken && t.name != "a"
  {
  }

  lemma InlineStep(p: Parser, t: Token)
    requires InCell(p) && IsInline(t)
    ensures Step(p, t) == p.(pos := p.pos + |t.raw|, row := Some(WithLast(p.row.value, Filled(LastOf(p.row.value), [t], p.inHead))))
  {
    hide Step, ChangesOf, IsInline, ChangeCell, Filled;
    InlineChange(p, t);
    OneChange(LastOf(p.row.value), t, p.inHead);
    WithSame(p.row.value);
  }

  lemma WithSame(r: Row)
    requires r.cells != []
    ensures WithLast(r, LastOf(r)) == r
  {
  }

  lemma WithTwice(r: Row, a: Cell, b: Cell)
    requires r.cells != []
    ensures WithLast(WithLast(r, a), b) == WithLast(r, b) && LastOf(WithLast(r, a)) == a
  {
  }

  lemma OneFilled(c: Cell, t: Token, inHead: bool)
    ensures TextOf([t]) == if t.kind == TextToken then t.raw else ""
    ensures HasCheckbox([t]) == IsCheckbox(t)
    ensures SortOf([t]) == if !IsPlain(t) && t.name == "a" && t.sort.Some? then t.sort.value else ""
    ensures c.text + "" == c.text
  {
    assert [t][1..] == [];
    assert [t][0] == t;
  }

  lemma CheckboxCons(t: Token, more: seq<Token>)
    ensures HasCheckbox([t] + more) <==> IsCheckbox(t) || HasCheckbox(more)
  {
    hide IsCheckbox;
    var all := [t] + more;
    if HasCheckbox(more) {
      var i :| 0 <= i < |more| && IsCheckbox(more[i]);
      assert all[i + 1] == more[i];
    }
    assert forall i | 0 < i < |all| :: all[i] == more[i - 1];
    assert all[0] == t;
  }

  lemma TextCons(t: Token, more: seq<Token>)
    ensures TextOf([t] + more) == TextOf([t]) + TextOf(more)
    ensures SortOf([t] + more) == if SortOf([t]) != "" then SortOf([t]) else SortOf(more)
  {
    assert ([t] + more)[1..] == more && [t][1..] == [];
    assert TextOf([t][1..]) == "" && SortOf([t][1..]) == "";
  }

  lemma FilledTwice(c: Cell, t: Token, more: seq<Token>, inHead: bool)
    ensures Filled(Filled(c, [t], inHead), more, inHead) == Filled(c, [t] + more, inHead)
  {
    hide TextOf, HasCheckbox, SortOf, IsCheckbox;
    OneFilled(c, t, inHead);
    TextCons(t, more);
    CheckboxCons(t, more);
    Regroup(c.text, TextOf([t]), TextOf(more));
  }

  lemma {:induction false} ContentRun(p: Parser, content: seq<Token>)
    requires InCell(p) && forall i | 0 <= i < |content| :: IsInline(content[i])
    ensures Run(p, content) ==
            p.(pos := p.pos + Size(content), row := Some(WithLast(p.row.value, Filled(LastOf(p.row.value), content, p.inHead))))
    decreases |content|
  {
    hide Step, Filled, IsInline;
    var c := LastOf(p.row.value);
    if content == [] {
      NothingFilled(c, p.inHead);
      WithSame(p.row.value);
    } else {
      InlineStep(p, content[0]);
      WithTwice(p.row.value, Filled(c, [content[0]], p.inHead), Filled(c, content, p.inHead));
      ContentRun(Step(p, content[0]), content[1..]);
      FilledTwice(c, content[0], content[1..], p.inHead);
      assert [content[0]] + content[1..] == content;
    }
  }

  lemma NothingFilled(c: Cell, inHead: bool)
    ensures Filled(c, [], inHead) == c
  {
    assert c.text + "" == c.text;
  }

  // Cells and rows

  predicate InRow(p: Parser) {
    p.depth == 1 && p.tables != [] && p.row.Some? && p.cell == NoCell
  }

  function AddCell(p: Parser, c: Cell, pos: nat): Parser
    requires p.row.Some?
  {
    p.(pos := pos, row := Some(p.row.value.(cells := p.row.value.cells + [c])))
  }

  lemma OpenStep(p: Parser, t: Token)
    requires InRow(p) && t.kind == StartTag && IsCellName(t.name)
    ensures Step(p, t) ==
            AddCell(p, Cell(p.pos, 0, p.pos + |t.raw|, Get(t.attrs, "class"), Get(t.attrs, "colspan") != "", "", false, ""), p.pos + |t.raw|).(cell := OfRow)
  {
  }

  lemma CloseStep(p: Parser, t: Token)
    requires InCell(p) && t.kind == EndTag && IsCellName(t.name)
    ensures Step(p, t) ==
            p.(pos := p.pos + |t.raw|, cell := NoCell,
               row := Some(WithLast(p.row.value, LastOf(p.row.value).(end := p.pos + |t.raw|))))
  {
  }

  lemma CellSize(c: CellForm)
    ensures Size(c.Tokens()) == Size(c.gap) + |c.open.raw| + Size(c.content) + |c.close.raw|
  {
    hide Size;
    SizeConcat(c.gap + [c.open] + c.content, [c.close]);
    SizeConcat(c.gap + [c.open], c.content);
    SizeConcat(c.gap, [c.open]);
    SizeOne(c.open);
    SizeOne(c.close);
  }

  lemma AddedLast(r: Row, c: Cell, d: Cell)
    ensures var s := r.(cells := r.cells + [c]); WithLast(s, d) == r.(cells := r.cells + [d]) && LastOf(s) == c
  {
  }

  /** A cell in its form is added to the open row. */
  lemma CellRun(p: Parser, c: CellForm)
    requires InRow(p) && c.Valid()
    ensures Run(p, c.Tokens()) == AddCell(p, CellOf(c, p.pos, p.inHead), p.pos + Size(c.Tokens()))
  {
    hide Step, Run, Size, TextOf, HasCheckbox, SortOf, IsGap, IsInline;
    RunConcat(p, c.gap + [c.open] + c.content, [c.close]);
    RunConcat(p, c.gap + [c.open], c.content);
    RunConcat(p, c.gap, [c.open]);
    GapRun(p, c.gap);
    var p1 := Run(p, c.gap);
    RunOne(p1, c.open);
    OpenStep(p1, c.open);
    var empty := Cell(p1.pos, 0, p1.pos + |c.open.raw|, Get(c.open.attrs, "class"), Get(c.open.attrs, "colspan") != "", "", false, "");
    var p2 := Step(p1, c.open);
    ContentRun(p2, c.content);
    var p3 := Run(p2, c.content);
    var filled := Filled(empty, c.content, p.inHead);
    AddedLast(p.row.value, empty, filled);
    RunOne(p3, c.close);
    CloseStep(p3, c.close);
    AddedLast(p.row.value, filled, filled.(end := p3.pos + |c.close.raw|));
    CellSize(c);
    assert "" + TextOf(c.content) == TextOf(c.content);
  }

  lemma {:induction false} CellsRun(p: Parser, cells: seq<CellForm>)
    requires InRow(p) && forall i | 0 <= i < |cells| :: cells[i].Valid()
    ensures Run(p, CellTokens(cells)) ==
            p.(pos := p.pos + Size(CellTokens(cells)),
               row := Some(p.row.value.(cells := p.row.value.cells + CellsOf(cells, p.pos, p.inHead))))
    decreases |cells|
  {
    hide Step, CellOf, IsGap, IsInline;
    if cells == [] {
      assert p.row.value.cells + [] == p.row.value.cells;
    } else {
      var c, rest := cells[0], cells[1..];
      assert c.Valid();
      CellRun(p, c);
      RunConcat(p, c.Tokens(), CellTokens(rest));
      CellsRun(Run(p, c.Tokens()), rest);
      SizeConcat(c.Tokens(), CellTokens(rest));
      Regroup(p.row.value.cells, [CellOf(c, p.pos, p.inHead)], CellsOf(rest, p.pos + Size(c.Tokens()), p.inHead));
    }
  }

  predicate Between(p: Parser) {
    p.depth == 1 && p.tables != [] && p.row.None? && p.cell == NoCell
  }

  lemma RowOpens(p: Parser, t: Token)
    requires Between(p) && t.Is(StartTag, "tr") && ((p.inHead && Current(p.tables).head.None?) || p.inBody)
    ensures Step(p, t) == p.(pos := p.pos + |t.raw|, row := Some(Row(p.pos, 0, [])))
  {
  }

  lemma RowCloses(p: Parser, t: Token)
    requires InRow(p) && t.Is(EndTag, "tr")
    ensures Step(p, t) == StoreRow(p.(pos := p.pos + |t.raw|), p.row.value.(end := p.pos + |t.raw|))
  {
    hide StoreRow;
  }

  lemma RowSize(r: RowForm)
    ensures Size(r.Tokens()) == Size(r.gap) + |r.open.raw| + Size(CellTokens(r.cells)) + Size(r.end) + |r.close.raw|
  {
    hide Size;
    SizeConcat(r.gap + [r.open] + CellTokens(r.cells) + r.end, [r.close]);
    SizeConcat(r.gap + [r.open] + CellTokens(r.cells), r.end);
    SizeConcat(r.gap + [r.open], CellTokens(r.cells));
    SizeConcat(r.gap, [r.open]);
    SizeOne(r.open);
    SizeOne(r.close);
  }

  lemma RowFront(p: Parser, gap: seq<Token>, open: Token)
    requires Between(p) && IsGap(gap) && open.Is(StartTag, "tr") && ((p.inHead && Current(p.tables).head.None?) || p.inBody)
    ensures var start := p.pos + Size(gap);
            Run(p, gap + [open]) == p.(pos := start + |open.raw|, row := Some(Row(start, 0, [])))
  {
    hide Step, Run, Size, IsGap;
    RunConcat(p, gap, [open]);
    GapRun(p, gap);
    var p1 := Run(p, gap);
    RunOne(p1, open);
    RowOpens(p1, open);
  }

  lemma RowBack(p: Parser, end: seq<Token>, close: Token)
    requires InRow(p) && IsGap(end) && close.Is(EndTag, "tr")
    ensures var pos := p.pos + Size(end) + |close.raw|;
            Run(p, end + [close]) == StoreRow(p.(pos := pos), p.row.value.(end := pos))
  {
    hide Step, Run, Size, IsGap, StoreRow;
    RunConcat(p, end, [close]);
    GapRun(p, end);
    var p1 := Run(p, end);
    RunOne(p1, close);
    RowCloses(p1, close);
  }

  lemma RowPieces(r: RowForm)
    ensures r.Tokens() == (r.gap + [r.open]) + CellTokens(r.cells) + (r.end + [r.close])
  {
    hide CellTokens;
    Regroup(r.gap + [r.open] + CellTokens(r.cells), r.end, [r.close]);
  }

  lemma RowRun(p: Parser, r: RowForm)
    requires Between(p) && r.Valid() && ((p.inHead && Current(p.tables).head.None?) || p.inBody)
    ensures Run(p, r.Tokens()) == StoreRow(p.(pos := p.pos + Size(r.Tokens())), RowOf(r, p.pos, p.inHead))
  {
    hide Run, Size, IsGap, StoreRow, CellsOf, CellTokens, RowForm.Tokens, CellForm.Valid;
    RowPieces(r);
    RowSize(r);
    var front, back := r.gap + [r.open], r.end + [r.close];
    RunConcat(p, front + CellTokens(r.cells), back);
    RunConcat(p, front, CellTokens(r.cells));
    RowFront(p, r.gap, r.open);
    var p2 := Run(p, front);
    CellsRun(p2, r.cells);
    var p3 := Run(p2, CellTokens(r.cells));
    assert [] + CellsOf(r.cells, p2.pos, p.inHead) == CellsOf(r.cells, p2.pos, p.inHead);
    RowBack(p3, r.end, r.close);
    var pos := p3.pos + Size(r.end) + |r.close.raw|;
    StoreForgets(p, p3, p3.row.value.(end := pos), pos);
    assert pos == p.pos + Size(r.Tokens());
    assert p3.row.value.(end := pos) == RowOf(r, p.pos, p.inHead);
  }

  /** What the row was before does not matter when it is stored. */
  lemma StoreForgets(p: Parser, q: Parser, r: Row, pos: nat)
    requires p.tables != [] && p.row.None? && q == p.(pos := q.pos, row := q.row)
    ensures StoreRow(q.(pos := pos), r) == StoreRow(p.(pos := pos), r)
  {
    hide SetCurrent;
  }

  function AddRows(p: Parser, rows: seq<Row>, pos: nat): Parser
    requires p.tables != []
  {
    p.(pos := pos, tables := SetCurrent(p.tables, Current(p.tables).(rows := Current(p.tables).rows + rows)))
  }

  lemma SetTwice(tables: seq<Table>, a: Table, b: Table)
    requires tables != []
    ensures SetCurrent(SetCurrent(tables, a), b) == SetCurrent(tables, b) && Current(SetCurrent(tables, a)) == a
  {
  }

  lemma SetSame(tables: seq<Table>)
    requires tables != []
    ensures SetCurrent(tables, Current(tables)) == tables
  {
  }

  lemma {:induction false} RowsRun(p: Parser, rows: seq<RowForm>)
    requires Between(p) && p.inBody && !p.inHead && forall i | 0 <= i < |rows| :: rows[i].Valid()
    ensures Run(p, RowTokens(rows)) == AddRows(p, RowsOf(rows, p.pos), p.pos + Size(RowTokens(rows)))
    decreases |rows|
  {
    hide Step, RowOf, SetCurrent, RowForm.Valid, RowForm.Tokens;
    var t := Current(p.tables);
    if rows == [] {
      assert t.rows + [] == t.rows;
      SetSame(p.tables);
    } else {
      var r, rest := rows[0], rows[1..];
      assert r.Valid();
      RowRun(p, r);
      RunConcat(p, r.Tokens(), RowTokens(rest));
      var row := RowOf(r, p.pos, false);
      var next := t.(rows := t.rows + [row]);
      var more := RowsOf(rest, p.pos + Size(r.Tokens()));
      SetTwice(p.tables, next, next.(rows := next.rows + more));
      RowsRun(Run(p, r.Tokens()), rest);
      SizeConcat(r.Tokens(), RowTokens(rest));
      Regroup(t.rows, [row], more);
    }
  }

  // Tables

  lemma GroupRun(p: Parser, tokens: seq<Token>, kind: Kind, name: string)
    requires Between(p) && EndsWith(tokens, kind, name)
    ensures var q := p.(pos := p.pos + Size(GapOf(tokens)));
            && Run(p, tokens) == Step(q, tokens[|tokens| - 1])
            && Size(tokens) == Size(GapOf(tokens)) + |tokens[|tokens| - 1].raw|
  {
    hide Step, Run, Size, IsGap;
    var gap, t := tokens[..|tokens| - 1], tokens[|tokens| - 1];
    assert tokens == gap + [t];
    RunConcat(p, gap, [t]);
    GapRun(p, gap);
    RunOne(Run(p, gap), t);
    SizeConcat(gap, [t]);
    SizeOne(t);
  }

  lemma HeadTag(p: Parser, t: Token)
    requires Between(p) && t.name == "thead" && !IsPlain(t)
    ensures Step(p, t) == p.(pos := p.pos + |t.raw|, inHead := t.kind == StartTag)
  {
  }

  lemma BodyTag(p: Parser, t: Token)
    requires Between(p)
    ensures t.Is(StartTag, "tbody") ==> Step(p, t) == p.(pos := p.pos + |t.raw|, inBody := true)
    ensures t.Is(EndTag, "tbody") ==>
              Step(p, t) == p.(pos := p.pos + |t.raw|, inBody := false, tables := SetCurrent(p.tables, Current(p.tables).(bodyEnd := p.pos)))
  {
  }

  lemma HeadFront(p: Parser, thead: seq<Token>)
    requires Between(p) && EndsWith(thead, StartTag, "thead")
    ensures Run(p, thead) == p.(pos := p.pos + Size(thead), inHead := true)
  {
    hide Run, Size, IsGap, Step;
    GroupRun(p, thead, StartTag, "thead");
    HeadTag(p.(pos := p.pos + Size(GapOf(thead))), thead[|thead| - 1]);
  }

  lemma HeadBack(p: Parser, theadEnd: seq<Token>)
    requires Between(p) && EndsWith(theadEnd, EndTag, "thead")
    ensures Run(p, theadEnd) == p.(pos := p.pos + Size(theadEnd), inHead := false)
  {
    hide Run, Size, IsGap, Step;
    GroupRun(p, theadEnd, EndTag, "thead");
    HeadTag(p.(pos := p.pos + Size(GapOf(theadEnd))), theadEnd[|theadEnd| - 1]);
  }

  lemma HeadRun(p: Parser, thead: seq<Token>, head: RowForm, theadEnd: seq<Token>)
    requires Between(p) && Current(p.tables).head.None? && !p.inBody
    requires EndsWith(thead, StartTag, "thead") && EndsWith(theadEnd, EndTag, "thead") && head.Valid()
    ensures var row := RowOf(head, p.pos + Size(thead), true);
            Run(p, thead + head.Tokens() + theadEnd) ==
            p.(pos := p.pos + Size(thead) + Size(head.Tokens()) + Size(theadEnd), inHead := false,
               tables := SetCurrent(p.tables, Current(p.tables).(head := Some(row))))
  {
    hide Run, Size, RowOf, SetCurrent, EndsWith, RowForm.Valid, RowForm.Tokens;
    RunConcat(p, thead + head.Tokens(), theadEnd);
    RunConcat(p, thead, head.Tokens());
    HeadFront(p, thead);
    var p1 := p.(pos := p.pos + Size(thead), inHead := true);
    RowRun(p1, head);
    HeadBack(Run(p1, head.Tokens()), theadEnd);
  }

  lemma BodyFront(p: Parser, tbody: seq<Token>, rows: seq<RowForm>)
    requires Between(p) && !p.inHead && !p.inBody && EndsWith(tbody, StartTag, "tbody")
    requires forall i | 0 <= i < |rows| :: rows[i].Valid()
    ensures var from := p.pos + Size(tbody);
            Run(p, tbody + RowTokens(rows)) ==
            AddRows(p, RowsOf(rows, from), from + Size(RowTokens(rows))).(inBody := true)
  {
    hide Run, Size, IsGap, RowsOf, SetCurrent, Step, RowTokens, RowForm.Valid;
    RunConcat(p, tbody, RowTokens(rows));
    GroupRun(p, tbody, StartTag, "tbody");
    BodyTag(p.(pos := p.pos + Size(GapOf(tbody))), tbody[|tbody| - 1]);
    var p1 := p.(pos := p.pos + Size(tbody), inBody := true);
    RowsRun(p1, rows);
  }

  /** The current table with its body rows and body end. */
  function FillBody(p: Parser, rows: seq<Row>, end: nat, pos: nat): Parser
    requires p.tables != []
  {
    var t := Current(p.tables);
    p.(pos := pos, tables := SetCurrent(p.tables, t.(rows := t.rows + rows, bodyEnd := end)))
  }

  function EndBody(p: Parser, end: nat, pos: nat): Parser
    requires p.tables != []
  {
    p.(pos := pos, inBody := false, tables := SetCurrent(p.tables, Current(p.tables).(bodyEnd := end)))
  }

  lemma BodyBack(p: Parser, tbodyEnd: seq<Token>)
    requires Between(p) && EndsWith(tbodyEnd, EndTag, "tbody")
    ensures Run(p, tbodyEnd) ==
            EndBody(p, p.pos + Size(GapOf(tbodyEnd)), p.pos + Size(tbodyEnd))
  {
    hide Run, Size, IsGap, Step, SetCurrent;
    GroupRun(p, tbodyEnd, EndTag, "tbody");
    BodyTag(p.(pos := p.pos + Size(GapOf(tbodyEnd))), tbodyEnd[|tbodyEnd| - 1]);
  }

  lemma BodyEffect(p: Parser, rows: seq<Row>, last: nat, end: nat, pos: nat)
    requires Between(p) && !p.inBody
    ensures var q := AddRows(p, rows, last).(inBody := true);
            q.pos == last && Between(q) && EndBody(q, end, pos) == FillBody(p, rows, end, pos)
  {
    var full := Current(p.tables).(rows := Current(p.tables).rows + rows);
    SetTwice(p.tables, full, full.(bodyEnd := end));
  }

  lemma BodyRun(p: Parser, tbody: seq<Token>, rows: seq<RowForm>, tbodyEnd: seq<Token>)
    requires Between(p) && !p.inHead && !p.inBody
    requires EndsWith(tbody, StartTag, "tbody") && EndsWith(tbodyEnd, EndTag, "tbody")
    requires forall i | 0 <= i < |rows| :: rows[i].Valid()
    ensures var from := p.pos + Size(tbody);
            var last := from + Size(RowTokens(rows));
            Run(p, tbody + RowTokens(rows) + tbodyEnd) ==
            FillBody(p, RowsOf(rows, from), last + Size(GapOf(tbodyEnd)), last + Size(tbodyEnd))
  {
    hide Run, Size, EndsWith, RowsOf, RowTokens, RowForm.Valid, AddRows, GapOf, FillBody, EndBody;
    var from := p.pos + Size(tbody);
    var last := from + Size(RowTokens(rows));
    RunConcat(p, tbody + RowTokens(rows), tbodyEnd);
    BodyFront(p, tbody, rows);
    BodyEffect(p, RowsOf(rows, from), last, last + Size(GapOf(tbodyEnd)), last + Size(tbodyEnd));
    BodyBack(AddRows(p, RowsOf(rows, from), last).(inBody := true), tbodyEnd);
  }

  predicate Outside(p: Parser) {
    p.depth == 0 && p.row.None? && p.cell == NoCell && !p.inHead && !p.inBody
  }

  lemma TableSize(t: TableForm)
    ensures Size(t.Tokens()) ==
            Size(t.gap) + |t.open.raw| + Size(t.thead) + Size(t.head.Tokens()) + Size(t.theadEnd)
            + Size(t.tbody) + Size(RowTokens(t.rows)) + Size(t.tbodyEnd) + Size(t.end) + |t.close.raw|
  {
    hide Size, RowTokens;
    var head, body := t.thead + t.head.Tokens() + t.theadEnd, t.tbody + RowTokens(t.rows) + t.tbodyEnd;
    SizeConcat(t.gap + [t.open] + head + body, t.end + [t.close]);
    SizeConcat(t.gap + [t.open] + head, body);
    SizeConcat(t.gap + [t.open], head);
    SizeConcat(t.gap, [t.open]);
    SizeConcat(t.thead + t.head.Tokens(), t.theadEnd);
    SizeConcat(t.thead, t.head.Tokens());
    SizeConcat(t.tbody + RowTokens(t.rows), t.tbodyEnd);
    SizeConcat(t.tbody, RowTokens(t.rows));
    SizeConcat(t.end, [t.close]);
    SizeOne(t.open);
    SizeOne(t.close);
  }

  lemma TableOpens(p: Parser, t: Token)
    requires Outside(p) && t.Is(StartTag, "table")
    ensures Step(p, t) == p.(pos := p.pos + |t.raw|, depth := 1, tables := p.tables + [Table(Get(t.attrs, "id"), false, None, [], 0)])
  {
  }

  lemma TableCloses(p: Parser, t: Token)
    requires Between(p) && !p.inHead && !p.inBody && t.Is(EndTag, "table")
    ensures Step(p, t) == p.(pos := p.pos + |t.raw|, depth := 0)
  {
  }

  lemma SetAppended(tables: seq<Table>, a: Table, b: Table)
    ensures SetCurrent(tables + [a], b) == tables + [b] && Current(tables + [a]) == a
  {
  }

  lemma TableRun(p: Parser, t: TableForm)
    requires Outside(p) && t.Valid()
    ensures Run(p, t.Tokens()) == p.(pos := p.pos + Size(t.Tokens()), tables := p.tables + [TableOf(t, p.pos)])
  {
    hide Step, Run, Size, IsGap, RowOf, RowsOf, SetCurrent, RowTokens;
    var head, body := t.thead + t.head.Tokens() + t.theadEnd, t.tbody + RowTokens(t.rows) + t.tbodyEnd;
    RunConcat(p, t.gap + [t.open] + head + body, t.end + [t.close]);
    RunConcat(p, t.gap + [t.open] + head, body);
    RunConcat(p, t.gap + [t.open], head);
    RunConcat(p, t.gap, [t.open]);
    GapRun(p, t.gap);
    var p1 := Run(p, t.gap);
    RunOne(p1, t.open);
    TableOpens(p1, t.open);
    var p2 := Step(p1, t.open);
    var t0 := Table(Get(t.open.attrs, "id"), false, None, [], 0);
    SetAppended(p.tables, t0, t0);
    HeadRun(p2, t.thead, t.head, t.theadEnd);
    var t1 := t0.(head := Some(RowOf(t.head, p2.pos + Size(t.thead), true)));
    SetAppended(p.tables, t0, t1);
    var p3 := Run(p2, head);
    BodyRun(p3, t.tbody, t.rows, t.tbodyEnd);
    var result := TableOf(t, p.pos);
    assert [] + result.rows == result.rows;
    SetAppended(p.tables, t1, result);
    var p4 := Run(p3, body);
    RunConcat(p4, t.end, [t.close]);
    GapRun(p4, t.end);
    var p5 := Run(p4, t.end);
    RunOne(p5, t.close);
    TableCloses(p5, t.close);
    TableSize(t);
  }

  function PageTokens(tables: seq<TableForm>): seq<Token>
    decreases |tables|
  {
    if tables == [] then [] else tables[0].Tokens() + PageTokens(tables[1..])
  }

  function TablesOf(tables: seq<TableForm>, pos: nat): seq<Table>
    requires forall i | 0 <= i < |tables| :: tables[i].Valid()
    decreases |tables|
  {
    if tables == [] then []
    else
      assert tables[0].Valid();
      [TableOf(tables[0], pos)] + TablesOf(tables[1..], pos + Size(tables[0].Tokens()))
  }

  lemma {:induction false} TablesRun(p: Parser, tables: seq<TableForm>)
    requires Outside(p) && forall i | 0 <= i < |tables| :: tables[i].Valid()
    ensures Run(p, PageTokens(tables)).tables == p.tables + TablesOf(tables, p.pos)
    decreases |tables|
  {
    hide Step, TableOf, TableForm.Valid, TableForm.Tokens;
    if tables == [] {
      assert p.tables + [] == p.tables;
    } else {
      var t, rest := tables[0], tables[1..];
      assert t.Valid();
      TableRun(p, t);
      RunConcat(p, t.Tokens(), PageTokens(rest));
      TablesRun(Run(p, t.Tokens()), rest);
      Regroup(p.tables, [TableOf(t, p.pos)], TablesOf(rest, p.pos + Size(t.Tokens())));
    }
  }

  /** Printing a page in this form and parsing it finds exactly its tables: every header
      row, body row and cell, at its place, with its class, text, check box and sort key. */
  lemma ParseFindsEveryTable(offset: nat, tables: seq<TableForm>)
    requires forall i | 0 <= i < |tables| :: tables[i].Valid()
    ensures ParsedTables(offset, PageTokens(tables)) == TablesOf(tables, offset)
  {
    hide Run, PageTokens, TablesOf, TableForm.Valid, TableForm.Tokens;
    TablesRun(Start(offset), tables);
    assert [] + TablesOf(tables, offset) == TablesOf(tables, offset);
  }
}
