/** A printed page of tables is well-nested, so its spans are in order. */
module PageNesting {
  import opened Text
  import opened Tables
  import opened TableSpans
  import opened PageForm

  predicate AllTokens(tokens: seq<Token>) {
    forall i | 0 <= i < |tokens| :: IsToken(tokens[i])
  }

  lemma AllOfBoth(a: seq<Token>, b: seq<Token>)
    ensures AllTokens(a + b) <==> AllTokens(a) && AllTokens(b)
  {
    hide IsToken;
    var c := a + b;
    assert forall i | 0 <= i < |a| :: c[i] == a[i];
    assert forall i | 0 <= i < |b| :: c[|a| + i] == b[i];
    if AllTokens(c) {
      forall i | 0 <= i < |b|
        ensures IsToken(b[i])
      {
        assert IsToken(c[|a| + i]);
      }
    }
  }

  // Pieces of a well-nested page

  lemma {:induction false} NestedConcat(p: Parser, a: seq<Token>, b: seq<Token>)
    requires WellNested(p, a) && WellNested(Run(p, a), b)
    ensures WellNested(p, a + b)
    decreases |a|
  {
    hide Fits, Step;
    if a == [] {
      assert a + b == b;
    } else {
      assert (a + b)[1..] == a[1..] + b;
      NestedConcat(Step(p, a[0]), a[1..], b);
    }
  }

  lemma NestedOne(p: Parser, t: Token)
    requires Fits(p, t)
    ensures WellNested(p, [t])
  {
    hide Fits, Step;
    assert [t][1..] == [];
    assert WellNested(Step(p, t), []);
  }

  lemma InlineFits(p: Parser, t: Token)
    requires IsInline(t) && IsToken(t)
    ensures Fits(p, t)
  {
  }

  lemma {:induction false} InlineNests(p: Parser, tokens: seq<Token>)
    requires AllTokens(tokens) && forall i | 0 <= i < |tokens| :: IsInline(tokens[i])
    ensures WellNested(p, tokens)
    decreases |tokens|
  {
    hide Fits, Step, IsInline, IsToken;
    if tokens != [] {
      InlineFits(p, tokens[0]);
      InlineNests(Step(p, tokens[0]), tokens[1..]);
    }
  }

  /** A gap and the tag behind it, when the tag may follow. */
  lemma GapNests(p: Parser, gap: seq<Token>, t: Token)
    requires p.cell == NoCell && IsGap(gap) && AllTokens(gap + [t]) && Fits(p.(pos := p.pos + Size(gap)), t)
    ensures WellNested(p, gap + [t])
  {
    hide Fits, Step, IsToken, Run, WellNested, Size;
    AllOfBoth(gap, [t]);
    InlineNests(p, gap);
    GapRun(p, gap);
    NestedOne(Run(p, gap), t);
    NestedConcat(p, gap, [t]);
  }

  // Cells and rows

  lemma CellTagFits(p: Parser, t: Token)
    requires IsToken(t) && t.IsCell() && (t.kind == EndTag || (t.kind == StartTag && p.cell == NoCell))
    ensures Fits(p, t)
  {
  }

  lemma CellNests(p: Parser, c: CellForm)
    requires InRow(p) && c.Valid() && AllTokens(c.Tokens())
    ensures WellNested(p, c.Tokens())
  {
    hide Fits, Step, IsToken, Run, WellNested, Size, IsGap, IsInline;
    var front := c.gap + [c.open];
    AllOfBoth(front + c.content, [c.close]);
    AllOfBoth(front, c.content);
    AllOfBoth(c.gap, [c.open]);
    assert IsToken([c.open][0]) && IsToken([c.close][0]);
    CellTagFits(p.(pos := p.pos + Size(c.gap)), c.open);
    GapNests(p, c.gap, c.open);
    InlineNests(Run(p, front), c.content);
    NestedConcat(p, front, c.content);
    CellTagFits(Run(p, front + c.content), c.close);
    NestedOne(Run(p, front + c.content), c.close);
    NestedConcat(p, front + c.content, [c.close]);
  }

  lemma {:induction false} CellsNest(p: Parser, cells: seq<CellForm>)
    requires InRow(p) && AllTokens(CellTokens(cells)) && forall i | 0 <= i < |cells| :: cells[i].Valid()
    ensures WellNested(p, CellTokens(cells))
    decreases |cells|
  {
    hide Fits, Step, IsToken, Run, Size, CellForm.Valid, CellForm.Tokens, CellOf;
    if cells != [] {
      var c, rest := cells[0], CellTokens(cells[1..]);
      AllOfBoth(c.Tokens(), rest);
      CellNests(p, c);
      CellRun(p, c);
      CellsNest(Run(p, c.Tokens()), cells[1..]);
      NestedConcat(p, c.Tokens(), rest);
    }
  }

  lemma RowTagFits(p: Parser, t: Token)
    requires IsToken(t) && t.name == "tr" && p.cell == NoCell && (t.kind == EndTag || p.row.None?)
    ensures Fits(p, t)
  {
  }

  lemma RowNests(p: Parser, r: RowForm)
    requires Between(p) && r.Valid() && AllTokens(r.Tokens())
    requires (p.inHead && Current(p.tables).head.None?) || p.inBody
    ensures WellNested(p, r.Tokens())
  {
    hide Fits, Step, IsToken, Run, WellNested, Size, IsGap, CellTokens, CellForm.Valid, RowForm.Tokens;
    var front, back, cells := r.gap + [r.open], r.end + [r.close], CellTokens(r.cells);
    RowPieces(r);
    AllOfBoth(front + cells, back);
    AllOfBoth(front, cells);
    LastIsToken(r.gap, r.open);
    LastIsToken(r.end, r.close);
    RowTagFits(p.(pos := p.pos + Size(r.gap)), r.open);
    GapNests(p, r.gap, r.open);
    RowFront(p, r.gap, r.open);
    var p1 := Run(p, front);
    CellsNest(p1, r.cells);
    CellsRun(p1, r.cells);
    RowTail(Run(p1, cells), r.end, r.close);
    NestedConcat(p1, cells, back);
    NestedConcat(p, front, cells + back);
    Regroup(front, cells, back);
  }

  lemma LastIsToken(gap: seq<Token>, t: Token)
    requires AllTokens(gap + [t])
    ensures IsToken(t)
  {
    hide IsToken;
    assert (gap + [t])[|gap|] == t;
  }

  lemma RowTail(p: Parser, end: seq<Token>, close: Token)
    requires InRow(p) && IsGap(end) && close.Is(EndTag, "tr") && AllTokens(end + [close])
    ensures WellNested(p, end + [close])
  {
    hide Fits, IsToken, WellNested, Size, IsGap;
    LastIsToken(end, close);
    RowTagFits(p.(pos := p.pos + Size(end)), close);
    GapNests(p, end, close);
  }

  lemma StoredRow(p: Parser, r: Row)
    requires Between(p)
    ensures var q := StoreRow(p, r); Between(q) && q.inBody == p.inBody && q.inHead == p.inHead
  {
    hide SetCurrent;
  }

  lemma {:induction false} RowsNest(p: Parser, rows: seq<RowForm>)
    requires Between(p) && p.inBody && AllTokens(RowTokens(rows)) && forall i | 0 <= i < |rows| :: rows[i].Valid()
    ensures WellNested(p, RowTokens(rows))
    decreases |rows|
  {
    hide Fits, Step, IsToken, Run, Size, RowForm.Valid, RowForm.Tokens, StoreRow, RowOf;
    if rows != [] {
      var r, rest := rows[0], RowTokens(rows[1..]);
      AllOfBoth(r.Tokens(), rest);
      RowNests(p, r);
      RowRun(p, r);
      StoredRow(p.(pos := p.pos + Size(r.Tokens())), RowOf(r, p.pos, p.inHead));
      RowsNest(Run(p, r.Tokens()), rows[1..]);
      NestedConcat(p, r.Tokens(), rest);
    }
  }

  // Tables

  predicate IsEmptyTable(t: Table) {
    t.rows == [] && t.bodyEnd == 0
  }

  lemma GroupTagFits(p: Parser, t: Token)
    requires Between(p) && IsToken(t)
    ensures t.Is(StartTag, "thead") && !p.inHead && !p.inBody && IsEmptyTable(Current(p.tables)) && Current(p.tables).head.None? ==> Fits(p, t)
    ensures t.Is(EndTag, "thead") && !p.inBody ==> Fits(p, t)
    ensures t.Is(StartTag, "tbody") && !p.inHead && !p.inBody && IsEmptyTable(Current(p.tables)) ==> Fits(p, t)
    ensures t.Is(EndTag, "tbody") && p.inBody ==> Fits(p, t)
  {
  }

  /** The start or end tag of a thead or tbody with the gap in front of it. */
  lemma GroupNests(p: Parser, tokens: seq<Token>, kind: Kind, name: string)
    requires Between(p) && EndsWith(tokens, kind, name) && AllTokens(tokens)
    requires Fits(p.(pos := p.pos + Size(GapOf(tokens))), tokens[|tokens| - 1])
    ensures WellNested(p, tokens)
  {
    hide Fits, IsToken, WellNested, Size, IsGap;
    assert tokens == GapOf(tokens) + [tokens[|tokens| - 1]];
    GapNests(p, GapOf(tokens), tokens[|tokens| - 1]);
  }

  lemma HeadNests(p: Parser, thead: seq<Token>, head: RowForm, theadEnd: seq<Token>)
    requires Between(p) && !p.inHead && !p.inBody && IsEmptyTable(Current(p.tables)) && Current(p.tables).head.None?
    requires EndsWith(thead, StartTag, "thead") && EndsWith(theadEnd, EndTag, "thead") && head.Valid()
    requires AllTokens(thead) && AllTokens(head.Tokens()) && AllTokens(theadEnd)
    ensures WellNested(p, thead + head.Tokens() + theadEnd)
  {
    hide Fits, Run, WellNested, IsToken, Size, RowOf, StoreRow, IsGap, RowForm.Valid, RowForm.Tokens;
    GroupTagFits(p.(pos := p.pos + Size(GapOf(thead))), thead[|thead| - 1]);
    GroupNests(p, thead, StartTag, "thead");
    HeadFront(p, thead);
    var p1 := Run(p, thead);
    RowNests(p1, head);
    RowRun(p1, head);
    StoredRow(p1.(pos := p1.pos + Size(head.Tokens())), RowOf(head, p1.pos, true));
    NestedConcat(p, thead, head.Tokens());
    RunConcat(p, thead, head.Tokens());
    var p2 := Run(p1, head.Tokens());
    GroupTagFits(p2.(pos := p2.pos + Size(GapOf(theadEnd))), theadEnd[|theadEnd| - 1]);
    GroupNests(p2, theadEnd, EndTag, "thead");
    NestedConcat(p, thead + head.Tokens(), theadEnd);
  }

  lemma BodyOpens(p: Parser, tbody: seq<Token>) returns (q: Parser)
    requires Between(p) && !p.inHead && !p.inBody && IsEmptyTable(Current(p.tables))
    requires EndsWith(tbody, StartTag, "tbody") && AllTokens(tbody)
    ensures WellNested(p, tbody) && q == Run(p, tbody) && Between(q) && q.inBody
  {
    hide Fits, Run, WellNested, IsToken, Size, IsGap, Step;
    var last := p.(pos := p.pos + Size(GapOf(tbody)));
    GroupTagFits(last, tbody[|tbody| - 1]);
    GroupNests(p, tbody, StartTag, "tbody");
    GroupRun(p, tbody, StartTag, "tbody");
    BodyTag(last, tbody[|tbody| - 1]);
    q := Run(p, tbody);
  }

  lemma BodyCloses(p: Parser, tbodyEnd: seq<Token>)
    requires Between(p) && p.inBody && EndsWith(tbodyEnd, EndTag, "tbody") && AllTokens(tbodyEnd)
    ensures WellNested(p, tbodyEnd)
  {
    hide Fits, WellNested, IsToken, Size, IsGap;
    GroupTagFits(p.(pos := p.pos + Size(GapOf(tbodyEnd))), tbodyEnd[|tbodyEnd| - 1]);
    GroupNests(p, tbodyEnd, EndTag, "tbody");
  }

  lemma BodyRows(p: Parser, tbody: seq<Token>, rows: seq<RowForm>) returns (q: Parser)
    requires Between(p) && !p.inHead && !p.inBody && EndsWith(tbody, StartTag, "tbody")
    requires forall i | 0 <= i < |rows| :: rows[i].Valid()
    ensures q == Run(p, tbody + RowTokens(rows)) && Between(q) && q.inBody
  {
    hide Run, Size, RowsOf, EndsWith, RowTokens, RowForm.Valid, SetCurrent;
    BodyFront(p, tbody, rows);
    var from := p.pos + Size(tbody);
    q := AddRows(p, RowsOf(rows, from), from + Size(RowTokens(rows))).(inBody := true);
  }

  lemma BodyNests(p: Parser, tbody: seq<Token>, rows: seq<RowForm>, tbodyEnd: seq<Token>)
    requires Between(p) && !p.inHead && !p.inBody && IsEmptyTable(Current(p.tables))
    requires EndsWith(tbody, StartTag, "tbody") && EndsWith(tbodyEnd, EndTag, "tbody")
    requires AllTokens(tbody) && AllTokens(RowTokens(rows)) && AllTokens(tbodyEnd)
    requires forall i | 0 <= i < |rows| :: rows[i].Valid()
    ensures WellNested(p, tbody + RowTokens(rows) + tbodyEnd)
  {
    hide Run, WellNested, AllTokens, EndsWith, RowTokens, RowForm.Valid, IsEmptyTable;
    var p1 := BodyOpens(p, tbody);
    RowsNest(p1, rows);
    NestedConcat(p, tbody, RowTokens(rows));
    var p2 := BodyRows(p, tbody, rows);
    BodyCloses(p2, tbodyEnd);
    NestedConcat(p, tbody + RowTokens(rows), tbodyEnd);
  }

  lemma TableTagFits(p: Parser, t: Token)
    requires IsToken(t) && p.row.None? && !p.inHead && !p.inBody && t.IsTag() && t.name == "table"
    ensures Fits(p, t)
  {
  }

  function HeadTokens(t: TableForm): seq<Token> {
    t.thead + t.head.Tokens() + t.theadEnd
  }

  function BodyTokens(t: TableForm): seq<Token> {
    t.tbody + RowTokens(t.rows) + t.tbodyEnd
  }

  lemma TableParts(t: TableForm)
    requires AllTokens(t.Tokens())
    ensures t.Tokens() == (t.gap + [t.open]) + (HeadTokens(t) + (BodyTokens(t) + (t.end + [t.close])))
    ensures AllTokens(t.gap + [t.open]) && AllTokens(t.end + [t.close])
    ensures AllTokens(t.thead) && AllTokens(t.head.Tokens()) && AllTokens(t.theadEnd)
    ensures AllTokens(t.tbody) && AllTokens(RowTokens(t.rows)) && AllTokens(t.tbodyEnd)
  {
    hide AllTokens, RowTokens, RowForm.Tokens;
    var front, back := t.gap + [t.open], t.end + [t.close];
    AllOfBoth(front + HeadTokens(t) + BodyTokens(t), back);
    AllOfBoth(front + HeadTokens(t), BodyTokens(t));
    AllOfBoth(front, HeadTokens(t));
    AllOfBoth(t.thead + t.head.Tokens(), t.theadEnd);
    AllOfBoth(t.thead, t.head.Tokens());
    AllOfBoth(t.tbody + RowTokens(t.rows), t.tbodyEnd);
    AllOfBoth(t.tbody, RowTokens(t.rows));
    Regroup(front + HeadTokens(t), BodyTokens(t), back);
    Regroup(front, HeadTokens(t), BodyTokens(t) + back);
  }

  lemma TableNests(p: Parser, t: TableForm)
    requires Outside(p) && t.Valid() && AllTokens(t.Tokens())
    ensures WellNested(p, t.Tokens())
  {
    hide Fits, Run, Step, WellNested, IsToken, AllTokens, Size, RowOf, RowsOf, IsGap, EndsWith, RowTokens, RowForm.Valid, RowForm.Tokens, SetCurrent;
    var front, head, body, back := t.gap + [t.open], HeadTokens(t), BodyTokens(t), t.end + [t.close];
    TableParts(t);
    LastIsToken(t.gap, t.open);
    LastIsToken(t.end, t.close);
    TableTagFits(p.(pos := p.pos + Size(t.gap)), t.open);
    GapNests(p, t.gap, t.open);
    var p1 := TableFront(p, t.gap, t.open);
    HeadNests(p1, t.thead, t.head, t.theadEnd);
    HeadRun(p1, t.thead, t.head, t.theadEnd);
    var row := RowOf(t.head, p1.pos + Size(t.thead), true);
    CurrentIs(p1.tables, Current(p1.tables).(head := Some(row)));
    var p2 := Run(p1, head);
    BodyNests(p2, t.tbody, t.rows, t.tbodyEnd);
    BodyRun(p2, t.tbody, t.rows, t.tbodyEnd);
    var p3 := Run(p2, body);
    TableBack(p3, t.end, t.close);
    NestedConcat(p2, body, back);
    NestedConcat(p1, head, body + back);
    NestedConcat(p, front, head + (body + back));
  }

  lemma CurrentIs(tables: seq<Table>, t: Table)
    requires tables != []
    ensures SetCurrent(tables, t) != [] && Current(SetCurrent(tables, t)) == t
  {
  }

  lemma TableFront(p: Parser, gap: seq<Token>, open: Token) returns (q: Parser)
    requires Outside(p) && IsGap(gap) && open.Is(StartTag, "table")
    ensures q == Run(p, gap + [open]) && Between(q) && !q.inHead && !q.inBody
    ensures IsEmptyTable(Current(q.tables)) && Current(q.tables).head.None?
  {
    hide Run, Step, Size, IsGap;
    RunConcat(p, gap, [open]);
    GapRun(p, gap);
    RunOne(Run(p, gap), open);
    TableOpens(Run(p, gap), open);
    q := Run(p, gap + [open]);
  }

  lemma TableBack(p: Parser, end: seq<Token>, close: Token)
    requires Between(p) && !p.inHead && !p.inBody && IsGap(end) && close.Is(EndTag, "table") && AllTokens(end + [close])
    ensures WellNested(p, end + [close])
  {
    hide Fits, IsToken, WellNested, Size, IsGap;
    LastIsToken(end, close);
    TableTagFits(p.(pos := p.pos + Size(end)), close);
    GapNests(p, end, close);
  }

  lemma {:induction false} TablesNest(p: Parser, tables: seq<TableForm>)
    requires Outside(p) && AllTokens(PageTokens(tables)) && forall i | 0 <= i < |tables| :: tables[i].Valid()
    ensures WellNested(p, PageTokens(tables))
    decreases |tables|
  {
    hide Fits, Step, IsToken, Run, Size, TableForm.Valid, TableForm.Tokens, TableOf;
    if tables != [] {
      var t, rest := tables[0], PageTokens(tables[1..]);
      assert t.Valid();
      AllOfBoth(t.Tokens(), rest);
      TableNests(p, t);
      TableRun(p, t);
      TablesNest(Run(p, t.Tokens()), tables[1..]);
      NestedConcat(p, t.Tokens(), rest);
    }
  }

  /** Every page of tables in their usual form is well-nested, wherever it begins: what is
      known of well-nested pages holds for it, and the tables that were printed lie in
      order and apart. */
  lemma PrintedPageIsWellNested(offset: nat, tables: seq<TableForm>)
    requires AllTokens(PageTokens(tables)) && forall i | 0 <= i < |tables| :: tables[i].Valid()
    ensures WellNested(Start(offset), PageTokens(tables))
    ensures AllOk(TablesOf(tables, offset), offset + Size(PageTokens(tables))) && Apart(TablesOf(tables, offset))
  {
    hide Run, WellNested, PageTokens, TablesOf, TableForm.Valid, TableForm.Tokens, AllOk, Apart;
    TablesNest(Start(offset), tables);
    ParseFindsEveryTable(offset, tables);
    SpansAreOrdered(offset, PageTokens(tables));
  }
}
