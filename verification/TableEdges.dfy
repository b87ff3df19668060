/** internal/cluster/merge.go: what the parser makes of pages that are not in their usual
    form: tables inside tables, what follows a table, and cells that end behind their row. */
module TableEdges {
  import opened Text
  import opened Tables
  import opened TableSpans
  import opened PageForm

  // What follows a table

  lemma InnerAhead(q: Parser, front: seq<Table>, t: Token, start: nat)
    requires q.tables != []
    ensures var r := InnerTag(q, t, start);
            InnerTag(q.(tables := front + q.tables), t, start) == r.(tables := front + r.tables) && r.tables != [] && r.depth == q.depth
  {
    hide ChangeOpen, StoreRow, SetCurrent;
    var cur := Current(q.tables);
    SetAhead(q.tables, front, cur);
    if t.name == "thead" {
    } else if t.name == "tbody" {
      SetAhead(q.tables, front, cur.(bodyEnd := start));
    } else if t.name == "template" {
      SetAhead(q.tables, front, cur.(hasTemplate := true));
    } else if t.name == "tr" {
      if q.row.Some? {
        StoreAhead(q, front, q.row.value.(end := q.pos));
      }
    } else {
      CellAhead(q, front, t, start);
    }
  }

  lemma CellAhead(q: Parser, front: seq<Table>, t: Token, start: nat)
    requires q.tables != [] && t.name != "thead" && t.name != "tbody" && t.name != "template" && t.name != "tr"
    ensures var r := InnerTag(q, t, start);
            InnerTag(q.(tables := front + q.tables), t, start) == r.(tables := front + r.tables) && r.tables != [] && r.depth == q.depth
  {
    hide ChangeOpen, StoreRow, SetCurrent;
    if t.IsCell() {
      ChangeAhead(q, front, CloseAt(q.pos));
    } else if t.name == "input" {
      ChangeAhead(q, front, Check);
    } else if t.sort.Some? {
      ChangeAhead(q, front, SortBy(t.sort.value));
    }
  }

  lemma SetAhead(tables: seq<Table>, front: seq<Table>, t: Table)
    requires tables != []
    ensures SetCurrent(front + tables, t) == front + SetCurrent(tables, t)
    ensures Current(front + tables) == Current(tables)
  {
  }

  lemma ChangeAhead(q: Parser, front: seq<Table>, change: Change)
    requires q.tables != []
    ensures var r := ChangeOpen(q, change);
            ChangeOpen(q.(tables := front + q.tables), change) == r.(tables := front + r.tables) && r.tables != [] && r.depth == q.depth
  {
    hide ChangeLast, SetCurrent;
    var cur := Current(q.tables);
    SetAhead(q.tables, front, cur);
    if q.cell == OfRow {
    } else if q.cell == OfHead && cur.head.Some? {
      SetAhead(q.tables, front, cur.(head := Some(ChangeLast(cur.head.value, change))));
    } else if q.cell.OfBody? && q.cell.i < |cur.rows| {
      SetAhead(q.tables, front, cur.(rows := cur.rows[q.cell.i := ChangeLast(cur.rows[q.cell.i], change)]));
    }
  }

  lemma StoreAhead(q: Parser, front: seq<Table>, row: Row)
    requires q.tables != []
    ensures var r := StoreRow(q, row);
            StoreRow(q.(tables := front + q.tables), row) == r.(tables := front + r.tables) && r.tables != [] && r.depth == q.depth
  {
    hide SetCurrent;
    var cur := Current(q.tables);
    SetAhead(q.tables, front, cur.(head := Some(row)));
    SetAhead(q.tables, front, cur.(rows := cur.rows + [row]));
  }

  /** Tables found before do not matter to a step. */
  lemma StepAhead(q: Parser, front: seq<Table>, t: Token)
    requires q.depth > 0 ==> q.tables != []
    ensures var r := Step(q, t);
            Step(q.(tables := front + q.tables), t) == r.(tables := front + r.tables) && (r.depth > 0 ==> r.tables != [])
  {
    hide InnerTag, ChangeOpen;
    var p := q.(pos := q.pos + |t.raw|);
    if q.tables != [] {
      InnerAhead(p, front, t, q.pos);
      ChangeAhead(p, front, AddText(t.raw));
    }
    Regroup(front, q.tables, [Table(t.Attr("id"), false, None, [], 0)]);
  }

  lemma {:induction false} RunAhead(q: Parser, front: seq<Table>, tokens: seq<Token>)
    requires q.depth > 0 ==> q.tables != []
    ensures Run(q.(tables := front + q.tables), tokens).tables == front + Run(q, tokens).tables
    decreases |tokens|
  {
    hide Step;
    if tokens != [] {
      StepAhead(q, front, tokens[0]);
      RunAhead(Step(q, tokens[0]), front, tokens[1..]);
    }
  }

  /** Behind the end of a table, whatever was left open in it, parsing begins anew: the
      tables found are those so far and those of the rest of the page. */
  lemma ParsingBeginsAnew(p: Parser, end: Token, rest: seq<Token>)
    requires p.depth == 1 && end.kind == EndTag && end.name == "table"
    ensures Run(p, [end] + rest).tables == p.tables + ParsedTables(p.pos + |end.raw|, rest)
  {
    hide Run, InnerTag, ChangeOpen;
    RunConcat(p, [end], rest);
    RunOne(p, end);
    var q := Start(p.pos + |end.raw|);
    assert p.tables + q.tables == p.tables;
    RunAhead(q, p.tables, rest);
  }

  // Tables inside tables

  /** The tokens end the open tables, level of them, and the last one with the last token. */
  predicate Ends(tokens: seq<Token>, level: nat)
    decreases |tokens|
  {
    if tokens == [] then level == 0
    else
      var t := tokens[0];
      && level > 0
      && Ends(tokens[1..], if t.name == "table" && t.kind == StartTag then level + 1
                           else if t.name == "table" && t.kind == EndTag then level - 1 else level)
  }

  predicate IsWholeTable(tokens: seq<Token>) {
    tokens != [] && tokens[0].kind == StartTag && tokens[0].name == "table" && Ends(tokens[1..], 1)
  }

  lemma InsideStep(p: Parser, t: Token)
    requires p.depth > 1
    ensures Step(p, t) == p.(pos := p.pos + |t.raw|,
                             depth := if t.name == "table" && t.kind == StartTag then p.depth + 1
                                      else if t.name == "table" && t.kind == EndTag then p.depth - 1 else p.depth)
  {
    hide InnerTag, ChangeOpen;
  }

  lemma {:induction false} InsideRun(p: Parser, tokens: seq<Token>, level: nat)
    requires p.depth > level && Ends(tokens, level)
    ensures Run(p, tokens) == p.(pos := p.pos + Size(tokens), depth := p.depth - level)
    decreases |tokens|
  {
    hide Step;
    if tokens != [] {
      var t := tokens[0];
      InsideStep(p, t);
      InsideRun(Step(p, t), tokens[1..], Step(p, t).depth - (p.depth - level));
    }
  }

  /** A table inside of a table, whatever it holds, is passed over as a whole. */
  lemma NestedIsSkipped(p: Parser, tokens: seq<Token>)
    requires p.depth > 0 && IsWholeTable(tokens)
    ensures Run(p, tokens) == p.(pos := p.pos + |Raws(tokens)|)
  {
    hide InnerTag, ChangeOpen;
    InsideRun(Step(p, tokens[0]), tokens[1..], 1);
  }

  // Cells that end behind their row

  lemma PlainStep(p: Parser, t: Token)
    requires p.depth == 1 && p.cell != NoCell && IsPlain(t)
    ensures Step(p, t) == ChangeOpen(p, AddText(if t.kind == TextToken then t.raw else "")).(pos := p.pos + |t.raw|)
  {
    hide InnerTag, TableTag, ChangeOpen;
    TextTwice(p, "", "");
    MovedText(p, p.pos + |t.raw|, AddText(t.raw));
  }

  lemma {:induction false} TextRun(p: Parser, content: seq<Token>)
    requires p.depth == 1 && p.cell != NoCell && IsGap(content)
    ensures Run(p, content) == ChangeOpen(p, AddText(TextOf(content))).(pos := p.pos + |Raws(content)|)
    decreases |content|
  {
    hide Step, ChangeOpen;
    if content == [] {
      TextTwice(p, "", "");
    } else {
      var t, q := content[0], Step(p, content[0]);
      var piece, rest := if t.kind == TextToken then t.raw else "", TextOf(content[1..]);
      assert IsPlain(t);
      PlainStep(p, t);
      KeepsCell(p, AddText(piece));
      TextRun(q, content[1..]);
      MovedText(ChangeOpen(p, AddText(piece)), q.pos, AddText(rest));
      TextTwice(p, piece, rest);
    }
  }

  lemma MovedText(p: Parser, pos: nat, change: Change)
    ensures ChangeOpen(p.(pos := pos), change) == ChangeOpen(p, change).(pos := pos)
  {
  }

  lemma KeepsCell(p: Parser, change: Change)
    ensures var q := ChangeOpen(p, change);
            && q.cell == p.cell && q.depth == p.depth && q.pos == p.pos
            && (p.row.None? ==> q.row.None?) && (p.tables != [] ==> q.tables != [])
  {
  }

  lemma LastTwice(r: Row, a: string, b: string)
    ensures ChangeLast(ChangeLast(r, AddText(a)), AddText(b)) == ChangeLast(r, AddText(a + b))
    ensures ChangeLast(r, AddText("")) == r
  {
    if r.cells != [] {
      var c := r.cells[|r.cells| - 1];
      assert c.text + a + b == c.text + (a + b);
      assert c.text + "" == c.text;
    }
  }

  lemma TextTwice(p: Parser, a: string, b: string)
    ensures ChangeOpen(ChangeOpen(p, AddText(a)), AddText(b)) == ChangeOpen(p, AddText(a + b))
    ensures ChangeOpen(p, AddText("")) == p
  {
    hide ChangeLast, SetCurrent;
    if p.cell == OfRow && p.row.Some? {
      LastTwice(p.row.value, a, b);
    } else if p.cell == OfHead && p.tables != [] && Current(p.tables).head.Some? {
      var t, h := Current(p.tables), Current(p.tables).head.value;
      LastTwice(h, a, b);
      SetSame(p.tables);
      SetTwice(p.tables, t.(head := Some(ChangeLast(h, AddText(a)))), t.(head := Some(ChangeLast(h, AddText(a + b)))));
    } else if p.cell.OfBody? && p.tables != [] && p.cell.i < |Current(p.tables).rows| {
      var t, i := Current(p.tables), p.cell.i;
      LastTwice(t.rows[i], a, b);
      SetSame(p.tables);
      var once, twice := t.rows[i := ChangeLast(t.rows[i], AddText(a))], t.rows[i := ChangeLast(t.rows[i], AddText(a + b))];
      assert once[i := ChangeLast(once[i], AddText(b))] == twice;
      assert t.rows[i := t.rows[i]] == t.rows;
      SetTwice(p.tables, t.(rows := once), t.(rows := twice));
    }
  }

  /** What a row is stored as: the header, or the last row of the body. */
  function Stored(p: Parser, row: Row): seq<Table>
    requires p.tables != []
  {
    var t := Current(p.tables);
    SetCurrent(p.tables, if p.inHead then t.(head := Some(row)) else t.(rows := t.rows + [row]))
  }

  /** A cell that is still open when its row ends is found again in the stored row: it gets
      the text up to its own end, and that end. */
  lemma LateCell(p: Parser, rowEnd: Token, content: seq<Token>, close: Token)
    requires InCell(p) && rowEnd.Is(EndTag, "tr") && IsGap(content) && close.kind == EndTag && IsCellName(close.name)
    ensures var pos := p.pos + |rowEnd.raw| + |Raws(content)| + |close.raw|;
            var c := LastOf(p.row.value);
            var row := WithLast(p.row.value, c.(text := c.text + TextOf(content), end := pos)).(end := p.pos + |rowEnd.raw|);
            Run(p, [rowEnd] + content + [close]) == p.(tables := Stored(p, row), row := None, cell := NoCell, pos := pos)
  {
    hide Run, Step, ChangeOpen, StoreRow, TextOf, Raws, IsGap, Stored, SetCurrent, ChangeLast, WithLast;
    RunConcat(p, [rowEnd] + content, [close]);
    LateText(p, rowEnd, content);
    var q := Run(p, [rowEnd] + content);
    RunOne(q, close);
    CellEnds(q, close);
    var row := ChangeLast(p.row.value.(end := p.pos + |rowEnd.raw|), AddText(TextOf(content)));
    StoredChange(p, row, CloseAt(q.pos + |close.raw|), q.(pos := q.pos + |close.raw|));
    LateRow(p.row.value, p.pos + |rowEnd.raw|, TextOf(content), q.pos + |close.raw|);
  }

  lemma LateText(p: Parser, rowEnd: Token, content: seq<Token>)
    requires InCell(p) && rowEnd.Is(EndTag, "tr") && IsGap(content)
    ensures var row := ChangeLast(p.row.value.(end := p.pos + |rowEnd.raw|), AddText(TextOf(content)));
            var q := Run(p, [rowEnd] + content);
            && q == p.(tables := Stored(p, row), row := None, cell := LateCellPlace(p), pos := p.pos + |rowEnd.raw| + |Raws(content)|)
            && q.tables != []
  {
    hide Run, Step, ChangeOpen, StoreRow, TextOf, Raws, IsGap, ChangeLast;
    RunConcat(p, [rowEnd], content);
    RunOne(p, rowEnd);
    RowEnds(p, rowEnd);
    var q := Step(p, rowEnd);
    TextRun(q, content);
    StoredChange(p, p.row.value.(end := p.pos + |rowEnd.raw|), AddText(TextOf(content)), q);
  }

  lemma LateRow(r: Row, end: nat, text: string, pos: nat)
    requires r.cells != []
    ensures ChangeLast(ChangeLast(r.(end := end), AddText(text)), CloseAt(pos)) ==
            WithLast(r, LastOf(r).(text := LastOf(r).text + text, end := pos)).(end := end)
  {
  }

  lemma RowEnds(p: Parser, t: Token)
    requires InCell(p) && t.Is(EndTag, "tr")
    ensures var row := p.row.value.(end := p.pos + |t.raw|);
            Step(p, t) == p.(tables := Stored(p, row), row := None, cell := LateCellPlace(p), pos := p.pos + |t.raw|)
  {
    hide SetCurrent;
  }

  function LateCellPlace(p: Parser): Place
    requires p.tables != []
  {
    if p.inHead then OfHead else OfBody(|Current(p.tables).rows|)
  }

  lemma CellEnds(p: Parser, t: Token)
    requires p.depth == 1 && p.tables != [] && p.row.None? && p.cell != NoCell && t.kind == EndTag && IsCellName(t.name)
    ensures Step(p, t) == ChangeOpen(p.(pos := p.pos + |t.raw|), CloseAt(p.pos + |t.raw|)).(cell := NoCell)
  {
    hide ChangeOpen, SetCurrent, StoreRow;
  }

  lemma StoredChange(p: Parser, row: Row, change: Change, q: Parser)
    requires p.tables != [] && q.tables == Stored(p, row) && q.cell == LateCellPlace(p)
    ensures ChangeOpen(q, change) == q.(tables := Stored(p, ChangeLast(row, change)))
  {
    hide ChangeLast;
    var t := Current(p.tables);
    if p.inHead {
      SetTwice(p.tables, t.(head := Some(row)), t.(head := Some(ChangeLast(row, change))));
    } else {
      var rows, n := t.rows + [row], |t.rows|;
      assert rows[n := ChangeLast(row, change)] == t.rows + [ChangeLast(row, change)];
      SetTwice(p.tables, t.(rows := rows), t.(rows := t.rows + [ChangeLast(row, change)]));
    }
  }

  /** A cell left open in a header that another row replaces is lost: nothing behind that
      row changes the new header. */
  lemma ReplacedHeader(p: Parser, rowEnd: Token, content: seq<Token>)
    requires p.depth == 1 && p.tables != [] && p.row.Some? && p.inHead && p.cell == OfHead
    requires rowEnd.Is(EndTag, "tr") && IsGap(content)
    ensures Run(p, [rowEnd] + content).tables == Stored(p, p.row.value.(end := p.pos + |rowEnd.raw|))
  {
    hide Run, SetCurrent, TextOf, Raws, IsGap;
    RunConcat(p, [rowEnd], content);
    RunOne(p, rowEnd);
    TextRun(Step(p, rowEnd), content);
  }

  // Templates

  /** A table is marked as filled by JavaScript exactly by a template in its body between
      two rows; one inside of a row does not mark it. */
  lemma TemplateMarks(p: Parser, t: Token)
    requires p.depth == 1 && p.tables != []
    ensures var q := Step(p, t);
            && |q.tables| == |p.tables|
            && (Current(q.tables).hasTemplate <==>
                Current(p.tables).hasTemplate || (t.kind == StartTag && t.name == "template" && p.inBody && p.row.None?))
  {
    hide ChangeOpen, StoreRow, SetCurrent;
    var q := p.(pos := p.pos + |t.raw|);
    ChangeKeepsMark(q, AddText(t.raw));
    if t.name == "tr" && q.row.Some? {
      StoreKeepsMark(q, q.row.value.(end := q.pos));
    } else if t.IsCell() {
      ChangeKeepsMark(q, CloseAt(q.pos));
    } else if t.name == "input" {
      ChangeKeepsMark(q, Check);
    } else if t.sort.Some? {
      ChangeKeepsMark(q, SortBy(t.sort.value));
    }
  }

  predicate SameMark(a: seq<Table>, b: seq<Table>)
    requires a != []
  {
    |b| == |a| && Current(b).hasTemplate == Current(a).hasTemplate
  }

  lemma ChangeKeepsMark(p: Parser, change: Change)
    requires p.tables != []
    ensures SameMark(p.tables, ChangeOpen(p, change).tables)
  {
    hide ChangeLast, SetCurrent;
  }

  lemma StoreKeepsMark(p: Parser, row: Row)
    requires p.tables != []
    ensures SameMark(p.tables, StoreRow(p, row).tables)
  {
    hide SetCurrent;
  }
}
