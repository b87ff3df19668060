/** The spans found in any page are the places of its tags: rows from <tr> to behind
    </tr>, cells from <td> or <th> to behind their end tag, the body end in front of </tbody>. */
module TagSpans {
  import opened Text
  import opened Tables
  import opened TableSpans

  datatype Doc = Doc(offset: nat, tokens: seq<Token>)

  function OffsetOf(d: Doc, i: nat): nat
    requires i <= |d.tokens|
  {
    d.offset + |Raws(d.tokens[..i])|
  }

  /** A tag begins at the offset. */
  ghost predicate Begins(d: Doc, at: nat, kind: Kind, name: string) {
    exists i | 0 <= i < |d.tokens| :: d.tokens[i].Is(kind, name) && OffsetOf(d, i) == at
  }

  /** A tag ends at the offset. */
  ghost predicate Ends(d: Doc, at: nat, kind: Kind, name: string) {
    exists i | 0 <= i < |d.tokens| :: d.tokens[i].Is(kind, name) && OffsetOf(d, i + 1) == at
  }

  ghost predicate CellEnds(d: Doc, at: nat, kind: Kind) {
    Ends(d, at, kind, "td") || Ends(d, at, kind, "th")
  }

  ghost predicate CellMarked(d: Doc, c: Cell) {
    && (Begins(d, c.start, StartTag, "td") || Begins(d, c.start, StartTag, "th"))
    && CellEnds(d, c.openEnd, StartTag)
    && (c.end == 0 || CellEnds(d, c.end, EndTag))
  }

  ghost predicate CellsMarked(d: Doc, cells: seq<Cell>) {
    forall i | 0 <= i < |cells| :: CellMarked(d, cells[i])
  }

  ghost predicate RowMarked(d: Doc, r: Row) {
    Begins(d, r.start, StartTag, "tr") && CellsMarked(d, r.cells)
  }

  ghost predicate RowClosed(d: Doc, r: Row) {
    RowMarked(d, r) && Ends(d, r.end, EndTag, "tr")
  }

  ghost predicate TableMarked(d: Doc, t: Table) {
    && (t.head.Some? ==> RowClosed(d, t.head.value))
    && (forall i | 0 <= i < |t.rows| :: RowClosed(d, t.rows[i]))
    && (t.bodyEnd == 0 || Begins(d, t.bodyEnd, EndTag, "tbody"))
  }

  ghost predicate AllMarked(d: Doc, p: Parser) {
    && (forall i | 0 <= i < |p.tables| :: TableMarked(d, p.tables[i]))
    && (p.row.Some? ==> RowMarked(d, p.row.value))
  }

  lemma CurrentMarked(d: Doc, p: Parser, t: Table)
    requires AllMarked(d, p) && p.tables != [] && TableMarked(d, t)
    ensures AllMarked(d, p.(tables := SetCurrent(p.tables, t)))
  {
    hide TableMarked;
  }

  ghost predicate ChangeMarked(d: Doc, change: Change) {
    change.CloseAt? ==> CellEnds(d, change.pos, EndTag)
  }

  lemma LastMarked(d: Doc, r: Row, change: Change)
    requires RowMarked(d, r) && ChangeMarked(d, change)
    ensures RowMarked(d, ChangeLast(r, change)) && ChangeLast(r, change).end == r.end
  {
    hide CellEnds, Begins;
    if r.cells != [] {
      assert CellMarked(d, r.cells[|r.cells| - 1]);
    }
  }

  lemma OpenMarked(d: Doc, p: Parser, change: Change)
    requires AllMarked(d, p) && ChangeMarked(d, change)
    ensures AllMarked(d, ChangeOpen(p, change))
  {
    hide RowMarked, Begins, Ends, ChangeMarked, ChangeLast, SetCurrent;
    match p.cell {
      case OfRow =>
        if p.row.Some? {
          LastMarked(d, p.row.value, change);
        }
      case OfHead =>
        if p.tables != [] && Current(p.tables).head.Some? {
          var t := Current(p.tables);
          LastMarked(d, t.head.value, change);
          CurrentMarked(d, p, t.(head := Some(ChangeLast(t.head.value, change))));
        }
      case OfBody(i) =>
        if p.tables != [] && i < |Current(p.tables).rows| {
          var t := Current(p.tables);
          LastMarked(d, t.rows[i], change);
          CurrentMarked(d, p, t.(rows := t.rows[i := ChangeLast(t.rows[i], change)]));
        }
      case _ =>
    }
  }

  lemma StoreMarked(d: Doc, p: Parser, r: Row)
    requires AllMarked(d, p) && p.tables != [] && RowClosed(d, r)
    ensures AllMarked(d, StoreRow(p, r))
  {
    hide RowClosed, Begins, SetCurrent;
    var t := Current(p.tables);
    if p.inHead {
      CurrentMarked(d, p, t.(head := Some(r)));
    } else {
      CurrentMarked(d, p, t.(rows := t.rows + [r]));
    }
  }

  lemma NextOffset(d: Doc, n: nat)
    requires n < |d.tokens|
    ensures OffsetOf(d, n + 1) == OffsetOf(d, n) + |d.tokens[n].raw|
  {
    assert d.tokens[..n + 1] == d.tokens[..n] + [d.tokens[n]];
    RawsConcat(d.tokens[..n], [d.tokens[n]]);
    assert [d.tokens[n]][1..] == [];
  }

  /** Token n stands between two offsets. */
  lemma TokenMarks(d: Doc, n: nat)
    requires n < |d.tokens|
    ensures Begins(d, OffsetOf(d, n), d.tokens[n].kind, d.tokens[n].name)
    ensures Ends(d, OffsetOf(d, n + 1), d.tokens[n].kind, d.tokens[n].name)
  {
    hide OffsetOf;
  }

  lemma AddCellMarked(d: Doc, r: Row, c: Cell)
    requires RowMarked(d, r) && CellMarked(d, c)
    ensures RowMarked(d, r.(cells := r.cells + [c]))
  {
    hide CellMarked, Begins;
  }

  lemma InnerMarked(d: Doc, p: Parser, n: nat)
    requires n < |d.tokens| && AllMarked(d, p) && p.tables != []
    requires p.pos == OffsetOf(d, n + 1)
    ensures AllMarked(d, InnerTag(p, d.tokens[n], OffsetOf(d, n)))
  {
    hide Begins, Ends, OffsetOf, StoreRow, ChangeOpen, SetCurrent, CellsMarked;
    var t, start, cur := d.tokens[n], OffsetOf(d, n), Current(p.tables);
    TokenMarks(d, n);
    if t.Is(EndTag, "tbody") {
      CurrentMarked(d, p, cur.(bodyEnd := start));
    } else if t.Is(StartTag, "template") && p.inBody && p.row.None? {
      CurrentMarked(d, p, cur.(hasTemplate := true));
    } else if t.Is(StartTag, "tr") {
      NoCellsMarked(d);
    } else if t.Is(EndTag, "tr") && p.row.Some? {
      StoreMarked(d, p, p.row.value.(end := p.pos));
    } else if t.IsCell() && t.kind == StartTag && p.row.Some? {
      AddCellMarked(d, p.row.value, Cell(start, 0, p.pos, t.Attr("class"), t.Attr("colspan") != "", "", false, ""));
    } else if t.name == "input" {
      OpenMarked(d, p, Check);
    } else if t.name == "a" {
      if t.sort.Some? {
        OpenMarked(d, p, SortBy(t.sort.value));
      }
    } else if t.IsCell() && t.kind == EndTag {
      OpenMarked(d, p, CloseAt(p.pos));
    }
  }

  lemma NoCellsMarked(d: Doc)
    ensures CellsMarked(d, [])
  {
  }

  lemma TableTagMarked(d: Doc, p: Parser, t: Token)
    requires AllMarked(d, p)
    ensures AllMarked(d, TableTag(p, t))
  {
    hide RowClosed, RowMarked, Begins;
  }

  lemma StepMarked(d: Doc, p: Parser, n: nat)
    requires n < |d.tokens| && AllMarked(d, p) && p.pos == OffsetOf(d, n)
    ensures AllMarked(d, Step(p, d.tokens[n])) && Step(p, d.tokens[n]).pos == OffsetOf(d, n + 1)
  {
    hide TableMarked, RowMarked, OffsetOf, TableTag, InnerTag, ChangeOpen;
    var t := d.tokens[n];
    NextOffset(d, n);
    StepPos(p, t);
    var q := p.(pos := p.pos + |t.raw|);
    assert AllMarked(d, q);
    if !t.IsTag() {
      OpenMarked(d, q, AddText(t.raw));
    } else if t.name == "table" {
      TableTagMarked(d, q, t);
    } else if p.depth == 1 && p.tables != [] {
      InnerMarked(d, q, n);
    }
  }

  lemma {:induction false} RunMarked(d: Doc, p: Parser, n: nat)
    requires n <= |d.tokens| && AllMarked(d, p) && p.pos == OffsetOf(d, n)
    ensures AllMarked(d, Run(p, d.tokens[n..]))
    decreases |d.tokens| - n
  {
    hide AllMarked, OffsetOf, Step;
    if n < |d.tokens| {
      StepMarked(d, p, n);
      RunMarked(d, Step(p, d.tokens[n]), n + 1);
      assert d.tokens[n..][1..] == d.tokens[n + 1..];
    }
  }

  /** In any page, whatever its nesting, every span that is found is marked by its tags. */
  lemma SpansAreTags(d: Doc, i: nat)
    requires i < |ParsedTables(d.offset, d.tokens)|
    ensures TableMarked(d, ParsedTables(d.offset, d.tokens)[i])
  {
    hide TableMarked, Step;
    assert d.tokens[..0] == [] && d.tokens[0..] == d.tokens;
    assert OffsetOf(d, 0) == d.offset;
    RunMarked(d, Start(d.offset), 0);
  }

  // Between two tokens

  ghost predicate IsBoundary(d: Doc, at: nat) {
    exists i | 0 <= i <= |d.tokens| :: OffsetOf(d, i) == at
  }

  lemma {:induction false} OffsetsGrow(d: Doc, i: nat, j: nat)
    requires i <= j <= |d.tokens|
    ensures OffsetOf(d, i) <= OffsetOf(d, j)
    decreases j - i
  {
    hide OffsetOf;
    if i < j {
      OffsetsGrow(d, i, j - 1);
      NextOffset(d, j - 1);
    }
  }

  /** A header cell behind the last one is put five bytes before the end of the row. That
      is in front of the closing tag exactly when the tag is spelled </tr>; with a longer
      spelling it is inside of the tag. */
  lemma HeaderEndBoundary(d: Doc, end: nat, i: nat)
    requires i < |d.tokens| && d.tokens[i].Is(EndTag, "tr") && IsToken(d.tokens[i]) && OffsetOf(d, i + 1) == end
    ensures end >= 5
    ensures IsBoundary(d, end - 5) <==> |d.tokens[i].raw| == 5
  {
    hide OffsetOf;
    NextOffset(d, i);
    if |d.tokens[i].raw| == 5 {
      assert OffsetOf(d, i) == end - 5;
    }
    if IsBoundary(d, end - 5) {
      var k :| 0 <= k <= |d.tokens| && OffsetOf(d, k) == end - 5;
      if k <= i {
        OffsetsGrow(d, k, i);
      } else {
        OffsetsGrow(d, i + 1, k);
      }
    }
  }

  /** A header row without cells that ends in "</tr >": five bytes before its end is
      behind the "<" of the closing tag. */
  lemma SpacedClosingTag()
    ensures var d := Doc(0, [Token(StartTag, "tr", map[], None, "<tr>"), Token(EndTag, "tr", map[], None, "</tr >")]);
            && WellNested(Parser([Table("", false, None, [], 0)], None, NoCell, 1, true, false, 0), d.tokens)
            && OffsetOf(d, 1) == 4 && OffsetOf(d, 2) == 10 && !IsBoundary(d, 10 - 5)
  {
    var open, close := Token(StartTag, "tr", map[], None, "<tr>"), Token(EndTag, "tr", map[], None, "</tr >");
    var d := Doc(0, [open, close]);
    hide OffsetOf, Step, Fits;
    assert OffsetOf(d, 0) == 0 by { FirstOffset(d); }
    NextOffset(d, 0);
    NextOffset(d, 1);
    HeaderEndBoundary(d, 10, 1);
    EmptyRowNests(open, close);
  }

  lemma FirstOffset(d: Doc)
    ensures OffsetOf(d, 0) == d.offset
  {
  }

  lemma EmptyRowNests(open: Token, close: Token)
    requires open.Is(StartTag, "tr") && close.Is(EndTag, "tr") && IsToken(open) && IsToken(close)
    ensures WellNested(Parser([Table("", false, None, [], 0)], None, NoCell, 1, true, false, 0), [open, close])
  {
    var p := Parser([Table("", false, None, [], 0)], None, NoCell, 1, true, false, 0);
    hide StoreRow;
    assert [open, close][1..] == [close] && [close][1..] == [];
    var q := Step(p, open);
    assert q.row.Some? && q.cell == NoCell;
    assert Fits(p, open);
    assert Fits(q, close);
    assert WellNested(q, [close]);
  }
}
