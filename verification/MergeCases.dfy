/** A printed page that cannot be merged. */
module MergeCases {
  import opened Text
  import opened Tables
  import opened TableSpans
  import opened PageForm
  import opened PageNesting
  import opened Merge

  function Tag(kind: Kind, name: string, raw: string): Token {
    Token(kind, name, map[], None, raw)
  }

  function EmptyRow(): RowForm {
    RowForm([], Tag(StartTag, "tr", "<tr>"), [], [], Tag(EndTag, "tr", "</tr>"))
  }

  /** A table whose header and two body rows have no cells. */
  function EmptyRows(): TableForm {
    TableForm([], Tag(StartTag, "table", "<table>"), EmptyRow(), [EmptyRow(), EmptyRow()],
              [Tag(StartTag, "thead", "<thead>")], [Tag(EndTag, "thead", "</thead>")],
              [Tag(StartTag, "tbody", "<tbody>")], [Tag(EndTag, "tbody", "</tbody>")],
              [], Tag(EndTag, "table", "</table>"))
  }

  lemma EmptyRowTokens()
    ensures EmptyRow().Valid() && AllTokens(EmptyRow().Tokens())
    ensures EmptyRow().Tokens() == [Tag(StartTag, "tr", "<tr>"), Tag(EndTag, "tr", "</tr>")]
  {
    assert CellTokens([]) == [];
  }

  lemma RowTokensTwice(r: RowForm)
    requires AllTokens(r.Tokens())
    ensures AllTokens(RowTokens([r, r]))
  {
    hide AllTokens, RowForm.Tokens;
    assert [r, r][1..] == [r] && [r][1..] == [];
    AllOfBoth(r.Tokens(), []);
    AllOfBoth(r.Tokens(), r.Tokens() + []);
    NoTokens();
  }

  lemma NoTokens()
    ensures AllTokens([]) && RowTokens([]) == [] && PageTokens([]) == []
  {
  }

  lemma OneToken(t: Token)
    requires IsToken(t)
    ensures AllTokens([t])
  {
  }

  lemma GroupTag(kind: Kind, name: string, raw: string)
    requires (name == "thead" || name == "tbody") && |raw| == (if kind == StartTag then 7 else 8)
    requires kind == StartTag || kind == EndTag
    ensures EndsWith([Tag(kind, name, raw)], kind, name) && AllTokens([Tag(kind, name, raw)])
  {
  }

  lemma EmptyRowsValid()
    ensures EmptyRows().Valid() && AllTokens(EmptyRows().Tokens())
  {
    hide RowForm.Valid, RowForm.Tokens, RowTokens, AllTokens, EndsWith, EmptyRow;
    var t := EmptyRows();
    EmptyRowTokens();
    RowTokensTwice(EmptyRow());
    GroupTag(StartTag, "thead", "<thead>");
    GroupTag(EndTag, "thead", "</thead>");
    GroupTag(StartTag, "tbody", "<tbody>");
    GroupTag(EndTag, "tbody", "</tbody>");
    OneToken(t.open);
    OneToken(t.close);
    AllOfBoth(t.gap, [t.open]);
    AllOfBoth(t.end, [t.close]);
    NoTokens();
    AllOfBoth(t.thead, t.head.Tokens());
    AllOfBoth(t.thead + t.head.Tokens(), t.theadEnd);
    AllOfBoth(t.tbody, RowTokens(t.rows));
    AllOfBoth(t.tbody + RowTokens(t.rows), t.tbodyEnd);
    AllOfBoth(t.gap + [t.open], t.thead + t.head.Tokens() + t.theadEnd);
    AllOfBoth(t.gap + [t.open] + (t.thead + t.head.Tokens() + t.theadEnd), t.tbody + RowTokens(t.rows) + t.tbodyEnd);
    AllOfBoth(t.gap + [t.open] + (t.thead + t.head.Tokens() + t.theadEnd) + (t.tbody + RowTokens(t.rows) + t.tbodyEnd), t.end + [t.close]);
  }

  lemma EmptyRowsTable(pos: nat)
    ensures var t := TableOf(EmptyRows(), pos);
            !t.hasTemplate && t.head.Some? && t.bodyEnd > 0 && |t.rows| == 2 && t.rows[0].cells == []
  {
    hide Size;
    SizeOne(EmptyRows().open);
    var rows := [EmptyRow(), EmptyRow()];
    assert rows[1..] == [EmptyRow()] && rows[1..][1..] == [];
  }

  /** A page whose table has two body rows and no cell in them: showing it merged fails,
      whatever the other servers have, as long as the local rows are shown. */
  lemma EmptyRowFails(remotes: seq<Remote>, opts: Options, look: Look)
    requires forall i | 0 <= i < |remotes| :: RemoteIn(remotes[i])
    requires opts.only == "" || opts.only == opts.activeId
    ensures var page := Raws(PageTokens([EmptyRows()]));
            var tables := ParsedTables(0, PageTokens([EmptyRows()]));
            AllOk(tables, |page|) && |tables| == 1 && SplicesOf(page, tables, 1, remotes, opts, look).None?
  {
    hide TableOf, EmptyRows, TableForm.Valid, TableForm.Tokens, AllTokens, RemoteIn, SplicesOf, Raws, AllOk, Apart, AnyRemote, Run, WellNested;
    var forms := [EmptyRows()];
    EmptyRowsValid();
    assert forms[1..] == [];
    NoTokens();
    AllOfBoth(EmptyRows().Tokens(), []);
    ParseFindsEveryTable(0, forms);
    PrintedPageIsWellNested(0, forms);
    EmptyRowsTable(0);
    var tables := TablesOf(forms, 0);
    var t := TableOf(EmptyRows(), 0);
    assert tables == [t];
    assert Fails(tables[0], 0, remotes, opts);
    FailsExactly(Raws(PageTokens(forms)), tables, 1, remotes, opts, look);
  }
}
