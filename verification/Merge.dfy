/** internal/cluster/merge.go: one page with the rows of several servers. */
module Merge {
  import opened Text
  import opened Tables
  import opened TableSpans
  import opened Groups
  import opened Splices

  /** How cells are read and what is printed for the Server column. */
  datatype Look = Look(namesRow: Cell -> bool, isTime: Cell -> bool, timeOf: Cell -> Option<int>, textOf: Cell -> string,
                       lessText: (string, string) -> bool, rowCell: string -> string, headCell: string -> string,
                       nothingHere: nat -> string)

  /** A page of another server and how its rows are rewritten: raw text, row and column. */
  datatype Remote = Remote(name: string, page: string, tables: seq<Table>, rewrite: (string, Row, nat) -> string)

  datatype Options = Options(only: string, activeId: string, activeName: string, forceColumn: bool,
                             sortKey: string, sortDesc: bool, serverDir: string, sortTime: bool)

  function Min(a: nat, b: nat): nat {
    if a < b then a else b
  }

  /** The last column with a property. */
  function LastColumn(cells: seq<Cell>, p: Cell -> bool): (col: Option<nat>)
    ensures col.Some? ==> col.value < |cells| && p(cells[col.value])
    ensures forall i | (if col.Some? then col.value else -1) < i < |cells| :: !p(cells[i])
    decreases |cells|
  {
    if cells == [] then None
    else if p(cells[|cells| - 1]) then Some(|cells| - 1)
    else LastColumn(cells[..|cells| - 1], p)
  }

  method FindLastColumn(cells: seq<Cell>, p: Cell -> bool) returns (col: Option<nat>)
    ensures col == LastColumn(cells, p)
  {
    col := None;
    for i := 0 to |cells|
      invariant col == LastColumn(cells[..i], p)
    {
      assert cells[..i + 1][..i] == cells[..i];
      if p(cells[i]) {
        col := Some(i);
      }
    }
    assert cells[..|cells|] == cells;
  }

  datatype Columns = Columns(head: nat, time: Option<nat>, sort: Option<nat>)

  function ColumnsOf(t: Table, opts: Options, look: Look): Columns
    requires t.head.Some?
  {
    var cells := t.head.value.cells;
    Columns(|cells|, LastColumn(cells, look.isTime),
            if opts.sortKey == "" then None else LastColumn(cells, (c: Cell) => c.sortKey == opts.sortKey))
  }

  function SortText(cols: Columns, r: Row, look: Look): string {
    if cols.sort.None? then ""
    else
      var i := cols.sort.value - (if cols.head > |r.cells| then cols.head - |r.cells| else 0);
      if 0 <= i < |r.cells| then look.textOf(r.cells[i]) else ""
  }

  function LineOf(html: string, r: Row, server: string, cols: Columns, look: Look): Line {
    Line(html, IsDetail(r), server, SortText(cols, r, look),
         if cols.time.Some? && cols.time.value < |r.cells| then look.timeOf(r.cells[cols.time.value]) else None)
  }

  // Rows of this server

  predicate RowIn(r: Row, page: string) {
    RowOk(r) && r.end <= |page|
  }

  predicate TableIn(t: Table, page: string) {
    TableOk(t, |page|)
  }

  /** Where the Server cell of a local row goes. */
  function CellAt(t: Table, r: Row, look: Look): (at: nat)
    requires t.head.Some? && RowOk(r) && r.cells != []
    ensures r.start <= at <= r.end
    ensures (exists i | 0 <= i < |r.cells| :: at == r.cells[i].start) || at == r.cells[|r.cells| - 1].end
  {
    var col := Min(RowColumn(t, r, look.namesRow), |r.cells|);
    assert CellOk(r.cells[Min(col, |r.cells| - 1)], r.start + 4, r.end - 5);
    if col < |r.cells| then r.cells[col].start else r.cells[|r.cells| - 1].end
  }

  function LocalHtml(page: string, t: Table, r: Row, look: Look): string
    requires t.head.Some? && RowIn(r, page) && r.cells != []
  {
    if IsDetail(r) then page[r.start..r.end]
    else
      var at, col := CellAt(t, r, look), Min(RowColumn(t, r, look.namesRow), |r.cells| - 1);
      page[r.start..at] + look.rowCell(r.cells[col].classes) + page[at..r.end]
  }

  /** A row without cells has no class to copy: its index is out of range. */
  predicate AllHaveCells(rows: seq<Row>) {
    forall i | 0 <= i < |rows| :: rows[i].cells != []
  }

  predicate AllIn(rows: seq<Row>, page: string) {
    forall i | 0 <= i < |rows| :: RowIn(rows[i], page)
  }

  function LocalLines(page: string, t: Table, opts: Options, look: Look): seq<Line>
    requires t.head.Some? && AllIn(t.rows, page) && AllHaveCells(t.rows)
  {
    seq(|t.rows|, i requires 0 <= i < |t.rows| =>
      LineOf(LocalHtml(page, t, t.rows[i], look), t.rows[i], opts.activeName, ColumnsOf(t, opts, look), look))
  }

  /** One line as it is read from a row: the value under the sorted header, found from the
      right in a short row, and the time under the last time header. */
  predicate ReadsRow(l: Line, r: Row, server: string, head: Row, opts: Options, look: Look) {
    && l.detail == (|r.cells| == 1) && l.server == server
    && (match LastColumn(head.cells, look.isTime)
        case None => l.time == None
        case Some(i) => l.time == if i < |r.cells| then look.timeOf(r.cells[i]) else None)
    && (match if opts.sortKey == "" then None else LastColumn(head.cells, (c: Cell) => c.sortKey == opts.sortKey)
        case None => l.sortText == ""
        case Some(i) =>
          var missing := if |r.cells| < |head.cells| then |head.cells| - |r.cells| else 0;
          l.sortText == if missing <= i < missing + |r.cells| then look.textOf(r.cells[i - missing]) else "")
  }

  /** A row with one cell is printed as it is. Any other row gets the Server cell in front
      of the cell at its column, or behind the last cell, with the class of that cell. */
  predicate ShowsLocalRow(html: string, page: string, t: Table, r: Row, look: Look)
    requires t.head.Some? && r.cells != []
  {
    var c, last := RowColumn(t, r, look.namesRow), r.cells[|r.cells| - 1];
    var cell := if c < |r.cells| then r.cells[c] else last;
    var at := if c < |r.cells| then cell.start else last.end;
    && r.start <= at <= r.end <= |page|
    && html == if |r.cells| == 1 then page[r.start..r.end] else page[r.start..at] + look.rowCell(cell.classes) + page[at..r.end]
  }

  ghost predicate ShowsLocalRows(lines: seq<Line>, page: string, t: Table, opts: Options, look: Look)
    requires t.head.Some? && AllHaveCells(t.rows)
  {
    && |lines| == |t.rows|
    && forall i | 0 <= i < |lines| ::
      ShowsLocalRow(lines[i].html, page, t, t.rows[i], look) && ReadsRow(lines[i], t.rows[i], opts.activeName, t.head.value, opts, look)
  }

  lemma LineReads(html: string, r: Row, server: string, t: Table, opts: Options, look: Look)
    requires t.head.Some?
    ensures LineOf(html, r, server, ColumnsOf(t, opts, look), look).html == html
    ensures ReadsRow(LineOf(html, r, server, ColumnsOf(t, opts, look), look), r, server, t.head.value, opts, look)
  {
  }

  lemma LocalHtmlShows(page: string, t: Table, r: Row, look: Look)
    requires t.head.Some? && RowIn(r, page) && r.cells != []
    ensures ShowsLocalRow(LocalHtml(page, t, r, look), page, t, r, look)
  {
    hide RowColumn;
    assert CellOk(r.cells[|r.cells| - 1], r.start + 4, r.end - 5);
  }

  lemma LocalLinesShow(page: string, t: Table, opts: Options, look: Look)
    requires t.head.Some? && AllIn(t.rows, page) && AllHaveCells(t.rows)
    ensures ShowsLocalRows(LocalLines(page, t, opts, look), page, t, opts, look)
  {
    hide RowIn, LocalHtml, LineOf, ColumnsOf, ReadsRow, ShowsLocalRow;
    forall i | 0 <= i < |t.rows|
      ensures ShowsLocalRow(LocalLines(page, t, opts, look)[i].html, page, t, t.rows[i], look)
      ensures ReadsRow(LocalLines(page, t, opts, look)[i], t.rows[i], opts.activeName, t.head.value, opts, look)
    {
      var r := t.rows[i];
      assert RowIn(r, page) && r.cells != [];
      LocalHtmlShows(page, t, r, look);
      LineReads(LocalHtml(page, t, r, look), r, opts.activeName, t, opts, look);
    }
  }

  /** The loop over the local rows; None stands for the run-time error. */
  method AddLocalRows(page: string, t: Table, opts: Options, look: Look) returns (groups: Option<seq<Group>>)
    requires t.head.Some? && AllIn(t.rows, page)
    ensures groups.Some? <==> AllHaveCells(t.rows)
    ensures groups.Some? ==> groups.value == GroupsOf(LocalLines(page, t, opts, look))
    ensures groups.Some? ==> exists lines :: ShowsLocalRows(lines, page, t, opts, look) && groups.value == GroupsOf(lines)
  {
    hide RowIn, LocalHtml, LineOf, ColumnsOf, GroupsOf, ShowsLocalRows;
    var cols := ColumnsOf(t, opts, look);
    var rows: seq<Group> := [];
    for n := 0 to |t.rows|
      invariant AllHaveCells(t.rows[..n])
      invariant AllHaveCells(t.rows) ==>
                  AddAll(rows, LocalLines(page, t, opts, look)[n..]) == AddAll([], LocalLines(page, t, opts, look))
    {
      var r := t.rows[n];
      if |r.cells| == 0 {
        return None;
      }
      ghost var lines := if AllHaveCells(t.rows) then LocalLines(page, t, opts, look) else [];
      assert AllHaveCells(t.rows) ==> lines[n..][1..] == lines[n + 1..];
      rows := AddLine(rows, LineOf(LocalHtml(page, t, r, look), r, opts.activeName, cols, look));
    }
    assert t.rows[..|t.rows|] == t.rows;
    ghost var lines := LocalLines(page, t, opts, look);
    assert lines[|lines|..] == [];
    AddBehind([], lines);
    assert [] + GroupsOf(lines) == GroupsOf(lines);
    LocalLinesShow(page, t, opts, look);
    groups := Some(rows);
  }

  // Rows of other servers

  predicate RemoteIn(rp: Remote) {
    AllOk(rp.tables, |rp.page|)
  }

  lemma RemoteRows(rp: Remote, t: Table)
    requires RemoteIn(rp) && t in rp.tables
    ensures AllIn(t.rows, rp.page)
  {
    hide RowOk;
    var i :| 0 <= i < |rp.tables| && rp.tables[i] == t;
    assert TableOk(rp.tables[i], |rp.page|);
  }

  function RemoteHtml(rp: Remote, other: Table, r: Row, look: Look): string
    requires other.head.Some? && RowIn(r, rp.page)
  {
    rp.rewrite(rp.page[r.start..r.end], r, RowColumn(other, r, look.namesRow))
  }

  function RowLines(rp: Remote, other: Table, cols: Columns, look: Look): seq<Line>
    requires other.head.Some? && AllIn(other.rows, rp.page)
  {
    seq(|other.rows|, i requires 0 <= i < |other.rows| =>
      LineOf(RemoteHtml(rp, other, other.rows[i], look), other.rows[i], rp.name, cols, look))
  }

  /** The table of a remote page that has rows to show. */
  function Shown(rp: Remote, t: Table, index: nat): (m: Option<Table>)
    ensures m.Some? ==> m.value in rp.tables && IsReal(m.value)
  {
    var m := MatchTable(rp.tables, t.id, index);
    if m.Some? && IsReal(m.value) then m else None
  }

  function RemoteLines(rp: Remote, t: Table, index: nat, cols: Columns, look: Look): seq<Line>
    requires RemoteIn(rp)
  {
    var m := Shown(rp, t, index);
    if m.None? then [] else
      RemoteRows(rp, m.value);
      RowLines(rp, m.value, cols, look)
  }

  function RemoteLists(remotes: seq<Remote>, t: Table, index: nat, cols: Columns, look: Look): (lists: seq<seq<Line>>)
    requires forall i | 0 <= i < |remotes| :: RemoteIn(remotes[i])
    ensures |lists| == |remotes|
  {
    seq(|remotes|, i requires 0 <= i < |remotes| => RemoteLines(remotes[i], t, index, cols, look))
  }

  predicate AnyRemote(remotes: seq<Remote>, t: Table, index: nat) {
    exists i | 0 <= i < |remotes| :: Shown(remotes[i], t, index).Some?
  }

  method AddRowsOf(before: seq<Group>, rp: Remote, other: Table, cols: Columns, look: Look) returns (groups: seq<Group>)
    requires other.head.Some? && AllIn(other.rows, rp.page)
    ensures groups == AddAll(before, RowLines(rp, other, cols, look))
  {
    hide RowIn, RemoteHtml, LineOf, AddLine;
    groups := before;
    ghost var lines := RowLines(rp, other, cols, look);
    for n := 0 to |other.rows|
      invariant AddAll(groups, lines[n..]) == AddAll(before, lines)
    {
      assert lines[n..][1..] == lines[n + 1..];
      groups := AddLine(groups, LineOf(RemoteHtml(rp, other, other.rows[n], look), other.rows[n], rp.name, cols, look));
    }
    assert lines[|lines|..] == [];
  }

  method AddRemoteRows(remotes: seq<Remote>, t: Table, index: nat, cols: Columns, look: Look)
    returns (groups: seq<Group>, remoteAny: bool)
    requires forall i | 0 <= i < |remotes| :: RemoteIn(remotes[i])
    ensures groups == AddServers([], RemoteLists(remotes, t, index, cols, look))
    ensures remoteAny <==> AnyRemote(remotes, t, index)
  {
    hide RemoteIn, AddAll, RowLines, Shown, AllIn;
    groups, remoteAny := [], false;
    ghost var lists := RemoteLists(remotes, t, index, cols, look);
    for n := 0 to |remotes|
      invariant AddServers(groups, lists[n..]) == AddServers([], lists)
      invariant remoteAny <==> exists i | 0 <= i < n :: Shown(remotes[i], t, index).Some?
    {
      assert lists[n..][1..] == lists[n + 1..];
      var rp := remotes[n];
      assert RemoteIn(rp);
      var other := Shown(rp, t, index);
      if other.None? {
        AddNothing(groups);
        continue;
      }
      remoteAny := true;
      RemoteRows(rp, other.value);
      groups := AddRowsOf(groups, rp, other.value, cols, look);
    }
    assert lists[|lists|..] == [];
  }

  lemma AddNothing(groups: seq<Group>)
    ensures AddAll(groups, []) == groups
  {
  }

  // One table

  predicate IsMerged(t: Table) {
    !t.hasTemplate && t.head.Some? && t.bodyEnd > 0
  }

  predicate ShowsLocal(t: Table, opts: Options) {
    IsReal(t) && (opts.only == "" || opts.only == opts.activeId)
  }

  predicate Proceeds(t: Table, index: nat, remotes: seq<Remote>, opts: Options) {
    IsMerged(t) && (AnyRemote(remotes, t, index) || IsReal(t) || opts.only != "" || opts.forceColumn)
  }

  predicate Fails(t: Table, index: nat, remotes: seq<Remote>, opts: Options) {
    Proceeds(t, index, remotes, opts) && ShowsLocal(t, opts) && !AllHaveCells(t.rows)
  }

  /** The groups before sorting: the rows of this server, then those of the others. */
  function GroupsFor(page: string, t: Table, index: nat, remotes: seq<Remote>, opts: Options, look: Look): seq<Group>
    requires t.head.Some? && AllIn(t.rows, page) && forall i | 0 <= i < |remotes| :: RemoteIn(remotes[i])
    requires ShowsLocal(t, opts) ==> AllHaveCells(t.rows)
  {
    (if ShowsLocal(t, opts) then GroupsOf(LocalLines(page, t, opts, look)) else []) +
    AddServers([], RemoteLists(remotes, t, index, ColumnsOf(t, opts, look), look))
  }

  function OrderOf(cols: Columns, anyRemote: bool, opts: Options, look: Look): Option<(Group, Group) -> bool> {
    if cols.sort.Some? && anyRemote then
      Some(if opts.sortDesc then (a: Group, b: Group) => look.lessText(b.sortText, a.sortText)
           else (a: Group, b: Group) => look.lessText(a.sortText, b.sortText))
    else if opts.serverDir != "" then Some(if opts.serverDir == "desc" then ByServerDesc else ByServer)
    else if opts.sortTime && cols.time.Some? then Some(ByTime)
    else None
  }

  function Ordered(groups: seq<Group>, order: Option<(Group, Group) -> bool>): seq<Group> {
    if order.None? then groups else SortStable(groups, order.value)
  }

  /** Where the header cell goes. */
  function HeadAt(t: Table, look: Look): (at: nat)
    requires t.head.Some? && RowOk(t.head.value)
    ensures t.head.value.start < at < t.head.value.end
  {
    var head, col := t.head.value, TableColumn(t, look.namesRow);
    assert col < |head.cells| ==> CellOk(head.cells[col], head.start + 4, head.end - 5);
    if col < |head.cells| then head.cells[col].start else head.end - |"</tr>"|
  }

  function BodyFrom(t: Table): nat {
    if t.rows == [] then t.bodyEnd else t.rows[0].start
  }

  function HeadSplice(t: Table, look: Look): Splice
    requires t.head.Some? && RowOk(t.head.value)
  {
    var cells := t.head.value.cells;
    Splice(HeadAt(t, look), 0,
           look.headCell(if cells == [] then "" else cells[Min(TableColumn(t, look.namesRow), |cells| - 1)].classes))
  }

  function BodySplice(t: Table, groups: seq<Group>, look: Look): Splice
    requires t.head.Some? && BodyFrom(t) <= t.bodyEnd
  {
    Splice(BodyFrom(t), t.bodyEnd - BodyFrom(t),
           if groups == [] then look.nothingHere(|t.head.value.cells| + 1) else Body(groups))
  }

  lemma BodyBehindHead(t: Table, page: string)
    requires TableIn(t, page) && IsMerged(t)
    ensures RowOk(t.head.value) && AllIn(t.rows, page)
    ensures t.head.value.end <= BodyFrom(t) <= t.bodyEnd <= |page|
  {
    hide CellsOk, CellOk;
  }

  datatype Plan = Skip | Failure | Put(head: Splice, body: Splice)

  function PlanOf(page: string, t: Table, index: nat, remotes: seq<Remote>, opts: Options, look: Look): Plan
    requires TableIn(t, page) && forall i | 0 <= i < |remotes| :: RemoteIn(remotes[i])
  {
    if !Proceeds(t, index, remotes, opts) then Skip
    else if Fails(t, index, remotes, opts) then Failure
    else
      BodyBehindHead(t, page);
      var order := OrderOf(ColumnsOf(t, opts, look), AnyRemote(remotes, t, index), opts, look);
      Put(HeadSplice(t, look), BodySplice(t, Ordered(GroupsFor(page, t, index, remotes, opts, look), order), look))
  }

  method PlanTable(page: string, t: Table, index: nat, remotes: seq<Remote>, opts: Options, look: Look) returns (plan: Plan)
    requires TableIn(t, page) && forall i | 0 <= i < |remotes| :: RemoteIn(remotes[i])
    ensures plan == PlanOf(page, t, index, remotes, opts, look)
  {
    hide TableIn, RemoteIn, RemoteLists, GroupsOf, LocalLines, IsReal, AllIn, HeadSplice, BodySplice, AnyRemote, AddServers, SortStable;
    if t.hasTemplate || t.head.None? || t.bodyEnd == 0 {
      return Skip;
    }
    BodyBehindHead(t, page);
    var timeCol := FindLastColumn(t.head.value.cells, look.isTime);
    var sortCol: Option<nat> := None;
    if opts.sortKey != "" {
      sortCol := FindLastColumn(t.head.value.cells, (c: Cell) => c.sortKey == opts.sortKey);
    }
    var cols := Columns(|t.head.value.cells|, timeCol, sortCol);
    assert cols == ColumnsOf(t, opts, look);
    var remoteRows, remoteAny := AddRemoteRows(remotes, t, index, cols, look);
    var showLocal := opts.only == "" || opts.only == opts.activeId;
    if !remoteAny && !IsReal(t) && opts.only == "" && !opts.forceColumn {
      return Skip;
    }
    var rows: seq<Group> := [];
    if IsReal(t) && showLocal {
      var localRows := AddLocalRows(page, t, opts, look);
      if localRows.None? {
        return Failure;
      }
      rows := localRows.value;
    }
    rows := rows + remoteRows;
    assert rows == GroupsFor(page, t, index, remotes, opts, look);
    var order := OrderOf(cols, remoteAny, opts, look);
    if order.Some? {
      rows := SortStable(rows, order.value);
    }
    plan := Put(HeadSplice(t, look), BodySplice(t, rows, look));
  }

  // The whole page

  datatype Outcome = Unchanged | Failed | Merged(page: string)

  /** The splices of the first n tables; None when one of them fails. */
  function SplicesOf(page: string, tables: seq<Table>, n: nat, remotes: seq<Remote>, opts: Options, look: Look): Option<seq<Splice>>
    requires n <= |tables| && AllOk(tables, |page|) && forall i | 0 <= i < |remotes| :: RemoteIn(remotes[i])
  {
    if n == 0 then Some([])
    else match SplicesOf(page, tables, n - 1, remotes, opts, look)
      case None => None
      case Some(before) =>
        match PlanOf(page, tables[n - 1], n - 1, remotes, opts, look)
        case Skip => Some(before)
        case Failure => None
        case Put(head, body) => Some(before + [head, body])
  }

  function WithFilter(splices: seq<Splice>, filter: Option<Splice>): seq<Splice> {
    if filter.None? then splices else PutInPlace(splices, filter.value)
  }

  function EndOf(splices: seq<Splice>): nat {
    if splices == [] then 0 else splices[|splices| - 1].at + splices[|splices| - 1].cut
  }

  /** A header cell put into a header row, or the body region of a table. */
  predicate IsHeadOrBody(s: Splice, t: Table) {
    && IsMerged(t)
    && ((s.cut == 0 && t.head.value.start < s.at < t.head.value.end) || (s.at == BodyFrom(t) && s.at + s.cut == t.bodyEnd))
  }

  predicate FromTable(s: Splice, tables: seq<Table>) {
    exists k | 0 <= k < |tables| :: IsHeadOrBody(s, tables[k])
  }

  lemma PlanIs(page: string, t: Table, index: nat, remotes: seq<Remote>, opts: Options, look: Look)
    requires TableIn(t, page) && forall i | 0 <= i < |remotes| :: RemoteIn(remotes[i])
    ensures var plan := PlanOf(page, t, index, remotes, opts, look);
            && (plan.Failure? <==> Fails(t, index, remotes, opts))
            && (plan.Put? ==>
                  && IsMerged(t) && IsHeadOrBody(plan.head, t) && IsHeadOrBody(plan.body, t)
                  && t.head.value.start <= plan.head.at && plan.head.cut == 0 && plan.head.at <= plan.body.at
                  && plan.body.at + plan.body.cut == t.bodyEnd <= |page|)
  {
    hide TableIn, RemoteIn, GroupsFor, OrderOf, IsReal, AllIn, AnyRemote, RowOk;
    if Proceeds(t, index, remotes, opts) {
      BodyBehindHead(t, page);
    }
  }

  lemma {:induction false} AppendTwo(splices: seq<Splice>, head: Splice, body: Splice)
    requires InOrder(splices, 0, EndOf(splices))
    requires EndOf(splices) <= head.at && head.cut == 0 && head.at <= body.at
    ensures InOrder(splices + [head, body], 0, EndOf(splices + [head, body]))
  {
    var two := [head, body];
    assert two[1..] == [body] && [body][1..] == [];
    assert InOrder([body], head.at, body.at + body.cut);
    InOrderConcat(splices, two, 0, EndOf(splices), body.at + body.cut);
  }

  lemma {:induction false} SplicesInOrder(page: string, tables: seq<Table>, n: nat, remotes: seq<Remote>, opts: Options, look: Look)
    requires n <= |tables| && AllOk(tables, |page|) && Apart(tables)
    requires forall i | 0 <= i < |remotes| :: RemoteIn(remotes[i])
    requires SplicesOf(page, tables, n, remotes, opts, look).Some?
    ensures var splices := SplicesOf(page, tables, n, remotes, opts, look).value;
            && InOrder(splices, 0, EndOf(splices)) && EndOf(splices) <= |page|
            && (EndOf(splices) == 0 || exists k | 0 <= k < n :: EndOf(splices) == tables[k].bodyEnd)
            && forall i | 0 <= i < |splices| :: FromTable(splices[i], tables)
    decreases n
  {
    hide PlanOf, RemoteIn, TableOk, IsHeadOrBody, IsMerged;
    if n > 0 {
      SplicesInOrder(page, tables, n - 1, remotes, opts, look);
      var before := SplicesOf(page, tables, n - 1, remotes, opts, look).value;
      var t := tables[n - 1];
      PlanIs(page, t, n - 1, remotes, opts, look);
      match PlanOf(page, t, n - 1, remotes, opts, look) {
        case Put(head, body) =>
          MergedHasHead(t);
          assert EndOf(before) <= t.head.value.start;
          AppendTwo(before, head, body);
          assert FromTable(head, tables) && FromTable(body, tables);
        case _ =>
      }
    }
  }

  lemma MergedHasHead(t: Table)
    requires IsMerged(t)
    ensures t.head.Some?
  {
  }

  /** The filter does not go into a body that is replaced. */
  predicate FilterFits(filter: Option<Splice>, tables: seq<Table>, page: string) {
    filter.Some? ==>
      && filter.value.cut == 0 && filter.value.at <= |page|
      && forall k | 0 <= k < |tables| && IsMerged(tables[k]) :: filter.value.at < BodyFrom(tables[k]) || tables[k].bodyEnd <= filter.value.at
  }

  lemma FilterInOrder(page: string, tables: seq<Table>, splices: seq<Splice>, filter: Option<Splice>)
    requires InOrder(splices, 0, |page|) && FilterFits(filter, tables, page)
    requires forall i | 0 <= i < |splices| :: FromTable(splices[i], tables)
    ensures InOrder(WithFilter(splices, filter), 0, |page|)
  {
    hide InOrder, IsMerged, BodyFrom, PutInPlace;
    if filter.Some? {
      var at := filter.value.at;
      forall i | 0 <= i < |splices|
        ensures splices[i].cut == 0 || at < splices[i].at || splices[i].at + splices[i].cut <= at
      {
        assert FromTable(splices[i], tables);
        var k :| 0 <= k < |tables| && IsHeadOrBody(splices[i], tables[k]);
        assert IsMerged(tables[k]);
      }
      PlaceKeepsOrder(splices, filter.value, 0, |page|);
    }
  }

  /** The result before the totals are counted again. */
  method MergeTables(page: string, tables: seq<Table>, remotes: seq<Remote>, opts: Options, filter: Option<Splice>, look: Look)
    returns (out: Outcome)
    requires AllOk(tables, |page|) && Apart(tables) && FilterFits(filter, tables, page)
    requires forall i | 0 <= i < |remotes| :: RemoteIn(remotes[i])
    ensures var splices := SplicesOf(page, tables, |tables|, remotes, opts, look);
            && (out.Failed? <==> splices.None?)
            && (out.Unchanged? <==> splices == Some([]))
            && (out.Merged? ==>
                  && InOrder(WithFilter(splices.value, filter), 0, |page|)
                  && out.page == Spliced(page, WithFilter(splices.value, filter), 0))
  {
    hide TableOk, RemoteIn, PlanOf, Apart, InOrder, Spliced, PutInPlace, FilterFits;
    var splices: seq<Splice> := [];
    for i := 0 to |tables|
      invariant SplicesOf(page, tables, i, remotes, opts, look) == Some(splices)
    {
      assert TableOk(tables[i], |page|);
      var plan := PlanTable(page, tables[i], i, remotes, opts, look);
      if plan.Failure? {
        FailureStays(page, tables, i + 1, |tables|, remotes, opts, look);
        return Failed;
      }
      if plan.Put? {
        splices := splices + [plan.head, plan.body];
      }
    }
    if splices == [] {
      return Unchanged;
    }
    SplicesInOrder(page, tables, |tables|, remotes, opts, look);
    InOrderWider(splices, 0, 0, EndOf(splices), |page|);
    FilterInOrder(page, tables, splices, filter);
    var text := WriteSplices(page, WithFilter(splices, filter));
    out := Merged(text);
  }

  lemma {:induction false} FailureStays(page: string, tables: seq<Table>, n: nat, m: nat, remotes: seq<Remote>, opts: Options, look: Look)
    requires n <= m <= |tables| && AllOk(tables, |page|) && forall i | 0 <= i < |remotes| :: RemoteIn(remotes[i])
    requires SplicesOf(page, tables, n, remotes, opts, look).None?
    ensures SplicesOf(page, tables, m, remotes, opts, look).None?
    decreases m
  {
    hide TableOk, RemoteIn, PlanOf;
    if n < m {
      FailureStays(page, tables, n, m - 1, remotes, opts, look);
    }
  }

  // What the merged page is

  /** The page cannot be merged exactly when some table that takes part shows local rows
      and one of them has no cell. */
  lemma {:induction false} FailsExactly(page: string, tables: seq<Table>, n: nat, remotes: seq<Remote>, opts: Options, look: Look)
    requires n <= |tables| && AllOk(tables, |page|) && forall i | 0 <= i < |remotes| :: RemoteIn(remotes[i])
    ensures SplicesOf(page, tables, n, remotes, opts, look).None? <==> exists k | 0 <= k < n :: Fails(tables[k], k, remotes, opts)
    decreases n
  {
    hide TableOk, RemoteIn, PlanOf, Fails;
    if n > 0 {
      FailsExactly(page, tables, n - 1, remotes, opts, look);
      assert TableOk(tables[n - 1], |page|);
      PlanIs(page, tables[n - 1], n - 1, remotes, opts, look);
    }
  }

  /** For a page with well-nested tables: the splices lie behind each other, each puts a
      header cell into a header row or replaces the body of a table, and outside of them
      page and result are the same text piece by piece. */
  lemma MergeKeepsPage(lead: string, tokens: seq<Token>, rest: string, page: string, remotes: seq<Remote>, opts: Options,
                       filter: Option<Splice>, look: Look)
    requires page == lead + Raws(tokens) + rest && WellNested(Start(|lead|), tokens)
    requires forall i | 0 <= i < |remotes| :: RemoteIn(remotes[i])
    requires FilterFits(filter, ParsedTables(|lead|, tokens), page)
    ensures AllOk(ParsedTables(|lead|, tokens), |page|) && Apart(ParsedTables(|lead|, tokens))
    ensures var tables := ParsedTables(|lead|, tokens);
            var planned := SplicesOf(page, tables, |tables|, remotes, opts, look);
            planned.Some? ==>
              && (forall i | 0 <= i < |planned.value| :: FromTable(planned.value[i], tables))
              && var splices := WithFilter(planned.value, filter);
                 && InOrder(splices, 0, |page|)
                 && (forall i | 0 <= i < |splices| :: splices[i].at + splices[i].cut <= |page|)
                 && Spliced(page, splices, 0) == Weave(Kept(page, splices, 0), Texts(splices))
                 && page == Weave(Kept(page, splices, 0), Cuts(page, splices))
  {
    hide TableOk, RemoteIn, PlanOf, Apart, InOrder, Spliced, PutInPlace, FilterFits, WellNested, Weave, Kept, Run, SplicesOf, FromTable, Raws;
    var tables := ParsedTables(|lead|, tokens);
    SpansAreOrdered(|lead|, tokens);
    AllGrow(tables, |lead| + |Raws(tokens)|, |page|);
    var planned := SplicesOf(page, tables, |tables|, remotes, opts, look);
    if planned.Some? {
      SplicesInOrder(page, tables, |tables|, remotes, opts, look);
      InOrderWider(planned.value, 0, 0, EndOf(planned.value), |page|);
      FilterInOrder(page, tables, planned.value, filter);
      var splices := WithFilter(planned.value, filter);
      InOrderEnds(splices, 0, |page|);
      OnlySplicesDiffer(page, splices, 0);
      assert page[0..] == page;
    }
  }

  /** The body of a merged table: its groups are those of every server, only moved as
      wholes; before sorting they are all rows in order; and no group mixes two servers
      exactly when no remote server behind another begins with a detail row. */
  lemma BodyHasEveryRow(page: string, t: Table, index: nat, remotes: seq<Remote>, opts: Options, look: Look)
    requires TableIn(t, page) && forall i | 0 <= i < |remotes| :: RemoteIn(remotes[i])
    requires PlanOf(page, t, index, remotes, opts, look).Put?
    ensures t.head.Some? && AllIn(t.rows, page) && (ShowsLocal(t, opts) ==> AllHaveCells(t.rows))
    ensures var cols := ColumnsOf(t, opts, look);
            var own := if ShowsLocal(t, opts) then LocalLines(page, t, opts, look) else [];
            var lists := RemoteLists(remotes, t, index, cols, look);
            var groups := GroupsFor(page, t, index, remotes, opts, look);
            var sorted := Ordered(groups, OrderOf(cols, AnyRemote(remotes, t, index), opts, look));
            && multiset(sorted) == multiset(groups)
            && Body(groups) == Html(own) + AllHtml(lists)
            && (groups == GroupsOf(own) + EachServer(lists) <==> NoneJoins(false, lists))
            && (sorted != [] ==> PlanOf(page, t, index, remotes, opts, look).body.text == Body(sorted))
  {
    hide RemoteIn, AnyRemote, AllIn, LocalLines, RemoteLists, AddServers, EachServer, Body, Html, AllHtml, GroupsOf, SortStable, TableIn, NoneJoins, IsReal, ColumnsOf, HeadSplice;
    BodyBehindHead(t, page);
    var cols := ColumnsOf(t, opts, look);
    var own := if ShowsLocal(t, opts) then LocalLines(page, t, opts, look) else [];
    var lists := RemoteLists(remotes, t, index, cols, look);
    var groups := GroupsFor(page, t, index, remotes, opts, look);
    var order := OrderOf(cols, AnyRemote(remotes, t, index), opts, look);
    if order.Some? {
      SortIsPermutation(groups, order.value);
    }
    GroupsNone(own);
    assert groups == GroupsOf(own) + AddServers([], lists);
    AddBehind([], own);
    assert [] + GroupsOf(own) == GroupsOf(own);
    GroupingKeepsText([], own);
    ServersKeepText([], lists);
    BodyConcat(GroupsOf(own), AddServers([], lists));
    NoBody();
    GroupsStayWithTheirServer(lists);
    SameTail(GroupsOf(own), AddServers([], lists), EachServer(lists));
  }

  lemma NoBody()
    ensures Body([]) == "" && forall s: string :: "" + s == s
  {
  }

  lemma SameTail<T>(a: seq<T>, b: seq<T>, c: seq<T>)
    ensures a + b == a + c <==> b == c
  {
    assert (a + b)[|a|..] == b && (a + c)[|a|..] == c;
  }
}
