/** internal/cluster/merge.go: what is written for one table, row by row. */
module MergedRows {
  import opened Text
  import opened Ordering
  import opened Tables
  import opened TableSpans
  import opened Groups
  import opened Splices
  import opened Merge

  /** A table with data: neither a placeholder row nor one that JavaScript fills. */
  predicate HasData(t: Table) {
    !t.hasTemplate && t.head.Some? && |t.rows| > 0 && (|t.rows| == 1 ==> |t.rows[0].cells| >= 2)
  }

  /** The table of another server that is merged in. */
  function Partner(rp: Remote, t: Table, index: nat): Option<Table> {
    match MatchTable(rp.tables, t.id, index)
    case None => None
    case Some(m) => if HasData(m) then Some(m) else None
  }

  predicate ShowsOwnRows(t: Table, opts: Options) {
    HasData(t) && (opts.only == "" || opts.only == opts.activeId)
  }

  lemma PartnerIsShown(rp: Remote, t: Table, index: nat)
    ensures Partner(rp, t, index) == Shown(rp, t, index)
  {
  }

  // Which tables take part

  /** A table is left alone if JavaScript fills it, if it has no header or no body, or if
      no server has rows for it and neither a filter nor the page asks for the column. It
      fails if an own row that would be shown has no cell. */
  lemma TakesPart(page: string, t: Table, index: nat, remotes: seq<Remote>, opts: Options, look: Look)
    requires TableIn(t, page) && forall i | 0 <= i < |remotes| :: RemoteIn(remotes[i])
    ensures PlanOf(page, t, index, remotes, opts, look).Skip? <==>
              || t.hasTemplate || t.head.None? || t.bodyEnd == 0
              || (opts.only == "" && !opts.forceColumn && !HasData(t)
                  && forall i | 0 <= i < |remotes| :: Partner(remotes[i], t, index).None?)
    ensures PlanOf(page, t, index, remotes, opts, look).Failure? <==>
              && !t.hasTemplate && t.head.Some? && t.bodyEnd > 0
              && ShowsOwnRows(t, opts) && exists i :: 0 <= i < |t.rows| && t.rows[i].cells == []
  {
    hide TableIn, RemoteIn, HeadSplice, BodySplice, GroupsFor, OrderOf, MatchTable;
    forall i | 0 <= i < |remotes|
      ensures Partner(remotes[i], t, index) == Shown(remotes[i], t, index)
    {
      PartnerIsShown(remotes[i], t, index);
    }
  }

  // The header cell

  /** The header cell goes in front of the column the rows use, or before the closing tag. */
  lemma HeaderCell(page: string, t: Table, index: nat, remotes: seq<Remote>, opts: Options, look: Look)
    requires TableIn(t, page) && forall i | 0 <= i < |remotes| :: RemoteIn(remotes[i])
    requires PlanOf(page, t, index, remotes, opts, look).Put?
    ensures t.head.Some?
    ensures var head, cells, c := PlanOf(page, t, index, remotes, opts, look).head, t.head.value.cells, TableColumn(t, look.namesRow);
            && head.cut == 0
            && (c < |cells| ==> head.at == cells[c].start && head.text == look.headCell(cells[c].classes))
            && (c >= |cells| ==> head.at == t.head.value.end - 5)
            && (c >= |cells| > 0 ==> head.text == look.headCell(cells[|cells| - 1].classes))
            && (cells == [] ==> head.text == look.headCell(""))
  {
    hide TableIn, RemoteIn, GroupsFor, OrderOf, BodySplice, TableColumn, AnyRemote, ShowsLocal, AllHaveCells;
  }

  /** In a row as wide as the header the Server cell is in the header cell's column. */
  lemma SameColumn(t: Table, r: Row, look: Look)
    requires t.head.Some? && |r.cells| == |t.head.value.cells|
    ensures RowColumn(t, r, look.namesRow) == TableColumn(t, look.namesRow)
  {
  }

  // The rows of other servers

  predicate ShowsRemoteRow(html: string, rp: Remote, m: Table, r: Row, look: Look)
    requires m.head.Some?
  {
    r.start <= r.end <= |rp.page| && html == rp.rewrite(rp.page[r.start..r.end], r, RowColumn(m, r, look.namesRow))
  }

  ghost predicate ShowsRemoteRows(lines: seq<Line>, rp: Remote, t: Table, index: nat, opts: Options, look: Look)
    requires t.head.Some?
  {
    match Partner(rp, t, index)
    case None => lines == []
    case Some(m) =>
      && |lines| == |m.rows|
      && forall i | 0 <= i < |lines| ::
        ShowsRemoteRow(lines[i].html, rp, m, m.rows[i], look) && ReadsRow(lines[i], m.rows[i], rp.name, t.head.value, opts, look)
  }

  lemma RemoteLinesShow(rp: Remote, t: Table, index: nat, opts: Options, look: Look)
    requires RemoteIn(rp) && t.head.Some?
    ensures ShowsRemoteRows(RemoteLines(rp, t, index, ColumnsOf(t, opts, look), look), rp, t, index, opts, look)
  {
    hide RowIn, RemoteHtml, LineOf, ColumnsOf, ReadsRow, ShowsRemoteRow, MatchTable, Shown, Partner, RemoteIn;
    PartnerIsShown(rp, t, index);
    match Shown(rp, t, index) {
      case None =>
      case Some(m) =>
        RemoteRows(rp, m);
        forall i | 0 <= i < |m.rows|
          ensures ShowsRemoteRow(RowLines(rp, m, ColumnsOf(t, opts, look), look)[i].html, rp, m, m.rows[i], look)
          ensures ReadsRow(RowLines(rp, m, ColumnsOf(t, opts, look), look)[i], m.rows[i], rp.name, t.head.value, opts, look)
        {
          RemoteHtmlShows(rp, m, m.rows[i], look);
          LineReads(RemoteHtml(rp, m, m.rows[i], look), m.rows[i], rp.name, t, opts, look);
        }
    }
  }

  lemma RemoteHtmlShows(rp: Remote, m: Table, r: Row, look: Look)
    requires m.head.Some? && RowIn(r, rp.page)
    ensures ShowsRemoteRow(RemoteHtml(rp, m, r, look), rp, m, r, look)
  {
    hide RowColumn;
  }

  // The order

  ghost predicate IsConsistent(less: (string, string) -> bool) {
    && (forall a, b :: less(a, b) ==> !less(b, a))
    && (forall a, b, c :: !less(a, b) && !less(b, c) ==> !less(a, c))
  }

  predicate HasSortColumn(t: Table, opts: Options)
    requires t.head.Some?
  {
    opts.sortKey != "" && exists i :: 0 <= i < |t.head.value.cells| && t.head.value.cells[i].sortKey == opts.sortKey
  }

  predicate HasTimeColumn(t: Table, look: Look)
    requires t.head.Some?
  {
    exists i :: 0 <= i < |t.head.value.cells| && look.isTime(t.head.value.cells[i])
  }

  predicate TextIn(groups: seq<Group>, desc: bool, less: (string, string) -> bool) {
    forall i, j | 0 <= i < j < |groups| ::
      if desc then !less(groups[i].sortText, groups[j].sortText) else !less(groups[j].sortText, groups[i].sortText)
  }

  predicate ServersIn(groups: seq<Group>, desc: bool) {
    forall i, j | 0 <= i < j < |groups| ::
      if desc then !Less(Lower(groups[i].server), Lower(groups[j].server)) else !Less(Lower(groups[j].server), Lower(groups[i].server))
  }

  predicate NewestFirst(groups: seq<Group>) {
    forall i, j | 0 <= i < j < |groups| && groups[j].time.Some? :: groups[i].time.Some? && groups[i].time.value >= groups[j].time.value
  }

  /** The order of a merged body: by the text of the sorted column if another server has
      rows, else by server name in the direction asked for, else newest first, else as
      the servers sent it. */
  ghost predicate IsArranged(sorted: seq<Group>, groups: seq<Group>, t: Table, anyRemote: bool, opts: Options, look: Look)
    requires t.head.Some?
  {
    if HasSortColumn(t, opts) && anyRemote then IsConsistent(look.lessText) ==> TextIn(sorted, opts.sortDesc, look.lessText)
    else if opts.serverDir != "" then ServersIn(sorted, opts.serverDir == "desc")
    else if opts.sortTime && HasTimeColumn(t, look) then NewestFirst(sorted)
    else sorted == groups
  }

  lemma Arranged(groups: seq<Group>, t: Table, anyRemote: bool, opts: Options, look: Look)
    requires t.head.Some?
    ensures IsArranged(Ordered(groups, OrderOf(ColumnsOf(t, opts, look), anyRemote, opts, look)), groups, t, anyRemote, opts, look)
  {
    hide SortStable, Less, Lower, IsConsistent, IsWeakOrder, TextIn, ServersIn, NewestFirst;
    var cols := ColumnsOf(t, opts, look);
    SortColumnIs(t, opts, look);
    OrdersAreWeak();
    if HasSortColumn(t, opts) && anyRemote {
      if IsConsistent(look.lessText) {
        ArrangedByText(groups, opts.sortDesc, look.lessText, OrderOf(cols, anyRemote, opts, look).value);
      }
    } else if opts.serverDir != "" {
      if opts.serverDir == "desc" {
        SortSorts(groups, ByServerDesc);
        ServersSorted(SortStable(groups, ByServerDesc), true);
      } else {
        SortSorts(groups, ByServer);
        ServersSorted(SortStable(groups, ByServer), false);
      }
    } else if opts.sortTime && HasTimeColumn(t, look) {
      SortSorts(groups, ByTime);
      TimesSorted(SortStable(groups, ByTime));
    }
  }

  lemma SortColumnIs(t: Table, opts: Options, look: Look)
    requires t.head.Some?
    ensures ColumnsOf(t, opts, look).sort.Some? <==> HasSortColumn(t, opts)
    ensures ColumnsOf(t, opts, look).time.Some? <==> HasTimeColumn(t, look)
  {
    hide LastColumn;
  }

  lemma ArrangedByText(groups: seq<Group>, desc: bool, less: (string, string) -> bool, order: (Group, Group) -> bool)
    requires IsConsistent(less)
    requires forall a, b :: order(a, b) == if desc then less(b.sortText, a.sortText) else less(a.sortText, b.sortText)
    ensures TextIn(SortStable(groups, order), desc, less)
  {
    hide SortStable;
    SortSorts(groups, order);
  }

  lemma ServersSorted(groups: seq<Group>, desc: bool)
    requires IsSorted(groups, if desc then ByServerDesc else ByServer)
    ensures ServersIn(groups, desc)
  {
    hide Less, Lower;
  }

  lemma TimesSorted(groups: seq<Group>)
    requires IsSorted(groups, ByTime)
    ensures NewestFirst(groups)
  {
  }

  // The body

  /** The body of a merged table: lines for the own rows and for those of every other
      server, each as described; their groups in the order asked for, and nothing else. */
  lemma MergedBody(page: string, t: Table, index: nat, remotes: seq<Remote>, opts: Options, look: Look)
    returns (own: seq<Line>, lists: seq<seq<Line>>, sorted: seq<Group>)
    requires TableIn(t, page) && forall i | 0 <= i < |remotes| :: RemoteIn(remotes[i])
    requires PlanOf(page, t, index, remotes, opts, look).Put?
    ensures t.head.Some? && t.bodyEnd > 0
    ensures ShowsOwnRows(t, opts) ==> AllHaveCells(t.rows) && ShowsLocalRows(own, page, t, opts, look)
    ensures !ShowsOwnRows(t, opts) ==> own == []
    ensures |lists| == |remotes| && forall i | 0 <= i < |remotes| :: ShowsRemoteRows(lists[i], remotes[i], t, index, opts, look)
    ensures var groups := GroupsOf(own) + AddServers([], lists);
            && multiset(sorted) == multiset(groups)
            && IsArranged(sorted, groups, t, exists i :: 0 <= i < |remotes| && Partner(remotes[i], t, index).Some?, opts, look)
    ensures var body := PlanOf(page, t, index, remotes, opts, look).body;
            && body.at == (if t.rows == [] then t.bodyEnd else t.rows[0].start) && body.at + body.cut == t.bodyEnd
            && body.text == if sorted == [] then look.nothingHere(|t.head.value.cells| + 1) else Body(sorted)
  {
    hide RemoteIn, AllIn, TableIn, SortStable, AddServers, GroupsOf, LocalLines, RemoteLines, ShowsLocalRows, ShowsRemoteRows, IsArranged, OrderOf,
         ColumnsOf, HeadSplice, Partner, Shown, Body, Ordered;
    BodyBehindHead(t, page);
    OwnRowsShown(t, opts);
    var cols := ColumnsOf(t, opts, look);
    own := if ShowsLocal(t, opts) then LocalLines(page, t, opts, look) else [];
    if ShowsLocal(t, opts) {
      LocalLinesShow(page, t, opts, look);
    }
    lists := RemoteLists(remotes, t, index, cols, look);
    forall i | 0 <= i < |remotes|
      ensures ShowsRemoteRows(lists[i], remotes[i], t, index, opts, look)
    {
      assert RemoteIn(remotes[i]);
      RemoteLinesShow(remotes[i], t, index, opts, look);
    }
    PartnersAreShown(remotes, t, index);
    var groups := GroupsOf(own) + AddServers([], lists);
    NoGroups(own);
    assert groups == GroupsFor(page, t, index, remotes, opts, look);
    sorted := Ordered(groups, OrderOf(cols, AnyRemote(remotes, t, index), opts, look));
    Arranged(groups, t, AnyRemote(remotes, t, index), opts, look);
    OrderedIsPermutation(groups, OrderOf(cols, AnyRemote(remotes, t, index), opts, look));
  }

  lemma OwnRowsShown(t: Table, opts: Options)
    ensures ShowsLocal(t, opts) <==> ShowsOwnRows(t, opts)
  {
  }

  lemma NoGroups(lines: seq<Line>)
    ensures lines == [] ==> GroupsOf(lines) == []
  {
  }

  lemma PartnersAreShown(remotes: seq<Remote>, t: Table, index: nat)
    ensures AnyRemote(remotes, t, index) <==> exists i :: 0 <= i < |remotes| && Partner(remotes[i], t, index).Some?
  {
    hide Partner, Shown;
    forall i | 0 <= i < |remotes|
      ensures Partner(remotes[i], t, index) == Shown(remotes[i], t, index)
    {
      PartnerIsShown(remotes[i], t, index);
    }
  }

  lemma OrderedIsPermutation(groups: seq<Group>, order: Option<(Group, Group) -> bool>)
    ensures multiset(Ordered(groups, order)) == multiset(groups)
  {
    hide SortStable;
    if order.Some? {
      SortIsPermutation(groups, order.value);
    }
  }

  // The page

  /** The tables whose header and body are replaced: those with a plan, in order. */
  ghost predicate AreMerged(at: seq<nat>, splices: seq<Splice>, page: string, tables: seq<Table>, n: nat, remotes: seq<Remote>, opts: Options, look: Look)
    requires n <= |tables| && AllOk(tables, |page|) && forall i | 0 <= i < |remotes| :: RemoteIn(remotes[i])
  {
    && (forall j, k | 0 <= j < k < |at| :: at[j] < at[k])
    && (forall k: nat :: k in at <==> k < n && PlanOf(page, tables[k], k, remotes, opts, look).Put?)
    && |splices| == 2 * |at|
    && forall j | 0 <= j < |at| ::
      && at[j] < n
      && splices[2 * j] == PlanOf(page, tables[at[j]], at[j], remotes, opts, look).head
      && splices[2 * j + 1] == PlanOf(page, tables[at[j]], at[j], remotes, opts, look).body
  }

  /** Each table with a plan has its header cell and its body in the merged page, in the
      order of the tables, and no other table is touched. */
  lemma {:induction false} EveryPlanIsSpliced(page: string, tables: seq<Table>, n: nat, remotes: seq<Remote>, opts: Options, look: Look) returns (at: seq<nat>)
    requires n <= |tables| && AllOk(tables, |page|) && forall i | 0 <= i < |remotes| :: RemoteIn(remotes[i])
    requires SplicesOf(page, tables, n, remotes, opts, look).Some?
    ensures AreMerged(at, SplicesOf(page, tables, n, remotes, opts, look).value, page, tables, n, remotes, opts, look)
    decreases n
  {
    hide PlanOf, RemoteIn, TableOk;
    at := [];
    if n > 0 {
      at := EveryPlanIsSpliced(page, tables, n - 1, remotes, opts, look);
      if PlanOf(page, tables[n - 1], n - 1, remotes, opts, look).Put? {
        at := at + [n - 1];
      }
    }
  }

  /** The filter is put between them, and only then is the page written. */
  lemma FilterIsAdded(planned: seq<Splice>, filter: Splice) returns (i: nat)
    ensures WithFilter(planned, None) == planned
    ensures i <= |planned| && WithFilter(planned, Some(filter)) == planned[..i] + [filter] + planned[i..]
  {
    i := PlaceIs(planned, filter);
  }
}
