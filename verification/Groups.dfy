/** internal/cluster/merge.go: the rows of several servers in one table, a row with the
    detail rows under it staying together. */
module Groups {
  import opened Text
  import opened Ordering

  /** A row as it will be printed. */
  datatype Line = Line(html: string, detail: bool, server: string, sortText: string, time: Option<int>)

  datatype Group = Group(html: string, server: string, sortText: string, time: Option<int>)

  function AddLine(groups: seq<Group>, l: Line): seq<Group> {
    if l.detail && groups != [] then
      groups[|groups| - 1 := groups[|groups| - 1].(html := groups[|groups| - 1].html + l.html)]
    else groups + [Group(l.html, l.server, l.sortText, l.time)]
  }

  function AddAll(groups: seq<Group>, lines: seq<Line>): seq<Group>
    decreases |lines|
  {
    if lines == [] then groups else AddAll(AddLine(groups, lines[0]), lines[1..])
  }

  // Segments: a row and the details behind it

  function Details(lines: seq<Line>): (n: nat)
    ensures n <= |lines|
    ensures forall i | 0 <= i < n :: lines[i].detail
    ensures n < |lines| ==> !lines[n].detail
  {
    if lines == [] || !lines[0].detail then 0 else 1 + Details(lines[1..])
  }

  function Html(lines: seq<Line>): string
    decreases |lines|
  {
    if lines == [] then "" else lines[0].html + Html(lines[1..])
  }

  /** The groups of one server, said directly: each row with the details up to the next row. */
  function GroupsOf(lines: seq<Line>): seq<Group>
    decreases |lines|
  {
    if lines == [] then []
    else
      var l, n := lines[0], Details(lines[1..]);
      [Group(Html(lines[..n + 1]), l.server, l.sortText, l.time)] + GroupsOf(lines[n + 1..])
  }

  /** A group stands for the lines of a range: a row that is no detail row, or the first
      one, and the details behind it. Server, sort text and time are those of the row. */
  predicate IsRun(g: Group, lines: seq<Line>, from: nat, to: nat) {
    && from < to <= |lines|
    && (from > 0 ==> !lines[from].detail) && (forall i | from < i < to :: lines[i].detail)
    && g == Group(Html(lines[from..to]), lines[from].server, lines[from].sortText, lines[from].time)
  }

  /** The groups stand for ranges that follow each other from the first line to the last. */
  ghost predicate AreRuns(ends: seq<nat>, groups: seq<Group>, lines: seq<Line>) {
    && |ends| == |groups| && (if ends == [] then 0 else ends[|ends| - 1]) == |lines|
    && forall j | 0 <= j < |groups| :: IsRun(groups[j], lines, if j == 0 then 0 else ends[j - 1], ends[j])
  }

  lemma RunBehind(g: Group, lines: seq<Line>, n: nat, from: nat, to: nat)
    requires n <= |lines| && IsRun(g, lines[n..], from, to) && (from == 0 && n < |lines| ==> !lines[n].detail)
    ensures IsRun(g, lines, from + n, to + n)
  {
    hide Html;
    var more := lines[n..];
    assert more[from..to] == lines[from + n..to + n];
    assert forall i | from + n < i < to + n :: lines[i] == more[i - n];
  }

  lemma {:induction false} GroupsCons(lines: seq<Line>)
    requires lines != []
    ensures var l, n := lines[0], Details(lines[1..]);
            GroupsOf(lines) == [Group(Html(lines[..n + 1]), l.server, l.sortText, l.time)] + GroupsOf(lines[n + 1..])
  {
    hide Html, Details;
  }

  lemma FirstRun(lines: seq<Line>, n: nat)
    requires lines != [] && n == Details(lines[1..]) + 1
    ensures IsRun(Group(Html(lines[..n]), lines[0].server, lines[0].sortText, lines[0].time), lines, 0, n)
    ensures n < |lines| ==> !lines[n].detail
  {
    hide Html, Details;
    assert forall i | 0 < i < n :: lines[i] == lines[1..][i - 1];
    assert n < |lines| ==> lines[n] == lines[1..][n - 1];
    assert lines[0..n] == lines[..n];
  }

  lemma RunsBehind(lines: seq<Line>, n: nat, more: seq<nat>) returns (ends: seq<nat>)
    requires lines != [] && n == Details(lines[1..]) + 1 && AreRuns(more, GroupsOf(lines[n..]), lines[n..])
    ensures AreRuns(ends, GroupsOf(lines), lines)
  {
    hide GroupsOf, IsRun, Details, Html;
    FirstRun(lines, n);
    GroupsCons(lines);
    var groups, tail := GroupsOf(lines), GroupsOf(lines[n..]);
    ends := [n] + seq(|more|, i requires 0 <= i < |more| => more[i] + n);
    forall j | 0 <= j < |groups|
      ensures IsRun(groups[j], lines, if j == 0 then 0 else ends[j - 1], ends[j])
    {
      if j > 0 {
        var i := j - 1;
        assert groups[j] == tail[i];
        assert IsRun(tail[i], lines[n..], if i == 0 then 0 else more[i - 1], more[i]);
        RunBehind(tail[i], lines, n, if i == 0 then 0 else more[i - 1], more[i]);
      }
    }
  }

  /** The groups of one server cover its rows one after the other. */
  lemma {:induction false} GroupsAreRuns(lines: seq<Line>) returns (ends: seq<nat>)
    ensures AreRuns(ends, GroupsOf(lines), lines)
    decreases |lines|
  {
    hide IsRun;
    if lines == [] {
      ends := [];
    } else {
      var n := Details(lines[1..]) + 1;
      var more := GroupsAreRuns(lines[n..]);
      ends := RunsBehind(lines, n, more);
    }
  }

  function Body(groups: seq<Group>): string
    decreases |groups|
  {
    if groups == [] then "" else groups[0].html + Body(groups[1..])
  }

  lemma {:induction false} HtmlConcat(a: seq<Line>, b: seq<Line>)
    ensures Html(a + b) == Html(a) + Html(b)
    decreases |a|
  {
    if a == [] {
      assert a + b == b;
    } else {
      assert (a + b)[1..] == a[1..] + b;
      HtmlConcat(a[1..], b);
    }
  }

  lemma {:induction false} BodyConcat(a: seq<Group>, b: seq<Group>)
    ensures Body(a + b) == Body(a) + Body(b)
    decreases |a|
  {
    if a == [] {
      assert a + b == b;
    } else {
      assert (a + b)[1..] == a[1..] + b;
      BodyConcat(a[1..], b);
    }
  }

  lemma {:induction false} AddConcat(groups: seq<Group>, a: seq<Line>, b: seq<Line>)
    ensures AddAll(groups, a + b) == AddAll(AddAll(groups, a), b)
    decreases |a|
  {
    hide AddLine;
    if a == [] {
      assert a + b == b;
    } else {
      assert (a + b)[1..] == a[1..] + b;
      AddConcat(AddLine(groups, a[0]), a[1..], b);
    }
  }

  /** Details join the last group. */
  lemma {:induction false} AddDetails(before: seq<Group>, g: Group, lines: seq<Line>)
    requires forall i | 0 <= i < |lines| :: lines[i].detail
    ensures AddAll(before + [g], lines) == before + [g.(html := g.html + Html(lines))]
    decreases |lines|
  {
    hide AddLine;
    if lines == [] {
      assert g.html + "" == g.html;
    } else {
      JoinLast(before, g, lines[0]);
      AddDetails(before, g.(html := g.html + lines[0].html), lines[1..]);
      Regroup(g.html, lines[0].html, Html(lines[1..]));
    }
  }

  lemma JoinLast(before: seq<Group>, g: Group, l: Line)
    requires l.detail
    ensures AddLine(before + [g], l) == before + [g.(html := g.html + l.html)]
  {
  }

  /** Lines that begin with a row of their own form their own groups behind the others. */
  lemma {:induction false} AddBehind(groups: seq<Group>, lines: seq<Line>)
    requires groups == [] || lines == [] || !lines[0].detail
    ensures AddAll(groups, lines) == groups + GroupsOf(lines)
    decreases |lines|
  {
    hide Html;
    if lines != [] {
      var l, n := lines[0], Details(lines[1..]);
      var g, details, rest := Group(l.html, l.server, l.sortText, l.time), lines[1..][..n], lines[n + 1..];
      assert lines == ([l] + details) + rest;
      AddConcat(groups, [l] + details, rest);
      AddConcat(groups, [l], details);
      AddOne(groups, l);
      AddDetails(groups, g, details);
      HtmlConcat([l], details);
      HtmlOne(l);
      var whole := g.(html := l.html + Html(details));
      assert lines[..n + 1] == [l] + details;
      assert rest != [] ==> rest[0] == lines[1..][n];
      AddBehind(groups + [whole], rest);
      Regroup(groups, [whole], GroupsOf(rest));
    }
  }

  lemma AddOne(groups: seq<Group>, l: Line)
    requires groups == [] || !l.detail
    ensures AddAll(groups, [l]) == groups + [Group(l.html, l.server, l.sortText, l.time)]
  {
    assert [l][1..] == [];
  }

  lemma HtmlOne(l: Line)
    ensures Html([l]) == l.html
  {
    assert [l][1..] == [];
    assert l.html + "" == l.html;
  }

  lemma {:induction false} AddCount(groups: seq<Group>, lines: seq<Line>)
    requires groups != [] && lines != [] && lines[0].detail
    ensures |AddAll(groups, lines)| == |groups| + |GroupsOf(lines)| - 1
  {
    hide Html;
    var n := Details(lines[1..]);
    var details, rest := lines[..n + 1], lines[n + 1..];
    assert lines == details + rest;
    assert forall i | 1 <= i < n + 1 :: details[i] == lines[1..][i - 1];
    AddConcat(groups, details, rest);
    assert groups == groups[..|groups| - 1] + [groups[|groups| - 1]];
    AddDetails(groups[..|groups| - 1], groups[|groups| - 1], details);
    assert rest != [] ==> rest[0] == lines[1..][n];
    AddBehind(AddAll(groups, details), rest);
  }

  /** Adding a server's rows behind the groups of others gives just its own groups at the
      end, exactly when its first row is no detail row: such a row would join the group
      of another server. */
  lemma OwnGroups(groups: seq<Group>, lines: seq<Line>)
    ensures AddAll(groups, lines) == groups + GroupsOf(lines) <==> groups == [] || lines == [] || !lines[0].detail
  {
    if groups == [] || lines == [] || !lines[0].detail {
      AddBehind(groups, lines);
    } else {
      AddCount(groups, lines);
    }
  }

  /** No row is lost, doubled or moved while grouping. */
  lemma {:induction false} GroupingKeepsText(groups: seq<Group>, lines: seq<Line>)
    ensures Body(AddAll(groups, lines)) == Body(groups) + Html(lines)
    decreases |lines|
  {
    hide Body;
    if lines == [] {
      assert Body(groups) + "" == Body(groups);
    } else {
      GroupingKeepsText(AddLine(groups, lines[0]), lines[1..]);
      AddLineBody(groups, lines[0]);
      Regroup(Body(groups), lines[0].html, Html(lines[1..]));
    }
  }

  lemma BodyOne(g: Group)
    ensures Body([g]) == g.html
  {
    assert [g][1..] == [];
    assert g.html + "" == g.html;
  }

  lemma AddLineBody(groups: seq<Group>, l: Line)
    ensures Body(AddLine(groups, l)) == Body(groups) + l.html
  {
    hide Body;
    if l.detail && groups != [] {
      var init, g := groups[..|groups| - 1], groups[|groups| - 1];
      var h := g.(html := g.html + l.html);
      assert AddLine(groups, l) == init + [h] && groups == init + [g];
      BodyConcat(init, [h]);
      BodyConcat(init, [g]);
      BodyOne(g);
      BodyOne(h);
      Regroup(Body(init), g.html, l.html);
    } else {
      var g := Group(l.html, l.server, l.sortText, l.time);
      BodyConcat(groups, [g]);
      BodyOne(g);
    }
  }

  // Several servers

  function AddServers(groups: seq<Group>, servers: seq<seq<Line>>): seq<Group>
    decreases |servers|
  {
    if servers == [] then groups else AddServers(AddAll(groups, servers[0]), servers[1..])
  }

  function EachServer(servers: seq<seq<Line>>): seq<Group>
    decreases |servers|
  {
    if servers == [] then [] else GroupsOf(servers[0]) + EachServer(servers[1..])
  }

  /** No server with rows in front of it begins with a detail row. */
  predicate NoneJoins(anyBefore: bool, servers: seq<seq<Line>>)
    decreases |servers|
  {
    servers != [] ==>
      && (anyBefore && servers[0] != [] ==> !servers[0][0].detail)
      && NoneJoins(anyBefore || servers[0] != [], servers[1..])
  }

  lemma {:induction false} ServersCount(groups: seq<Group>, servers: seq<seq<Line>>)
    ensures |AddServers(groups, servers)| <= |groups| + |EachServer(servers)|
    ensures |AddServers(groups, servers)| == |groups| + |EachServer(servers)| <==> NoneJoins(groups != [], servers)
    decreases |servers|
  {
    hide AddAll;
    if servers != [] {
      var lines := servers[0];
      var next := AddAll(groups, lines);
      if groups == [] || lines == [] || !lines[0].detail {
        AddBehind(groups, lines);
      } else {
        AddCount(groups, lines);
      }
      GroupsNone(lines);
      ServersCount(next, servers[1..]);
    }
  }

  lemma GroupsNone(lines: seq<Line>)
    ensures GroupsOf(lines) == [] <==> lines == []
  {
  }

  lemma {:induction false} ServersBehind(groups: seq<Group>, servers: seq<seq<Line>>)
    requires NoneJoins(groups != [], servers)
    ensures AddServers(groups, servers) == groups + EachServer(servers)
    decreases |servers|
  {
    hide AddAll;
    if servers != [] {
      AddBehind(groups, servers[0]);
      GroupsNone(servers[0]);
      ServersBehind(AddAll(groups, servers[0]), servers[1..]);
      Regroup(groups, GroupsOf(servers[0]), EachServer(servers[1..]));
    }
  }

  /** The merged groups are the groups of every server one after the other, exactly when
      no server behind another one begins with a detail row. */
  lemma GroupsStayWithTheirServer(servers: seq<seq<Line>>)
    ensures AddServers([], servers) == EachServer(servers) <==> NoneJoins(false, servers)
  {
    ServersCount([], servers);
    if NoneJoins(false, servers) {
      ServersBehind([], servers);
      assert [] + EachServer(servers) == EachServer(servers);
    }
  }

  /** A server whose table begins with a row of one cell, behind another server: the row
      is printed and sorted as part of the other server's last group. */
  lemma LeadingDetailJoins()
    ensures var row := Line("<tr>a</tr>", false, "one", "", None);
            var detail := Line("<tr>b</tr>", true, "two", "", None);
            && AddServers([], [[row], [detail]]) == [Group("<tr>a</tr><tr>b</tr>", "one", "", None)]
            && EachServer([[row], [detail]]) == [Group("<tr>a</tr>", "one", "", None), Group("<tr>b</tr>", "two", "", None)]
  {
    var row := Line("<tr>a</tr>", false, "one", "", None);
    var detail := Line("<tr>b</tr>", true, "two", "", None);
    hide AddLine, AddAll, AddServers, EachServer, GroupsOf;
    var g, joined := Group("<tr>a</tr>", "one", "", None), Group("<tr>a</tr><tr>b</tr>", "one", "", None);
    AddOne([], row);
    assert [] + [g] == [g] && [] + [joined] == [joined];
    AddDetails([], g, [detail]);
    HtmlOne(detail);
    assert AddAll([], [row]) == [g];
    assert "<tr>a</tr>" + "<tr>b</tr>" == joined.html;
    assert AddAll([g], [detail]) == [joined];
    TwoServers([row], [detail]);
    OneGroup(row);
    OneGroup(detail);
  }

  lemma TwoServers(a: seq<Line>, b: seq<Line>)
    ensures AddServers([], [a, b]) == AddAll(AddAll([], a), b)
    ensures EachServer([a, b]) == GroupsOf(a) + GroupsOf(b)
  {
    hide AddAll, GroupsOf;
    assert [a, b][1..] == [b] && [b][1..] == [];
    assert EachServer([b]) == GroupsOf(b) + [];
    assert AddServers(AddAll([], a), [b]) == AddServers(AddAll(AddAll([], a), b), []);
  }

  lemma OneGroup(l: Line)
    ensures GroupsOf([l]) == [Group(l.html, l.server, l.sortText, l.time)]
  {
    HtmlOne(l);
    assert [l][1..] == [] && [l][..1] == [l];
  }

  function AllHtml(servers: seq<seq<Line>>): string
    decreases |servers|
  {
    if servers == [] then "" else Html(servers[0]) + AllHtml(servers[1..])
  }

  lemma {:induction false} ServersKeepText(groups: seq<Group>, servers: seq<seq<Line>>)
    ensures Body(AddServers(groups, servers)) == Body(groups) + AllHtml(servers)
    decreases |servers|
  {
    hide AddAll, Body, Html;
    if servers == [] {
      assert Body(groups) + "" == Body(groups);
    } else {
      ServersKeepText(AddAll(groups, servers[0]), servers[1..]);
      GroupingKeepsText(groups, servers[0]);
      Regroup(Body(groups), Html(servers[0]), AllHtml(servers[1..]));
    }
  }

  // Sorting

  /** The insertion step of sort.SliceStable: a group moves in front of those it is less than. */
  function Insert(groups: seq<Group>, g: Group, less: (Group, Group) -> bool): seq<Group>
    decreases |groups|
  {
    if groups == [] || !less(g, groups[|groups| - 1]) then groups + [g]
    else Insert(groups[..|groups| - 1], g, less) + [groups[|groups| - 1]]
  }

  function SortStable(groups: seq<Group>, less: (Group, Group) -> bool): seq<Group>
    decreases |groups|
  {
    if groups == [] then [] else Insert(SortStable(groups[..|groups| - 1], less), groups[|groups| - 1], less)
  }

  lemma {:induction false} InsertKeeps(groups: seq<Group>, g: Group, less: (Group, Group) -> bool)
    ensures multiset(Insert(groups, g, less)) == multiset(groups) + multiset{g}
    decreases |groups|
  {
    if groups != [] && less(g, groups[|groups| - 1]) {
      InsertKeeps(groups[..|groups| - 1], g, less);
      assert groups == groups[..|groups| - 1] + [groups[|groups| - 1]];
    }
  }

  /** Sorting only moves whole groups, whatever the order. */
  lemma {:induction false} SortIsPermutation(groups: seq<Group>, less: (Group, Group) -> bool)
    ensures multiset(SortStable(groups, less)) == multiset(groups)
    decreases |groups|
  {
    hide Insert;
    if groups != [] {
      var init, g := groups[..|groups| - 1], groups[|groups| - 1];
      SortIsPermutation(init, less);
      InsertKeeps(SortStable(init, less), g, less);
      assert groups == init + [g];
    }
  }

  ghost predicate IsWeakOrder(less: (Group, Group) -> bool) {
    && (forall a, b :: less(a, b) ==> !less(b, a))
    && (forall a, b, c :: !less(a, b) && !less(b, c) ==> !less(a, c))
  }

  ghost predicate IsSorted(groups: seq<Group>, less: (Group, Group) -> bool) {
    forall i, j | 0 <= i < j < |groups| :: !less(groups[j], groups[i])
  }

  lemma {:induction false} InsertSorts(groups: seq<Group>, g: Group, less: (Group, Group) -> bool)
    requires IsWeakOrder(less) && IsSorted(groups, less)
    ensures IsSorted(Insert(groups, g, less), less)
    ensures forall x | x in Insert(groups, g, less) :: x in groups || x == g
    decreases |groups|
  {
    if groups != [] && less(g, groups[|groups| - 1]) {
      var init, last := groups[..|groups| - 1], groups[|groups| - 1];
      InsertSorts(init, g, less);
      forall x | x in Insert(init, g, less)
        ensures !less(last, x)
      {
      }
    } else {
      forall i | 0 <= i < |groups|
        ensures !less(g, groups[i])
      {
        if i < |groups| - 1 {
          assert !less(groups[|groups| - 1], groups[i]);
        }
      }
    }
  }

  lemma {:induction false} SortSorts(groups: seq<Group>, less: (Group, Group) -> bool)
    requires IsWeakOrder(less)
    ensures IsSorted(SortStable(groups, less), less)
    decreases |groups|
  {
    hide Insert, IsSorted, IsWeakOrder;
    if groups == [] {
      NothingSorted(less);
    } else {
      SortSorts(groups[..|groups| - 1], less);
      InsertSorts(SortStable(groups[..|groups| - 1], less), groups[|groups| - 1], less);
    }
  }

  lemma NothingSorted(less: (Group, Group) -> bool)
    ensures IsSorted([], less)
  {
  }

  predicate Ties(a: Group, b: Group, less: (Group, Group) -> bool) {
    !less(a, b) && !less(b, a)
  }

  /** The groups that tie with e, in their order. */
  function TiesWith(groups: seq<Group>, e: Group, less: (Group, Group) -> bool): seq<Group>
    decreases |groups|
  {
    if groups == [] then []
    else
      var init := TiesWith(groups[..|groups| - 1], e, less);
      if Ties(groups[|groups| - 1], e, less) then init + [groups[|groups| - 1]] else init
  }

  lemma {:induction false} InsertIsStable(groups: seq<Group>, g: Group, e: Group, less: (Group, Group) -> bool)
    requires IsWeakOrder(less)
    ensures TiesWith(Insert(groups, g, less), e, less) ==
            if Ties(g, e, less) then TiesWith(groups, e, less) + [g] else TiesWith(groups, e, less)
    decreases |groups|
  {
    if groups == [] || !less(g, groups[|groups| - 1]) {
      assert (groups + [g])[..|groups|] == groups;
    } else {
      var init, last := groups[..|groups| - 1], groups[|groups| - 1];
      InsertIsStable(init, g, e, less);
      var moved := Insert(init, g, less) + [last];
      assert moved[..|moved| - 1] == Insert(init, g, less);
      assert Ties(g, e, less) ==> !Ties(last, e, less);
    }
  }

  /** Groups that tie keep their order: local before remote, servers in their order. */
  lemma {:induction false} SortIsStable(groups: seq<Group>, e: Group, less: (Group, Group) -> bool)
    requires IsWeakOrder(less)
    ensures TiesWith(SortStable(groups, less), e, less) == TiesWith(groups, e, less)
    decreases |groups|
  {
    hide Insert, Ties, IsWeakOrder;
    if groups != [] {
      SortIsStable(groups[..|groups| - 1], e, less);
      InsertIsStable(SortStable(groups[..|groups| - 1], less), groups[|groups| - 1], e, less);
    }
  }

  /** strings.ToLower on ASCII. */
  function Lower(s: string): string {
    seq(|s|, i requires 0 <= i < |s| => if 'A' <= s[i] <= 'Z' then (s[i] as int + 32) as char else s[i])
  }

  /** Capital letters become the small letter at the same place of the alphabet. */
  lemma LowerExactly(s: string)
    ensures |Lower(s)| == |s|
    ensures forall i | 0 <= i < |s| && s[i] !in "ABCDEFGHIJKLMNOPQRSTUVWXYZ" :: Lower(s)[i] == s[i]
    ensures forall i, k | 0 <= i < |s| && 0 <= k < 26 && s[i] == "ABCDEFGHIJKLMNOPQRSTUVWXYZ"[k] :: Lower(s)[i] == "abcdefghijklmnopqrstuvwxyz"[k]
  {
    forall i | 0 <= i < |s| && s[i] !in "ABCDEFGHIJKLMNOPQRSTUVWXYZ"
      ensures Lower(s)[i] == s[i]
    {
      UpperCase(s[i]);
    }
    forall i, k | 0 <= i < |s| && 0 <= k < 26 && s[i] == "ABCDEFGHIJKLMNOPQRSTUVWXYZ"[k]
      ensures Lower(s)[i] == "abcdefghijklmnopqrstuvwxyz"[k]
    {
      Capitals(k);
      Smalls(k);
    }
  }

  lemma Capitals(k: nat)
    requires k < 26
    ensures "ABCDEFGHIJKLMNOPQRSTUVWXYZ"[k] == (65 + k) as char
  {
  }

  lemma Smalls(k: nat)
    requires k < 26
    ensures "abcdefghijklmnopqrstuvwxyz"[k] == (97 + k) as char
  {
  }

  predicate ByServer(a: Group, b: Group) {
    Less(Lower(a.server), Lower(b.server))
  }

  predicate ByServerDesc(a: Group, b: Group) {
    ByServer(b, a)
  }

  /** Rows with a time first, the newest in front. */
  predicate ByTime(a: Group, b: Group) {
    if a.time.Some? != b.time.Some? then a.time.Some? else a.time.Some? && a.time.value > b.time.value
  }

  lemma OrdersAreWeak()
    ensures IsWeakOrder(ByServer) && IsWeakOrder(ByServerDesc) && IsWeakOrder(ByTime)
  {
    hide Less, Lower;
    forall a, b | ByServer(a, b)
      ensures !ByServer(b, a)
    {
      LessIsStrict(Lower(a.server), Lower(b.server));
    }
    forall a, b, c | !ByServer(a, b) && !ByServer(b, c)
      ensures !ByServer(a, c)
    {
      NotLess(Lower(a.server), Lower(b.server), Lower(c.server));
    }
  }

  lemma NotLess(a: string, b: string, c: string)
    requires !Less(a, b) && !Less(b, c)
    ensures !Less(a, c)
  {
    hide Less;
    LessIsTotal(a, b);
    LessIsTotal(b, c);
    LessIsStrict(a, c);
    if a != b && b != c {
      LessIsTransitive(c, b, a);
    }
  }
}
