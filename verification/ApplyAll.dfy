/** internal/cluster/applyall.go: counting the servers that still apply a change, and
    splitting a selection by server. */
module ApplyAll {
  import opened Text

  const LOCAL := "local"

  datatype Node = Node(id: string, name: string)

  datatype ApplyResult = ApplyResult(server: string, error: Option<string>)

  datatype ApplyState = ApplyState(pending: int, results: seq<ApplyResult>)

  type States = map<int, ApplyState>

  function StateOf(byUser: States, user: int): ApplyState {
    if user in byUser then byUser[user] else ApplyState(0, [])
  }

  // One call

  function Begun(byUser: States, user: int, n: nat): States {
    var st := StateOf(byUser, user);
    byUser[user := st.(pending := st.pending + n)]
  }

  function Done(byUser: States, user: int, r: ApplyResult): States {
    var st := StateOf(byUser, user);
    byUser[user := ApplyState(st.pending - 1, st.results + [r])]
  }

  function Taken(byUser: States, user: int): States {
    if user in byUser then byUser[user := byUser[user].(results := [])] else byUser
  }

  class Applies {
    var byUser: States

    constructor ()
      ensures byUser == map[]
    {
      byUser := map[];
    }

    method ApplyBegin(user: int, n: nat)
      modifies this
      ensures byUser == Begun(old(byUser), user, n)
    {
      if user !in byUser {
        byUser := byUser[user := ApplyState(0, [])];
      }
      byUser := byUser[user := byUser[user].(pending := byUser[user].pending + n)];
    }

    /** Called only after an ApplyBegin of the same user. */
    method ApplyDone(user: int, r: ApplyResult)
      requires user in byUser
      modifies this
      ensures byUser == Done(old(byUser), user, r)
    {
      var st := byUser[user];
      st := st.(pending := st.pending - 1);
      st := st.(results := st.results + [r]);
      byUser := byUser[user := st];
    }

    method ApplyTake(user: int) returns (batch: seq<ApplyResult>, more: bool)
      modifies this
      ensures byUser == Taken(old(byUser), user)
      ensures batch == StateOf(old(byUser), user).results && (more <==> StateOf(old(byUser), user).pending > 0)
    {
      if user !in byUser {
        return [], false;
      }
      var st := byUser[user];
      batch := st.results;
      byUser := byUser[user := st.(results := [])];
      more := st.pending > 0;
    }
  }

  // The fan-out

  function Others(nodes: seq<Node>, active: string): seq<string>
    decreases |nodes|
  {
    if nodes == [] then []
    else
      var init := Others(nodes[..|nodes| - 1], active);
      if nodes[|nodes| - 1].id == active then init else init + [nodes[|nodes| - 1].name]
  }

  /** The servers that will report: this one if the page was not its own, and every live
      node but the active one. */
  function Reporters(nodes: seq<Node>, active: string, self: string): seq<string> {
    (if active != LOCAL then [self] else []) + Others(nodes, active)
  }

  function CountOf(nodes: seq<Node>, id: string): nat
    decreases |nodes|
  {
    if nodes == [] then 0
    else CountOf(nodes[..|nodes| - 1], id) + if nodes[|nodes| - 1].id == id then 1 else 0
  }

  function Names(nodes: seq<Node>): seq<string> {
    seq(|nodes|, i requires 0 <= i < |nodes| => nodes[i].name)
  }

  lemma {:induction false} OthersAreLive(nodes: seq<Node>, active: string) returns (live: seq<Node>)
    ensures Picks(live, nodes, (n: Node) => n.id != active) && Others(nodes, active) == Names(live)
    decreases |nodes|
  {
    hide Picks;
    live := [];
    if nodes == [] {
      PicksNothing((n: Node) => n.id != active);
    } else {
      var init, last := nodes[..|nodes| - 1], nodes[|nodes| - 1];
      var before := OthersAreLive(init, active);
      PicksSnoc(before, init, last, (n: Node) => n.id != active);
      assert init + [last] == nodes;
      live := if last.id != active then before + [last] else before;
    }
  }

  /** Besides being the specified list: this server reports exactly if the page was not
      its own, and then every node but the active one, each once and in its place. */
  method FanOut(nodes: seq<Node>, active: string, self: string) returns (reporters: seq<string>)
    ensures reporters == Reporters(nodes, active, self)
    ensures active != "local" ==> reporters != [] && reporters[0] == self
    ensures exists live :: Picks(live, nodes, (n: Node) => n.id != active) && (if active != "local" then reporters[1..] else reporters) == Names(live)
  {
    hide Picks;
    reporters := [];
    if active != LOCAL {
      reporters := reporters + [self];
    }
    ghost var first := reporters;
    for n := 0 to |nodes|
      invariant reporters == first + Others(nodes[..n], active)
    {
      assert nodes[..n + 1][..n] == nodes[..n];
      if nodes[n].id == active {
        continue;
      }
      Regroup(first, Others(nodes[..n], active), [nodes[n].name]);
      reporters := reporters + [nodes[n].name];
    }
    assert nodes[..|nodes|] == nodes;
    ghost var live := OthersAreLive(nodes, active);
    assert (if active != "local" then reporters[1..] else reporters) == Others(nodes, active);
  }

  lemma {:induction false} OthersCount(nodes: seq<Node>, active: string)
    ensures |Others(nodes, active)| == |nodes| - CountOf(nodes, active)
    decreases |nodes|
  {
    if nodes != [] {
      OthersCount(nodes[..|nodes| - 1], active);
    }
  }

  predicate IsBalanced(nodes: seq<Node>, active: string) {
    CountOf(nodes, active) == if active == LOCAL then 0 else 1
  }

  /** As many servers report as were announced exactly when the active server is this
      one, or exactly one live node. */
  lemma ReportersMatch(nodes: seq<Node>, active: string, self: string)
    ensures |Reporters(nodes, active, self)| == |nodes| <==> IsBalanced(nodes, active)
  {
    OthersCount(nodes, active);
  }

  // Every interleaving of page requests, reports and takes

  datatype Event =
    | Start(user: int, nodes: seq<Node>, active: string, self: string)
    | Report(user: int, result: ApplyResult)
    | Take(user: int)

  /** One user's entry and its history: the servers that still have to report, and what
      was announced, reported and handed over. */
  datatype Account = Account(entry: ApplyState, running: multiset<string>, announced: nat,
                             finished: seq<ApplyResult>, taken: seq<ApplyResult>)

  const NO_ACCOUNT := Account(ApplyState(0, []), multiset{}, 0, [], [])

  type System = map<int, Account>

  function AccountOf(s: System, user: int): Account {
    if user in s then s[user] else NO_ACCOUNT
  }

  /** What the server holds. */
  function ByUser(s: System): States {
    map user | user in s :: s[user].entry
  }

  predicate Enabled(s: System, e: Event) {
    e.Report? ==> e.result.server in AccountOf(s, e.user).running
  }

  function Step(a: Account, e: Event): Account {
    match e
    case Start(_, nodes, active, self) =>
      Account(ApplyState(a.entry.pending + |nodes|, a.entry.results), a.running + multiset(Reporters(nodes, active, self)),
              a.announced + |nodes|, a.finished, a.taken)
    case Report(_, r) =>
      Account(ApplyState(a.entry.pending - 1, a.entry.results + [r]), a.running - multiset{r.server},
              a.announced, a.finished + [r], a.taken)
    case Take(_) =>
      Account(ApplyState(a.entry.pending, []), a.running, a.announced, a.finished, a.taken + a.entry.results)
  }

  function Next(s: System, e: Event): System {
    if e.Take? && e.user !in s then s else s[e.user := Step(AccountOf(s, e.user), e)]
  }

  function After(trace: seq<Event>): System
    decreases |trace|
  {
    if trace == [] then map[] else Next(After(trace[..|trace| - 1]), trace[|trace| - 1])
  }

  predicate IsRun(trace: seq<Event>)
    decreases |trace|
  {
    trace != [] ==> IsRun(trace[..|trace| - 1]) && Enabled(After(trace[..|trace| - 1]), trace[|trace| - 1])
  }

  predicate AllBalanced(trace: seq<Event>) {
    forall i | 0 <= i < |trace| && trace[i].Start? :: IsBalanced(trace[i].nodes, trace[i].active)
  }

  /** The steps of a run change the server's map as the three calls do. */
  lemma StepsAreCalls(s: System, e: Event)
    requires Enabled(s, e)
    ensures e.Start? ==> ByUser(Next(s, e)) == Begun(ByUser(s), e.user, |e.nodes|)
    ensures e.Report? ==> e.user in ByUser(s) && ByUser(Next(s, e)) == Done(ByUser(s), e.user, e.result)
    ensures e.Take? ==> ByUser(Next(s, e)) == Taken(ByUser(s), e.user)
  {
    hide Reporters;
  }

  predicate Accounted(a: Account) {
    && a.taken + a.entry.results == a.finished
    && a.entry.pending == a.announced - |a.finished|
  }

  lemma StepAccounted(a: Account, e: Event)
    requires Accounted(a)
    ensures Accounted(Step(a, e))
  {
    hide Reporters;
    match e {
      case Start(_, _, _, _) =>
      case Report(_, r) =>
        Regroup(a.taken, a.entry.results, [r]);
      case Take(_) =>
    }
  }

  lemma StepPending(a: Account, e: Event)
    requires e.Report? ==> e.result.server in a.running
    requires e.Start? ==> IsBalanced(e.nodes, e.active)
    requires a.entry.pending == |a.running|
    ensures Step(a, e).entry.pending == |Step(a, e).running|
  {
    hide Reporters, IsBalanced;
    if e.Start? {
      ReportersMatch(e.nodes, e.active, e.self);
    }
  }

  /** In every interleaving the batches handed over and what is still held are the
      finished reports, each once and in order, and pending counts announced minus
      finished. With every fan-out balanced, pending is the number of servers still
      running: never negative, and zero exactly when all have reported. */
  lemma {:induction false} ExactlyOnce(trace: seq<Event>, user: int)
    requires IsRun(trace)
    ensures Accounted(AccountOf(After(trace), user))
    ensures AllBalanced(trace) ==> AccountOf(After(trace), user).entry.pending == |AccountOf(After(trace), user).running|
    decreases |trace|
  {
    hide Accounted, Step, IsBalanced;
    if trace == [] {
      NothingAccounted();
    } else {
      var init, e := trace[..|trace| - 1], trace[|trace| - 1];
      var a := AccountOf(After(init), user);
      ExactlyOnce(init, user);
      StepAccounted(a, e);
      if AllBalanced(trace) {
        assert forall i | 0 <= i < |init| :: init[i] == trace[i];
        if e.user == user {
          StepPending(a, e);
        }
      }
    }
  }

  lemma NothingAccounted()
    ensures Accounted(NO_ACCOUNT)
  {
  }

  /** The page asks again exactly as long as a server is still running, and after that
      one more take has handed over every report. */
  lemma TakeSeesTheEnd(trace: seq<Event>, user: int)
    requires IsRun(trace) && AllBalanced(trace)
    ensures var a := AccountOf(After(trace), user);
            && (a.entry.pending > 0 <==> a.running != multiset{})
            && (a.running == multiset{} ==> |a.finished| == a.announced && Step(a, Take(user)).taken == a.finished)
  {
    ExactlyOnce(trace, user);
  }

  /** With an active server that is neither this one nor a live node, one server more
      reports than was announced: the count is at zero with one of them still running. */
  lemma ActiveNodeGone(a: Node, active: string, self: string, r: ApplyResult)
    requires active != LOCAL && a.id != active && r.server == a.name && a.name != self
    ensures var trace := [Start(0, [a], active, self), Report(0, r)];
            && IsRun(trace) && !AllBalanced(trace)
            && AccountOf(After(trace), 0).entry.pending == 0 && AccountOf(After(trace), 0).running == multiset{self}
  {
    hide Reporters, Step;
    var e, f := Start(0, [a], active, self), Report(0, r);
    var s1 := Step(NO_ACCOUNT, e);
    OneOther(a, active, self);
    StartThenReport(e, f);
    assert multiset([self, a.name]) == multiset{self, a.name};
    RunOfTwo(e, f);
    assert [e, f][0] == e;
  }

  lemma OneOther(a: Node, active: string, self: string)
    requires active != LOCAL && a.id != active
    ensures Reporters([a], active, self) == [self, a.name] && !IsBalanced([a], active)
  {
    assert [a][..0] == [];
    assert Others([a][..0], active) == [] && CountOf([a][..0], active) == 0;
  }

  lemma StartThenReport(e: Event, f: Event)
    requires e.Start? && f.Report?
    ensures var s := Step(NO_ACCOUNT, e);
            && s.running == multiset(Reporters(e.nodes, e.active, e.self)) && s.entry.pending == |e.nodes|
            && Step(s, f).running == s.running - multiset{f.result.server} && Step(s, f).entry.pending == s.entry.pending - 1
  {
    hide Reporters;
  }

  lemma RunOfTwo(e: Event, f: Event)
    requires e.Start? && f.Report? && f.user == e.user && f.result.server in Step(NO_ACCOUNT, e).running
    ensures IsRun([e, f]) && AccountOf(After([e, f]), e.user) == Step(Step(NO_ACCOUNT, e), f)
  {
    hide Step;
    assert [e, f][..1] == [e] && [e][..0] == [];
    assert IsRun([e][..0]) && After([e][..0]) == map[];
    assert After([e]) == map[e.user := Step(NO_ACCOUNT, e)];
    assert IsRun([e]);
  }

  // Splitting a selection

  const BULK_PREFIX := "cluster:"

  datatype Target = Target(id: string, key: string)

  function TargetOf(item: string, active: string): Target {
    if BULK_PREFIX <= item then
      match CutAt(item[|BULK_PREFIX|..], ':')
      case Parts(id, key) => Target(id, key)
      case Whole => Target(active, item)
    else Target(active, item)
  }

  predicate IsRemote(item: string) {
    BULK_PREFIX <= item && ':' in item[|BULK_PREFIX|..]
  }

  function KeysFor(items: seq<string>, active: string, id: string): seq<string>
    decreases |items|
  {
    if items == [] then []
    else
      var init, t := KeysFor(items[..|items| - 1], active, id), TargetOf(items[|items| - 1], active);
      if t.id == id then init + [t.key] else init
  }

  function KeysIn(targets: map<string, seq<string>>, id: string): seq<string> {
    if id in targets then targets[id] else []
  }

  function Put(targets: map<string, seq<string>>, t: Target): map<string, seq<string>> {
    targets[t.id := KeysIn(targets, t.id) + [t.key]]
  }

  lemma KeysAfter(items: seq<string>, n: nat, active: string, id: string)
    requires n < |items|
    ensures var t := TargetOf(items[n], active);
            KeysFor(items[..n + 1], active, id) == if t.id == id then KeysFor(items[..n], active, id) + [t.key] else KeysFor(items[..n], active, id)
  {
    hide TargetOf;
    assert items[..n + 1][..n] == items[..n];
  }

  lemma PutKeys(targets: map<string, seq<string>>, items: seq<string>, n: nat, active: string)
    requires n < |items|
    requires forall id :: KeysIn(targets, id) == KeysFor(items[..n], active, id)
    requires forall id :: id in targets ==> KeysIn(targets, id) != []
    ensures forall id :: KeysIn(Put(targets, TargetOf(items[n], active)), id) == KeysFor(items[..n + 1], active, id)
    ensures forall id :: id in Put(targets, TargetOf(items[n], active)) ==> KeysIn(Put(targets, TargetOf(items[n], active)), id) != []
  {
    hide TargetOf, KeysFor;
    var t := TargetOf(items[n], active);
    forall id
      ensures KeysIn(Put(targets, t), id) == KeysFor(items[..n + 1], active, id)
    {
      KeysAfter(items, n, active, id);
    }
  }

  /** Every item goes to one server, in the order of the selection; a server without
      items has no entry. */
  method BulkTargets(items: seq<string>, active: string) returns (targets: map<string, seq<string>>, remote: bool)
    ensures forall id :: KeysIn(targets, id) == KeysFor(items, active, id)
    ensures forall id :: id in targets ==> KeysIn(targets, id) != []
    ensures remote <==> exists i | 0 <= i < |items| :: "cluster:" <= items[i] && ':' in items[i][8..]
  {
    RemoteIs();
    hide KeysFor, KeysIn, CutAt;
    targets, remote := map[], false;
    NothingFor(items[..0], active);
    for n := 0 to |items|
      invariant forall id :: KeysIn(targets, id) == KeysFor(items[..n], active, id)
      invariant forall id :: id in targets ==> KeysIn(targets, id) != []
      invariant remote <==> exists i | 0 <= i < n :: IsRemote(items[i])
    {
      PutKeys(targets, items, n, active);
      ghost var next := Put(targets, TargetOf(items[n], active));
      var item := items[n];
      if BULK_PREFIX <= item {
        var cut := CutAt(item[|BULK_PREFIX|..], ':');
        CutIsThere(item[|BULK_PREFIX|..]);
        if cut.Parts? {
          targets := targets[cut.before := KeysIn(targets, cut.before) + [cut.after]];
          remote := true;
          assert targets == next;
          continue;
        }
      }
      targets := targets[active := KeysIn(targets, active) + [item]];
      assert targets == next;
    }
    assert items[..|items|] == items;
  }

  lemma RemoteIs()
    ensures forall item :: IsRemote(item) <==> "cluster:" <= item && ':' in item[8..]
  {
  }

  /** An item of this page, and one whose id is cut off, goes to the page's own server as
      it is. */
  lemma OwnItemStays(item: string, active: string)
    requires !("cluster:" <= item && ':' in item[8..])
    ensures TargetOf(item, active) == Target(active, item)
  {
    hide IndexOf;
  }

  function KeysAt(items: seq<string>, active: string): seq<string> {
    seq(|items|, i requires 0 <= i < |items| => TargetOf(items[i], active).key)
  }

  lemma KeysAtSnoc(items: seq<string>, item: string, active: string)
    ensures KeysAt(items + [item], active) == KeysAt(items, active) + [TargetOf(item, active).key]
  {
    hide TargetOf;
  }

  lemma NoKeys(active: string)
    ensures KeysAt([], active) == []
  {
  }

  /** What a server gets: the keys of exactly the items that go to it, in their order. */
  lemma {:induction false} KeysArePicked(items: seq<string>, active: string, id: string, p: string -> bool) returns (chosen: seq<string>)
    requires forall item :: p(item) <==> TargetOf(item, active).id == id
    ensures Picks(chosen, items, p) && KeysFor(items, active, id) == KeysAt(chosen, active)
    decreases |items|
  {
    hide Picks, TargetOf, KeysAt;
    chosen := [];
    if items == [] {
      PicksNothing(p);
      NoKeys(active);
    } else {
      var init, last := items[..|items| - 1], items[|items| - 1];
      var before := KeysArePicked(init, active, id, p);
      PicksSnoc(before, init, last, p);
      assert init + [last] == items;
      KeysAtSnoc(before, last, active);
      chosen := if p(last) then before + [last] else before;
    }
  }

  lemma NothingFor(items: seq<string>, active: string)
    requires items == []
    ensures forall id :: KeysIn(map[], id) == KeysFor(items, active, id)
  {
  }

  lemma CutIsThere(s: string)
    ensures CutAt(s, ':').Parts? <==> ':' in s
  {
  }

  /** A row of another server carries its server's id, and reaches it. */
  lemma RemoteItemReachesItsServer(id: string, key: string, active: string)
    requires ':' !in id
    ensures TargetOf("cluster:" + id + ":" + key, active) == Target(id, key)
  {
    var item := BULK_PREFIX + id + ":" + key;
    assert item[|BULK_PREFIX|..] == id + [':'] + key;
    CutOf(id, ':', key);
  }
}
