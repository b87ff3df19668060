/** internal/cluster: join, leave, removal and promotion between many servers, with
    calls that can be late, repeated or lost. */
module Protocol {
  import opened Text
  import opened Membership

  type ServerId = nat

  /** A call under way, or the answer to one. Messages stay in the network, so any of
      them can be delivered late, again or never. */
  datatype Message =
    | JoinCall(to: ServerId, req: JoinRequest)
    | JoinAnswer(req: JoinRequest, id: string, secret: string)
    | LeaveCall(to: ServerId, env: Envelope)
    | PromoteCall(to: ServerId, env: Envelope, args: PromoteArgs)
    | PromoteAnswer(args: PromoteArgs)
    | StatusCall(to: ServerId, env: Envelope, info: StatusArgs)

  /** The operation an administrator has started on a server and that is not answered. */
  datatype Pending =
    | Idle
    | Adding(req: JoinRequest, url: string)
    | Promoting(n: Node, self: Node, args: PromoteArgs)

  /** Who was given a node id, and by the holder of which key. */
  datatype Issue = Issue(server: ServerId, pub: PublicKey)

  datatype System = System(
    servers: map<ServerId, State>,
    pending: map<ServerId, Pending>,
    net: set<Message>,
    issued: map<string, Issue>)

  predicate WellTyped(sys: System) {
    sys.pending.Keys == sys.servers.Keys
  }

  // The steps

  predicate IdleAt(sys: System, s: ServerId) {
    s in sys.servers && s in sys.pending && sys.pending[s] == Idle
  }

  function SetState(sys: System, s: ServerId, st: State): System {
    sys.(servers := sys.servers[s := st])
  }

  function Send(sys: System, m: Message): System {
    sys.(net := sys.net + {m})
  }

  function SetPending(sys: System, s: ServerId, p: Pending): System {
    sys.(pending := sys.pending[s := p])
  }

  predicate FreshID(sys: System, id: string) {
    id != "" && id !in sys.issued
  }

  ghost predicate BeginAddStep(sys: System, m: ServerId, to: ServerId, url: string, seed: Seed, selfURL: string, name: string, sys': System) {
    && IdleAt(sys, m) && sys.servers[m].role != Slave && seed != ""
    && var st := Seeded(sys.servers[m], seed, selfURL);
       var req := JoinRequest(st.selfURL, name, PublicOf(st.seed));
       sys' == SetPending(Send(SetState(sys, m, st), JoinCall(to, req)), m, Adding(req, url))
  }

  /** A server that has started an operation of its own accepts no join: operations on
      one server are serialised. */
  ghost predicate JoinStep(sys: System, call: Message, freshID: string, freshSecret: string, sys': System) {
    AnyJoinStep(sys, call, freshID, freshSecret, sys') && IdleAt(sys, call.to)
  }

  /** A join as handleJoin takes it, whatever else the server is doing. */
  ghost predicate AnyJoinStep(sys: System, call: Message, freshID: string, freshSecret: string, sys': System) {
    && call in sys.net && call.JoinCall?
    && call.to in sys.servers && AcceptsJoin(sys.servers[call.to], call.req) && FreshID(sys, freshID)
    && var st := Joined(sys.servers[call.to], call.req, freshID, freshSecret);
       sys' == Send(SetState(sys, call.to, st), JoinAnswer(call.req, st.nodeID, st.nodeSecret))
               .(issued := sys.issued[st.nodeID := Issue(call.to, call.req.masterPub)])
  }

  ghost predicate FinishAddStep(sys: System, m: ServerId, answer: Message, name: string, sys': System) {
    && m in sys.servers && m in sys.pending && sys.pending[m].Adding?
    && answer in sys.net && answer.JoinAnswer? && answer.req == sys.pending[m].req
    && sys' == SetPending(SetState(sys, m, Added(sys.servers[m], Node(answer.id, name, sys.pending[m].url, answer.secret, false))), m, Idle)
  }

  /** The call failed, timed out or its answer was lost. */
  ghost predicate GiveUpStep(sys: System, m: ServerId, sys': System) {
    m in sys.servers && m in sys.pending && sys' == SetPending(sys, m, Idle)
  }

  ghost predicate RemoveStep(sys: System, m: ServerId, id: string, to: ServerId, sys': System) {
    && IdleAt(sys, m) && FindNode(sys.servers[m].nodes, id).Some?
    && sys' == Send(SetState(sys, m, Removed(sys.servers[m], id)), LeaveCall(to, Sign(sys.servers[m], id)))
  }

  ghost predicate LeaveStep(sys: System, s: ServerId, sys': System) {
    s in sys.servers && sys.servers[s].role == Slave && sys' == SetState(sys, s, BLANK)
  }

  ghost predicate LeaveCallStep(sys: System, call: Message, sys': System) {
    && call in sys.net && call.LeaveCall? && call.to in sys.servers && Verifies(sys.servers[call.to], call.env)
    && LeaveStep(sys, call.to, sys')
  }

  ghost predicate BeginPromoteStep(sys: System, m: ServerId, to: ServerId, id: string, self: Node, sys': System) {
    && IdleAt(sys, m) && FreshID(sys, self.id)
    && var st := sys.servers[m];
       && st.role == Master && FindNode(st.nodes, id).Some? && !FindNode(st.nodes, id).value.paused
       && var n := FindNode(st.nodes, id).value;
          var args := PromoteArgs(st.seed, n.url, HandedOver(st, id, self));
          sys' == SetPending(Send(sys, PromoteCall(to, Sign(st, id), args)), m, Promoting(n, self, args))
                  .(issued := sys.issued[self.id := Issue(m, PublicOf(st.seed))])
  }

  ghost predicate PromoteCallStep(sys: System, call: Message, sys': System) {
    && call in sys.net && call.PromoteCall? && call.to in sys.servers && Verifies(sys.servers[call.to], call.env)
    && call.args.seed != ""
    && sys' == Send(SetState(sys, call.to, Promoted(call.args)), PromoteAnswer(call.args))
  }

  ghost predicate FinishPromoteStep(sys: System, m: ServerId, sys': System) {
    && m in sys.servers && m in sys.pending && sys.pending[m].Promoting?
    && PromoteAnswer(sys.pending[m].args) in sys.net
    && sys' == SetPending(SetState(sys, m, Demoted(sys.servers[m], sys.pending[m].n, sys.pending[m].self)), m, Idle)
  }

  ghost predicate StatusStep(sys: System, call: Message, sys': System) {
    && call in sys.net && call.StatusCall? && call.to in sys.servers && Verifies(sys.servers[call.to], call.env)
    && sys' == SetState(sys, call.to, Informed(sys.servers[call.to], call.info))
  }

  ghost predicate SendStatusStep(sys: System, m: ServerId, to: ServerId, id: string, args: StatusArgs, sys': System) {
    m in sys.servers && sys' == Send(sys, StatusCall(to, Sign(sys.servers[m], id), args))
  }

  ghost predicate PauseStep(sys: System, m: ServerId, nodes: seq<Node>, sys': System) {
    && IdleAt(sys, m) && |nodes| == |sys.servers[m].nodes|
    && (forall i | 0 <= i < |nodes| :: nodes[i] == sys.servers[m].nodes[i].(paused := nodes[i].paused))
    && sys' == SetState(sys, m, sys.servers[m].(nodes := nodes))
  }

  ghost predicate Next(sys: System, sys': System) {
    (exists call, freshID, freshSecret :: JoinStep(sys, call, freshID, freshSecret, sys')) || NextButJoin(sys, sys')
  }

  ghost predicate NextButJoin(sys: System, sys': System) {
    || (exists m, to, url, seed, selfURL, name :: BeginAddStep(sys, m, to, url, seed, selfURL, name, sys'))
    || (exists m, answer, name :: FinishAddStep(sys, m, answer, name, sys'))
    || (exists m :: GiveUpStep(sys, m, sys'))
    || (exists m, id, to :: RemoveStep(sys, m, id, to, sys'))
    || (exists s :: LeaveStep(sys, s, sys'))
    || (exists call :: LeaveCallStep(sys, call, sys'))
    || (exists m, to, id, self :: BeginPromoteStep(sys, m, to, id, self, sys'))
    || (exists call :: PromoteCallStep(sys, call, sys'))
    || (exists m :: FinishPromoteStep(sys, m, sys'))
    || (exists call :: StatusStep(sys, call, sys'))
    || (exists m, to, id, args :: SendStatusStep(sys, m, to, id, args, sys'))
    || (exists m, nodes :: PauseStep(sys, m, nodes, sys'))
  }

  ghost predicate Init(sys: System) {
    && WellTyped(sys) && sys.net == {} && sys.issued == map[]
    && forall s | s in sys.servers :: sys.servers[s] == BLANK && sys.pending[s] == Idle
  }

  ghost predicate Run(trace: seq<System>) {
    && trace != [] && Init(trace[0])
    && forall i | 0 <= i < |trace| - 1 :: Next(trace[i], trace[i + 1])
  }

  // The invariant

  predicate IssuedFor(issued: map<string, Issue>, id: string, pub: PublicKey) {
    id in issued && issued[id].pub == pub
  }

  predicate NodesOk(issued: map<string, Issue>, nodes: seq<Node>, seed: Seed) {
    forall n | n in nodes :: IssuedFor(issued, n.id, PublicOf(seed))
  }

  /** A slave holds an id that was issued to it for the key it trusts; a list of nodes
      names only ids issued for the key of the list's owner. */
  predicate StateOk(issued: map<string, Issue>, s: ServerId, st: State) {
    && (st.role == Slave ==> st.nodeID != "" && st.nodeID in issued && issued[st.nodeID] == Issue(s, st.masterPub))
    && (st.role == Slave ==> st.seed == "")
    && (st.role != Slave ==> st.nodeID == "")
    && (st.role != Master || st.seed == "" ==> st.nodes == [])
    && NodesOk(issued, st.nodes, st.seed)
  }

  predicate PendingOk(issued: map<string, Issue>, s: ServerId, st: State, p: Pending) {
    match p
    case Idle => true
    case Adding(req, _) => req.masterPub != NoKey && req.masterPub != PublicOf("")
    case Promoting(n, self, args) =>
      && st.role == Master && n in st.nodes && args.seed == st.seed && args.selfURL == n.url && args.nodes == HandedOver(st, n.id, self)
      && self.id != "" && self.id in issued && issued[self.id] == Issue(s, PublicOf(st.seed))
  }

  predicate MessageOk(issued: map<string, Issue>, m: Message) {
    && (m.JoinAnswer? ==> IssuedFor(issued, m.id, m.req.masterPub))
    && (m.PromoteCall? ==> NodesOk(issued, m.args.nodes, m.args.seed))
  }

  /** Every id is held, listed and sent with the key it was issued for. */
  ghost predicate Sound(sys: System) {
    && WellTyped(sys)
    && "" !in sys.issued
    && (forall s | s in sys.servers :: StateOk(sys.issued, s, sys.servers[s]))
    && (forall s | s in sys.servers :: PendingOk(sys.issued, s, sys.servers[s], sys.pending[s]))
    && (forall m | m in sys.net :: MessageOk(sys.issued, m))
  }

  /** The key a server sent with the call it waits for is still its own. */
  predicate CleanAt(sys: System, s: ServerId)
    requires s in sys.servers && s in sys.pending
  {
    sys.pending[s].Adding? ==>
      && sys.servers[s].role != Slave && sys.servers[s].seed != ""
      && sys.pending[s].req.masterPub == PublicOf(sys.servers[s].seed)
  }

  ghost predicate Inv(sys: System) {
    Sound(sys) && forall s | s in sys.servers :: CleanAt(sys, s)
  }

  /** Ids are only ever added, so what was true of the issued ids stays true. */
  lemma IssueMore(sys: System, id: string, issue: Issue)
    requires Sound(sys) && id != ""
    requires id in sys.issued ==> sys.issued[id] == issue
    ensures Sound(sys.(issued := sys.issued[id := issue]))
  {
    var more := sys.issued[id := issue];
    forall s | s in sys.servers
      ensures StateOk(more, s, sys.servers[s])
    {
      IssueMoreNodes(sys.issued, id, issue, sys.servers[s].nodes, sys.servers[s].seed);
    }
    forall m | m in sys.net
      ensures MessageOk(more, m)
    {
      if m.PromoteCall? {
        IssueMoreNodes(sys.issued, id, issue, m.args.nodes, m.args.seed);
      }
    }
  }

  lemma IssueMoreNodes(issued: map<string, Issue>, id: string, issue: Issue, nodes: seq<Node>, seed: Seed)
    requires NodesOk(issued, nodes, seed)
    requires id in issued ==> issued[id] == issue
    ensures NodesOk(issued[id := issue], nodes, seed)
  {
  }

  lemma InvSetState(sys: System, s: ServerId, st: State)
    requires Sound(sys) && s in sys.servers
    requires StateOk(sys.issued, s, st) && PendingOk(sys.issued, s, st, sys.pending[s])
    ensures Sound(SetState(sys, s, st))
  {
    hide StateOk, PendingOk, MessageOk;
    assert SetState(sys, s, st).servers.Keys == sys.servers.Keys;
  }

  lemma InvSend(sys: System, m: Message)
    requires Sound(sys) && MessageOk(sys.issued, m)
    ensures Sound(Send(sys, m))
  {
    hide StateOk, PendingOk, MessageOk;
  }

  lemma InvSetPending(sys: System, s: ServerId, p: Pending)
    requires Sound(sys) && s in sys.servers && PendingOk(sys.issued, s, sys.servers[s], p)
    ensures Sound(SetPending(sys, s, p))
  {
    hide StateOk, PendingOk, MessageOk;
    assert SetPending(sys, s, p).pending.Keys == sys.pending.Keys;
  }

  // Every step keeps the invariant

  lemma InvParts(sys: System, s: ServerId)
    requires Sound(sys) && s in sys.servers
    ensures s in sys.pending
    ensures StateOk(sys.issued, s, sys.servers[s]) && PendingOk(sys.issued, s, sys.servers[s], sys.pending[s])
  {
  }

  lemma MessageParts(sys: System, m: Message)
    requires Sound(sys) && m in sys.net
    ensures MessageOk(sys.issued, m)
  {
  }

  lemma BeginAddKeeps(sys: System, m: ServerId, to: ServerId, url: string, seed: Seed, selfURL: string, name: string, sys': System)
    requires Sound(sys) && BeginAddStep(sys, m, to, url, seed, selfURL, name, sys')
    ensures Sound(sys')
  {
    hide Sound;
    InvParts(sys, m);
    var st := Seeded(sys.servers[m], seed, selfURL);
    var req := JoinRequest(st.selfURL, name, PublicOf(st.seed));
    InvSetState(sys, m, st);
    InvSend(SetState(sys, m, st), JoinCall(to, req));
    InvSetPending(Send(SetState(sys, m, st), JoinCall(to, req)), m, Adding(req, url));
  }

  lemma JoinKeeps(sys: System, call: Message, freshID: string, freshSecret: string, sys': System)
    requires Sound(sys) && AnyJoinStep(sys, call, freshID, freshSecret, sys')
    ensures Sound(sys')
  {
    hide Sound;
    InvParts(sys, call.to);
    var st := Joined(sys.servers[call.to], call.req, freshID, freshSecret);
    var issue := Issue(call.to, call.req.masterPub);
    var sys1 := sys.(issued := sys.issued[st.nodeID := issue]);
    IssueMore(sys, st.nodeID, issue);
    InvSetState(sys1, call.to, st);
    InvSend(SetState(sys1, call.to, st), JoinAnswer(call.req, st.nodeID, st.nodeSecret));
  }

  lemma FinishAddKeeps(sys: System, m: ServerId, answer: Message, name: string, sys': System)
    requires Sound(sys) && FinishAddStep(sys, m, answer, name, sys')
    requires sys.pending[m].req.masterPub == PublicOf(sys.servers[m].seed)
    ensures Sound(sys')
  {
    hide Sound;
    InvParts(sys, m);
    MessageParts(sys, answer);
    var node := Node(answer.id, name, sys.pending[m].url, answer.secret, false);
    var st := Added(sys.servers[m], node);
    WithoutURLIs(sys.servers[m].nodes, node.url);
    assert forall n | n in st.nodes :: n in sys.servers[m].nodes || n == node;
    InvSetPending(sys, m, Idle);
    InvSetState(SetPending(sys, m, Idle), m, st);
  }

  lemma RemoveKeeps(sys: System, m: ServerId, id: string, to: ServerId, sys': System)
    requires Sound(sys) && RemoveStep(sys, m, id, to, sys')
    ensures Sound(sys')
  {
    hide Sound;
    InvParts(sys, m);
    WithoutIDIs(sys.servers[m].nodes, id);
    InvSetState(sys, m, Removed(sys.servers[m], id));
    InvSend(SetState(sys, m, Removed(sys.servers[m], id)), LeaveCall(to, Sign(sys.servers[m], id)));
  }

  lemma LeaveKeeps(sys: System, s: ServerId, sys': System)
    requires Sound(sys) && LeaveStep(sys, s, sys')
    ensures Sound(sys')
  {
    hide Sound;
    InvParts(sys, s);
    InvSetState(sys, s, BLANK);
  }

  lemma BeginPromoteKeeps(sys: System, m: ServerId, to: ServerId, id: string, self: Node, sys': System)
    requires Sound(sys) && BeginPromoteStep(sys, m, to, id, self, sys')
    ensures Sound(sys')
  {
    hide Sound;
    InvParts(sys, m);
    var st := sys.servers[m];
    var n := FindNode(st.nodes, id).value;
    var args := PromoteArgs(st.seed, n.url, HandedOver(st, id, self));
    var issue := Issue(m, PublicOf(st.seed));
    var sys1 := sys.(issued := sys.issued[self.id := issue]);
    IssueMore(sys, self.id, issue);
    IssueMoreNodes(sys.issued, self.id, issue, st.nodes, st.seed);
    WithoutIDIs(st.nodes, id);
    InvSend(sys1, PromoteCall(to, Sign(st, id), args));
    InvSetPending(Send(sys1, PromoteCall(to, Sign(st, id), args)), m, Promoting(n, self, args));
  }

  lemma PromoteCallKeeps(sys: System, call: Message, sys': System)
    requires Sound(sys) && PromoteCallStep(sys, call, sys')
    ensures Sound(sys')
  {
    hide Sound;
    InvParts(sys, call.to);
    MessageParts(sys, call);
    InvSetState(sys, call.to, Promoted(call.args));
    InvSend(SetState(sys, call.to, Promoted(call.args)), PromoteAnswer(call.args));
  }

  lemma FinishPromoteKeeps(sys: System, m: ServerId, sys': System)
    requires Sound(sys) && FinishPromoteStep(sys, m, sys')
    ensures Sound(sys')
  {
    hide Sound;
    InvParts(sys, m);
    InvSetPending(sys, m, Idle);
    InvSetState(SetPending(sys, m, Idle), m, Demoted(sys.servers[m], sys.pending[m].n, sys.pending[m].self));
  }

  lemma StatusKeeps(sys: System, call: Message, sys': System)
    requires Sound(sys) && StatusStep(sys, call, sys')
    ensures Sound(sys')
  {
    hide Sound;
    InvParts(sys, call.to);
    InvSetState(sys, call.to, Informed(sys.servers[call.to], call.info));
  }

  lemma PauseKeeps(sys: System, m: ServerId, nodes: seq<Node>, sys': System)
    requires Sound(sys) && PauseStep(sys, m, nodes, sys')
    ensures Sound(sys')
  {
    hide Sound;
    InvParts(sys, m);
    var st := sys.servers[m];
    forall n | n in nodes
      ensures IssuedFor(sys.issued, n.id, PublicOf(st.seed))
    {
      var i :| 0 <= i < |nodes| && nodes[i] == n;
      assert st.nodes[i] in st.nodes;
    }
    InvSetState(sys, m, st.(nodes := nodes));
  }

  lemma GiveUpKeeps(sys: System, m: ServerId, sys': System)
    requires Sound(sys) && GiveUpStep(sys, m, sys')
    ensures Sound(sys')
  {
    InvSetPending(sys, m, Idle);
  }

  lemma SendStatusKeeps(sys: System, m: ServerId, to: ServerId, id: string, args: StatusArgs, sys': System)
    requires Sound(sys) && SendStatusStep(sys, m, to, id, args, sys')
    ensures Sound(sys')
  {
    InvSend(sys, StatusCall(to, Sign(sys.servers[m], id), args));
  }

  lemma LeaveCallKeeps(sys: System, call: Message, sys': System)
    requires Sound(sys) && LeaveCallStep(sys, call, sys')
    ensures Sound(sys')
  {
    LeaveKeeps(sys, call.to, sys');
  }

  /** An answer is used under another key than the one it was given for. */
  ghost predicate Mismatch(sys: System, sys': System) {
    exists m, answer, name :: FinishAddStep(sys, m, answer, name, sys') && sys.pending[m].req.masterPub != PublicOf(sys.servers[m].seed)
  }

  lemma NextButJoinKeeps(sys: System, sys': System)
    requires Sound(sys) && NextButJoin(sys, sys') && !Mismatch(sys, sys')
    ensures Sound(sys')
  {
    hide Sound, BeginAddStep, GiveUpStep, RemoveStep, LeaveStep, LeaveCallStep, BeginPromoteStep,
         PromoteCallStep, FinishPromoteStep, StatusStep, SendStatusStep, PauseStep;
    if m, to, url, seed, selfURL, name :| BeginAddStep(sys, m, to, url, seed, selfURL, name, sys') {
      BeginAddKeeps(sys, m, to, url, seed, selfURL, name, sys');
    } else if m, answer, name :| FinishAddStep(sys, m, answer, name, sys') {
      FinishAddKeeps(sys, m, answer, name, sys');
    } else if m :| GiveUpStep(sys, m, sys') {
      GiveUpKeeps(sys, m, sys');
    } else if m, id, to :| RemoveStep(sys, m, id, to, sys') {
      RemoveKeeps(sys, m, id, to, sys');
    } else if s :| LeaveStep(sys, s, sys') {
      LeaveKeeps(sys, s, sys');
    } else if call :| LeaveCallStep(sys, call, sys') {
      LeaveCallKeeps(sys, call, sys');
    } else if m, to, id, self :| BeginPromoteStep(sys, m, to, id, self, sys') {
      BeginPromoteKeeps(sys, m, to, id, self, sys');
    } else if call :| PromoteCallStep(sys, call, sys') {
      PromoteCallKeeps(sys, call, sys');
    } else if m :| FinishPromoteStep(sys, m, sys') {
      FinishPromoteKeeps(sys, m, sys');
    } else if call :| StatusStep(sys, call, sys') {
      StatusKeeps(sys, call, sys');
    } else if m, to, id, args :| SendStatusStep(sys, m, to, id, args, sys') {
      SendStatusKeeps(sys, m, to, id, args, sys');
    } else {
      var m, nodes :| PauseStep(sys, m, nodes, sys');
      PauseKeeps(sys, m, nodes, sys');
    }
  }

  // Keys stay clean except through a join

  /** A step changes one server and what it waits for, and keeps its key clean. */
  predicate Local(sys: System, sys': System, m: ServerId) {
    && m in sys.servers && m in sys.pending && m in sys'.servers && m in sys'.pending
    && sys'.servers == sys.servers[m := sys'.servers[m]] && sys'.pending == sys.pending[m := sys'.pending[m]]
    && (CleanAt(sys, m) ==> CleanAt(sys', m))
  }

  lemma LocalAdds(sys: System, sys': System) returns (m: ServerId)
    requires WellTyped(sys)
    requires (exists m, to, url, seed, selfURL, name :: BeginAddStep(sys, m, to, url, seed, selfURL, name, sys'))
          || (exists m, answer, name :: FinishAddStep(sys, m, answer, name, sys')) || (exists m :: GiveUpStep(sys, m, sys'))
          || (exists m, id, to :: RemoveStep(sys, m, id, to, sys'))
    ensures Local(sys, sys', m)
  {
    hide Added, Removed, Sign, FindNode;
    if k, to, url, seed, selfURL, name :| BeginAddStep(sys, k, to, url, seed, selfURL, name, sys') {
      m := k;
    } else if k, answer, name :| FinishAddStep(sys, k, answer, name, sys') {
      m := k;
    } else if k :| GiveUpStep(sys, k, sys') {
      m := k;
    } else {
      var k, id, to :| RemoveStep(sys, k, id, to, sys');
      m := k;
    }
  }

  lemma LocalLeaves(sys: System, sys': System) returns (m: ServerId)
    requires WellTyped(sys)
    requires (exists s :: LeaveStep(sys, s, sys')) || (exists call :: LeaveCallStep(sys, call, sys'))
          || (exists m, to, id, self :: BeginPromoteStep(sys, m, to, id, self, sys'))
          || (exists call :: PromoteCallStep(sys, call, sys'))
    ensures Local(sys, sys', m)
  {
    hide HandedOver, Sign, FindNode;
    if s :| LeaveStep(sys, s, sys') {
      m := s;
    } else if call :| LeaveCallStep(sys, call, sys') {
      m := call.to;
    } else if k, to, id, self :| BeginPromoteStep(sys, k, to, id, self, sys') {
      m := k;
    } else {
      var call :| PromoteCallStep(sys, call, sys');
      m := call.to;
    }
  }

  lemma LocalRest(sys: System, sys': System) returns (m: ServerId)
    requires WellTyped(sys)
    requires (exists m :: FinishPromoteStep(sys, m, sys')) || (exists call :: StatusStep(sys, call, sys'))
          || (exists m, to, id, args :: SendStatusStep(sys, m, to, id, args, sys'))
          || (exists m, nodes :: PauseStep(sys, m, nodes, sys'))
    ensures Local(sys, sys', m)
  {
    hide Demoted, Sign;
    if k :| FinishPromoteStep(sys, k, sys') {
      m := k;
    } else if call :| StatusStep(sys, call, sys') {
      m := call.to;
    } else if k, to, id, args :| SendStatusStep(sys, k, to, id, args, sys') {
      m := k;
    } else {
      var k, nodes :| PauseStep(sys, k, nodes, sys');
      m := k;
    }
  }

  lemma NextButJoinLocal(sys: System, sys': System) returns (m: ServerId)
    requires WellTyped(sys) && NextButJoin(sys, sys')
    ensures Local(sys, sys', m)
  {
    hide BeginAddStep, FinishAddStep, GiveUpStep, RemoveStep, LeaveStep, LeaveCallStep, BeginPromoteStep,
         PromoteCallStep, FinishPromoteStep, StatusStep, SendStatusStep, PauseStep, Local;
    if (exists m, to, url, seed, selfURL, name :: BeginAddStep(sys, m, to, url, seed, selfURL, name, sys'))
      || (exists m, answer, name :: FinishAddStep(sys, m, answer, name, sys')) || (exists m :: GiveUpStep(sys, m, sys'))
      || (exists m, id, to :: RemoveStep(sys, m, id, to, sys')) {
      m := LocalAdds(sys, sys');
    } else if (exists s :: LeaveStep(sys, s, sys')) || (exists call :: LeaveCallStep(sys, call, sys'))
      || (exists m, to, id, self :: BeginPromoteStep(sys, m, to, id, self, sys'))
      || (exists call :: PromoteCallStep(sys, call, sys')) {
      m := LocalLeaves(sys, sys');
    } else {
      m := LocalRest(sys, sys');
    }
  }

  lemma NextButJoinClean(sys: System, sys': System)
    requires WellTyped(sys) && NextButJoin(sys, sys')
    ensures WellTyped(sys') && sys'.servers.Keys == sys.servers.Keys
    ensures forall s | s in sys.servers && CleanAt(sys, s) :: CleanAt(sys', s)
  {
    hide NextButJoin;
    var m := NextButJoinLocal(sys, sys');
    assert sys'.servers.Keys == sys.servers.Keys && sys'.pending.Keys == sys.pending.Keys;
  }

  lemma JoinClean(sys: System, call: Message, freshID: string, freshSecret: string, sys': System)
    requires WellTyped(sys) && AnyJoinStep(sys, call, freshID, freshSecret, sys')
    ensures WellTyped(sys') && sys'.servers.Keys == sys.servers.Keys
    ensures forall s | s in sys.servers && CleanAt(sys, s) && !(s == call.to && sys.pending[s].Adding?) :: CleanAt(sys', s)
  {
  }

  lemma CleanMatches(sys: System, sys': System)
    requires Inv(sys)
    ensures !Mismatch(sys, sys')
  {
  }

  lemma NextKeeps(sys: System, sys': System)
    requires Inv(sys) && Next(sys, sys')
    ensures Inv(sys')
  {
    hide Sound, NextButJoin, AnyJoinStep, Mismatch;
    SoundIsTyped(sys);
    if call, freshID, freshSecret :| JoinStep(sys, call, freshID, freshSecret, sys') {
      JoinKeeps(sys, call, freshID, freshSecret, sys');
      JoinClean(sys, call, freshID, freshSecret, sys');
    } else {
      CleanMatches(sys, sys');
      NextButJoinKeeps(sys, sys');
      NextButJoinClean(sys, sys');
    }
  }

  lemma SoundIsTyped(sys: System)
    requires Sound(sys)
    ensures WellTyped(sys)
  {
  }

  lemma {:induction false} RunKeeps(trace: seq<System>, i: nat)
    requires Run(trace) && i < |trace|
    ensures Inv(trace[i])
  {
    hide Inv, Next;
    if i == 0 {
      InitInv(trace[0]);
    } else {
      RunKeeps(trace, i - 1);
      assert Next(trace[i - 1], trace[i - 1 + 1]);
      NextKeeps(trace[i - 1], trace[i]);
    }
  }

  lemma InitInv(sys: System)
    requires Init(sys)
    ensures Inv(sys)
  {
  }

  // What the runs guarantee

  /** Whichever answers were lost, a slave whose id some server lists trusts the key of
      that server, and every call that server signs for it is accepted. */
  lemma ListedSlaveTrustsItsMaster(trace: seq<System>, i: nat, m: ServerId, n: Node, s: ServerId)
    requires Run(trace) && i < |trace|
    requires m in trace[i].servers && n in trace[i].servers[m].nodes
    requires s in trace[i].servers && trace[i].servers[s].role == Slave && trace[i].servers[s].nodeID == n.id
    ensures trace[i].servers[s].masterPub == PublicOf(trace[i].servers[m].seed)
    ensures Verifies(trace[i].servers[s], Sign(trace[i].servers[m], n.id))
  {
    hide Run, Sound;
    RunKeeps(trace, i);
    InvParts(trace[i], m);
    InvParts(trace[i], s);
  }

  /** No two servers ever hold the same node id. */
  lemma NodeIdsAreExclusive(trace: seq<System>, i: nat, s: ServerId, t: ServerId)
    requires Run(trace) && i < |trace|
    requires s in trace[i].servers && trace[i].servers[s].role == Slave
    requires t in trace[i].servers && trace[i].servers[t].role == Slave
    requires trace[i].servers[s].nodeID == trace[i].servers[t].nodeID
    ensures s == t
  {
    hide Run, Sound;
    RunKeeps(trace, i);
    InvParts(trace[i], s);
    InvParts(trace[i], t);
  }
}
