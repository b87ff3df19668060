/** internal/cluster/fleet.go: what a completed promotion does to the cluster, over whole
    runs with late, repeated and lost messages. */
module Promotion {
  import opened Text
  import opened Membership
  import opened Protocol

  /** The server behind each node id, and the master itself. */
  ghost function Members(issued: map<string, Issue>, m: ServerId, nodes: seq<Node>): set<ServerId> {
    {m} + set n | n in nodes && n.id in issued :: issued[n.id].server
  }

  /** Handing the list over to a listed server keeps the members: the two swap places. */
  lemma HandingOverKeepsMembers(issued: map<string, Issue>, m: ServerId, st: State, n: Node, self: Node, to: ServerId)
    requires n in st.nodes && n.id in issued && issued[n.id].server == to
    requires self.id in issued && issued[self.id].server == m
    ensures Members(issued, to, HandedOver(st, n.id, self)) == Members(issued, m, st.nodes)
  {
    hide CountID;
    var rest := WithoutID(st.nodes, n.id);
    WithoutIDIs(st.nodes, n.id);
    var handed := HandedOver(st, n.id, self);
    assert forall x :: x in handed <==> x == self || x in rest;
    var a, b := Members(issued, to, handed), Members(issued, m, st.nodes);
    forall x | x in b
      ensures x in a
    {
      if x != m && x != to {
        var k :| k in st.nodes && k.id in issued && issued[k.id].server == x;
        assert k in rest;
      }
    }
    forall x | x in a
      ensures x in b
    {
      if x != m && x != to {
        var k :| k in handed && k.id in issued && issued[k.id].server == x;
        assert k in st.nodes;
      }
    }
  }

  // Which call belongs to which promotion

  /** The calls that carry the list a server waits to hand over are addressed to the node
      it chose. */
  ghost predicate Linked(sys: System) {
    forall s, c | s in sys.servers && s in sys.pending && sys.pending[s].Promoting? && c in sys.net && IsCallOf(c, sys.pending[s].args) ::
      c.env == Envelope(sys.pending[s].n.id, sys.pending[s].args.seed)
  }

  predicate IsCallOf(c: Message, args: PromoteArgs) {
    c.PromoteCall? && c.args == args
  }

  /** A step that starts no promotion. */
  predicate Quiet(sys: System, sys': System) {
    && (forall s | s in sys'.pending && sys'.pending[s].Promoting? :: s in sys.pending && sys.pending[s] == sys'.pending[s])
    && (forall c | c in sys'.net && c.PromoteCall? :: c in sys.net)
    && sys'.servers.Keys == sys.servers.Keys
  }

  lemma QuietLinked(sys: System, sys': System)
    requires Linked(sys) && Quiet(sys, sys')
    ensures Linked(sys')
  {
  }

  /** A list with an id that was never given out was never sent. */
  lemma NotThatCall(sys: System, c: Message, self: Node, args: PromoteArgs)
    requires Sound(sys) && c in sys.net && self.id !in sys.issued && self in args.nodes
    ensures !IsCallOf(c, args)
  {
    hide Sound;
    MessageParts(sys, c);
  }

  lemma BeginPromoteLinked(sys: System, m: ServerId, to: ServerId, id: string, self: Node, sys': System)
    requires Sound(sys) && Linked(sys) && BeginPromoteStep(sys, m, to, id, self, sys')
    ensures Linked(sys')
  {
    hide Sound;
    var st := sys.servers[m];
    var n := FindNode(st.nodes, id).value;
    var args := PromoteArgs(st.seed, n.url, HandedOver(st, id, self));
    assert args.nodes[0] == self;
    var call := PromoteCall(to, Sign(st, id), args);
    forall s, c | s in sys'.servers && s in sys'.pending && sys'.pending[s].Promoting? && c in sys'.net && IsCallOf(c, sys'.pending[s].args)
      ensures c.env == Envelope(sys'.pending[s].n.id, sys'.pending[s].args.seed)
    {
      if c in sys.net {
        NotThatCall(sys, c, self, args);
      }
      if s != m {
        InvParts(sys, s);
        assert sys.pending[s].args.nodes[0] == sys.pending[s].self;
      }
    }
  }

  lemma AnyQuiet(sys: System, sys': System)
    requires WellTyped(sys)
    requires (exists call, freshID, freshSecret :: JoinStep(sys, call, freshID, freshSecret, sys'))
          || (exists m, to, url, seed, selfURL, name :: BeginAddStep(sys, m, to, url, seed, selfURL, name, sys'))
          || (exists m, answer, name :: FinishAddStep(sys, m, answer, name, sys')) || (exists m :: GiveUpStep(sys, m, sys'))
          || (exists m, id, to :: RemoveStep(sys, m, id, to, sys'))
    ensures Quiet(sys, sys')
  {
    hide Joined, Added, Removed, Sign, FindNode, AcceptsJoin, Seeded;
  }

  lemma OtherQuiet(sys: System, sys': System)
    requires WellTyped(sys)
    requires (exists s :: LeaveStep(sys, s, sys')) || (exists call :: LeaveCallStep(sys, call, sys'))
          || (exists call :: PromoteCallStep(sys, call, sys')) || (exists m :: FinishPromoteStep(sys, m, sys'))
          || (exists call :: StatusStep(sys, call, sys')) || (exists m, to, id, args :: SendStatusStep(sys, m, to, id, args, sys'))
          || (exists m, nodes :: PauseStep(sys, m, nodes, sys'))
    ensures Quiet(sys, sys')
  {
    hide Promoted, Demoted, Sign, Verifies, Informed;
  }

  lemma NextLinked(sys: System, sys': System)
    requires Sound(sys) && Linked(sys) && Next(sys, sys')
    ensures Linked(sys')
  {
    hide Sound, Linked, Quiet, JoinStep, BeginAddStep, FinishAddStep, GiveUpStep, RemoveStep, LeaveStep, LeaveCallStep, BeginPromoteStep,
         PromoteCallStep, FinishPromoteStep, StatusStep, SendStatusStep, PauseStep;
    SoundIsTyped(sys);
    if m, to, id, self :| BeginPromoteStep(sys, m, to, id, self, sys') {
      BeginPromoteLinked(sys, m, to, id, self, sys');
    } else {
      if (exists s :: LeaveStep(sys, s, sys')) || (exists call :: LeaveCallStep(sys, call, sys'))
        || (exists call :: PromoteCallStep(sys, call, sys')) || (exists m :: FinishPromoteStep(sys, m, sys'))
        || (exists call :: StatusStep(sys, call, sys')) || (exists m, to, id, args :: SendStatusStep(sys, m, to, id, args, sys'))
        || (exists m, nodes :: PauseStep(sys, m, nodes, sys')) {
        OtherQuiet(sys, sys');
      } else {
        AnyQuiet(sys, sys');
      }
      QuietLinked(sys, sys');
    }
  }

  lemma {:induction false} RunLinked(trace: seq<System>, i: nat)
    requires Run(trace) && i < |trace|
    ensures Linked(trace[i])
  {
    hide Next, Linked, Sound;
    if i == 0 {
      NothingLinked(trace[0]);
    } else {
      RunLinked(trace, i - 1);
      RunKeeps(trace, i - 1);
      assert Next(trace[i - 1], trace[i - 1 + 1]);
      NextLinked(trace[i - 1], trace[i]);
    }
  }

  lemma NothingLinked(sys: System)
    requires Init(sys)
    ensures Linked(sys)
  {
  }

  // Ids and messages are only added

  predicate Grows(sys: System, sys': System) {
    && (forall id | id in sys.issued :: id in sys'.issued && sys'.issued[id] == sys.issued[id])
    && sys.net <= sys'.net
  }

  lemma JoinGrows(sys: System, call: Message, freshID: string, freshSecret: string, sys': System)
    requires Sound(sys) && AnyJoinStep(sys, call, freshID, freshSecret, sys')
    ensures Grows(sys, sys')
  {
    hide Sound;
    InvParts(sys, call.to);
  }

  lemma NextGrows(sys: System, sys': System)
    requires Sound(sys) && Next(sys, sys')
    ensures Grows(sys, sys')
  {
    hide Sound, NextButJoin, AnyJoinStep, Grows;
    SoundIsTyped(sys);
    if call, freshID, freshSecret :| JoinStep(sys, call, freshID, freshSecret, sys') {
      JoinGrows(sys, call, freshID, freshSecret, sys');
    } else {
      OthersGrow(sys, sys');
    }
  }

  lemma OthersGrow(sys: System, sys': System)
    requires WellTyped(sys) && NextButJoin(sys, sys')
    ensures Grows(sys, sys')
  {
    hide Added, Removed, Sign, FindNode, Seeded, HandedOver, Promoted, Demoted, Verifies, Informed;
  }

  lemma {:induction false} RunGrows(trace: seq<System>, i: nat, j: nat)
    requires Run(trace) && i <= j < |trace|
    ensures Grows(trace[i], trace[j])
    decreases j - i
  {
    hide Next, Sound;
    if i < j {
      RunGrows(trace, i, j - 1);
      RunKeeps(trace, j - 1);
      assert Next(trace[j - 1], trace[j - 1 + 1]);
      NextGrows(trace[j - 1], trace[j]);
    }
  }

  // A server that finishes was heard

  ghost predicate TakesOver(sys: System, to: ServerId, args: PromoteArgs, sys': System) {
    exists call :: PromoteCallStep(sys, call, sys') && call.args == args && call.to == to
  }

  lemma NewAnswer(sys: System, sys': System, args: PromoteArgs) returns (to: ServerId)
    requires WellTyped(sys) && Next(sys, sys') && PromoteAnswer(args) in sys'.net && PromoteAnswer(args) !in sys.net
    ensures TakesOver(sys, to, args, sys')
  {
    hide NextButJoin, AnyJoinStep;
    if call, freshID, freshSecret :| JoinStep(sys, call, freshID, freshSecret, sys') {
      NoAnswerInJoin(sys, call, freshID, freshSecret, sys', args);
      assert false;
    } else {
      to := NewAnswerOther(sys, sys', args);
    }
  }

  lemma NoAnswerInJoin(sys: System, call: Message, freshID: string, freshSecret: string, sys': System, args: PromoteArgs)
    requires AnyJoinStep(sys, call, freshID, freshSecret, sys')
    ensures PromoteAnswer(args) in sys'.net ==> PromoteAnswer(args) in sys.net
  {
  }

  lemma NewAnswerOther(sys: System, sys': System, args: PromoteArgs) returns (to: ServerId)
    requires WellTyped(sys) && NextButJoin(sys, sys') && PromoteAnswer(args) in sys'.net && PromoteAnswer(args) !in sys.net
    ensures TakesOver(sys, to, args, sys')
  {
    hide Added, Removed, Sign, FindNode, Seeded, HandedOver, Promoted, Demoted, Verifies, Informed;
    var call :| PromoteCallStep(sys, call, sys');
    to := call.to;
  }

  lemma {:induction false} AnswerWasGiven(trace: seq<System>, j: nat, args: PromoteArgs) returns (i: nat, to: ServerId)
    requires Run(trace) && j < |trace| && PromoteAnswer(args) in trace[j].net
    ensures i < j && TakesOver(trace[i], to, args, trace[i + 1])
  {
    hide Next, Sound, TakesOver;
    i, to := 0, 0;
    if j == 0 {
      assert false;
    } else if PromoteAnswer(args) in trace[j - 1].net {
      i, to := AnswerWasGiven(trace, j - 1, args);
    } else {
      RunKeeps(trace, j - 1);
      SoundIsTyped(trace[j - 1]);
      assert Next(trace[j - 1], trace[j - 1 + 1]);
      i := j - 1;
      to := NewAnswer(trace[j - 1], trace[j], args);
    }
  }

  /** What a server that takes over is by then. */
  lemma TakeOverIs(sys: System, to: ServerId, args: PromoteArgs, sys': System)
    requires Sound(sys) && TakesOver(sys, to, args, sys')
    ensures to in sys'.servers && sys'.servers[to] == Promoted(args) && sys'.issued == sys.issued
    ensures NodesOk(sys.issued, args.nodes, args.seed)
    ensures exists c :: c in sys.net && IsCallOf(c, args) && c.env.aud in sys.issued && sys.issued[c.env.aud].server == to
  {
    hide Sound, NodesOk;
    var call :| PromoteCallStep(sys, call, sys') && call.args == args && call.to == to;
    InvParts(sys, to);
    MessageParts(sys, call);
    assert IsCallOf(call, args);
  }

  lemma SameMembers(issued: map<string, Issue>, more: map<string, Issue>, m: ServerId, nodes: seq<Node>)
    requires forall n | n in nodes :: n.id in issued
    requires forall id | id in issued :: id in more && more[id] == issued[id]
    ensures Members(issued, m, nodes) == Members(more, m, nodes)
  {
    forall x | x in Members(more, m, nodes) && x != m
      ensures x in Members(issued, m, nodes)
    {
      var k :| k in nodes && k.id in more && more[k.id].server == x;
    }
    forall x | x in Members(issued, m, nodes) && x != m
      ensures x in Members(more, m, nodes)
    {
      var k :| k in nodes && k.id in issued && issued[k.id].server == x;
    }
  }

  /** Server to took over at step i, with the list that m still waits to hand over at j. */
  lemma TakeOverKeepsMembers(trace: seq<System>, i: nat, j: nat, m: ServerId, to: ServerId)
    requires Run(trace) && i < j < |trace|
    requires m in trace[j].servers && m in trace[j].pending && trace[j].pending[m].Promoting?
    requires TakesOver(trace[i], to, trace[j].pending[m].args, trace[i + 1])
    ensures to in trace[i + 1].servers && trace[i + 1].servers[to] == Promoted(trace[j].pending[m].args)
    ensures Members(trace[i + 1].issued, to, trace[i + 1].servers[to].nodes) == Members(trace[j].issued, m, trace[j].servers[m].nodes)
  {
    hide Run, Sound, NodesOk, TakesOver, Members, HandedOver;
    var p := trace[j].pending[m];
    RunKeeps(trace, i);
    RunKeeps(trace, j);
    RunGrows(trace, i, j);
    RunLinked(trace, j);
    TakeOverIs(trace[i], to, p.args, trace[i + 1]);
    var c :| c in trace[i].net && IsCallOf(c, p.args) && c.env.aud in trace[i].issued && trace[i].issued[c.env.aud].server == to;
    InvParts(trace[j], m);
    assert c in trace[j].net && c.env.aud == p.n.id;
    HandingOverKeepsMembers(trace[j].issued, m, trace[j].servers[m], p.n, p.self, to);
    ListedAreIssued(trace[i].issued, p.args.nodes, p.args.seed);
    SameMembers(trace[i].issued, trace[j].issued, to, p.args.nodes);
  }

  lemma ListedAreIssued(issued: map<string, Issue>, nodes: seq<Node>, seed: Seed)
    requires NodesOk(issued, nodes, seed)
    ensures forall n | n in nodes :: n.id in issued
  {
  }

  /** A promotion that m completes in a run: some server took over before. From then on it
      is the master of the same members, and both servers count the same cluster, which is
      the old count exactly when the promoted id was listed once. */
  lemma CompletedPromotion(trace: seq<System>, j: nat, m: ServerId) returns (i: nat, to: ServerId)
    requires Run(trace) && j + 1 < |trace| && FinishPromoteStep(trace[j], m, trace[j + 1])
    ensures i < j && m in trace[j].servers && m in trace[j + 1].servers && to in trace[i + 1].servers
    ensures trace[i + 1].servers[to].role == Master && trace[j + 1].servers[m].role == Slave
    ensures trace[j].pending[m].Promoting? && trace[j + 1].servers[m].masterName == trace[j].pending[m].n.name
    ensures trace[j + 1].servers[m].masterURL == trace[i + 1].servers[to].selfURL && trace[j + 1].servers[m].masterPub == PublicOf(trace[i + 1].servers[to].seed)
    ensures Members(trace[i + 1].issued, to, trace[i + 1].servers[to].nodes) == Members(trace[j].issued, m, trace[j].servers[m].nodes)
    ensures ClusterCount(trace[i + 1].servers[to]) == ClusterCount(trace[j + 1].servers[m])
    ensures trace[j + 1].servers[m].clusterSize == 1 + |trace[i + 1].servers[to].nodes|
    ensures ClusterCount(trace[j + 1].servers[m]) == ClusterCount(trace[j].servers[m]) <==>
            CountID(trace[j].servers[m].nodes, trace[j].pending[m].n.id) == 1
  {
    hide Run, Sound, TakesOver, Members;
    var p := trace[j].pending[m];
    i, to := AnswerWasGiven(trace, j, p.args);
    TakeOverKeepsMembers(trace, i, j, m, to);
    RunKeeps(trace, j);
    InvParts(trace[j], m);
    PromotionKeepsCount(trace[j].servers[m], p.n, p.self, p.args.selfURL);
    assert trace[i + 1].servers[to] == Promoted(PromoteArgs(p.args.seed, p.args.selfURL, HandedOver(trace[j].servers[m], p.n.id, p.self)));
    assert trace[j + 1].servers[m] == Demoted(trace[j].servers[m], p.n, p.self);
  }
}
