/** internal/cluster: the saved state of one server as a member of a cluster, and every
    operation that changes its role. Keys are ideal: a public key names its seed. */
module Membership {
  import opened Text

  /** "" is no seed. */
  type Seed = string

  datatype PublicKey = NoKey | PublicOf(seed: Seed)

  datatype Role = Standalone | Master | Slave

  datatype Node = Node(id: string, name: string, url: string, secret: string, paused: bool)

  datatype State = State(
    role: Role,
    // master side
    seed: Seed, selfURL: string, nodes: seq<Node>,
    // slave side
    nodeID: string, nodeSecret: string, masterName: string, masterURL: string, masterPub: PublicKey, clusterSize: nat)

  const BLANK := State(Standalone, "", "", [], "", "", "", "", NoKey, 0)

  datatype JoinRequest = JoinRequest(masterURL: string, masterName: string, masterPub: PublicKey)

  datatype PromoteArgs = PromoteArgs(seed: Seed, selfURL: string, nodes: seq<Node>)

  datatype StatusArgs = StatusArgs(clusterSize: nat, masterURL: string, masterName: string)

  // Lists of nodes

  function WithoutID(nodes: seq<Node>, id: string): seq<Node> {
    if nodes == [] then []
    else
      var rest := WithoutID(nodes[..|nodes| - 1], id);
      if nodes[|nodes| - 1].id == id then rest else rest + [nodes[|nodes| - 1]]
  }

  function WithoutURL(nodes: seq<Node>, url: string): seq<Node> {
    if nodes == [] then []
    else
      var rest := WithoutURL(nodes[..|nodes| - 1], url);
      if nodes[|nodes| - 1].url == url then rest else rest + [nodes[|nodes| - 1]]
  }

  function CountID(nodes: seq<Node>, id: string): nat {
    if nodes == [] then 0 else CountID(nodes[..|nodes| - 1], id) + if nodes[|nodes| - 1].id == id then 1 else 0
  }

  function FindNode(nodes: seq<Node>, id: string): (r: Option<Node>)
    ensures r.Some? ==> r.value in nodes && r.value.id == id
    ensures r.None? ==> forall n | n in nodes :: n.id != id
  {
    if nodes == [] then None else if nodes[0].id == id then Some(nodes[0]) else FindNode(nodes[1..], id)
  }

  lemma {:induction false} WithoutIDIs(nodes: seq<Node>, id: string)
    ensures forall n :: n in WithoutID(nodes, id) <==> n in nodes && n.id != id
    ensures |WithoutID(nodes, id)| + CountID(nodes, id) == |nodes|
    decreases |nodes|
  {
    if nodes != [] {
      var k := |nodes| - 1;
      WithoutIDIs(nodes[..k], id);
      assert forall n :: n in nodes <==> n in nodes[..k] || n == nodes[k];
    }
  }

  lemma {:induction false} WithoutURLIs(nodes: seq<Node>, url: string)
    ensures forall n :: n in WithoutURL(nodes, url) <==> n in nodes && n.url != url
    decreases |nodes|
  {
    if nodes != [] {
      var k := |nodes| - 1;
      WithoutURLIs(nodes[..k], url);
      assert forall n :: n in nodes <==> n in nodes[..k] || n == nodes[k];
    }
  }

  lemma {:induction false} WithoutIDPicks(nodes: seq<Node>, id: string)
    ensures Picks(WithoutID(nodes, id), nodes, (n: Node) => n.id != id)
    decreases |nodes|
  {
    hide Picks;
    if nodes == [] {
      PicksNothing((n: Node) => n.id != id);
    } else {
      var init, last := nodes[..|nodes| - 1], nodes[|nodes| - 1];
      WithoutIDPicks(init, id);
      PicksSnoc(WithoutID(init, id), init, last, (n: Node) => n.id != id);
      assert init + [last] == nodes;
    }
  }

  lemma {:induction false} WithoutURLPicks(nodes: seq<Node>, url: string)
    ensures Picks(WithoutURL(nodes, url), nodes, (n: Node) => n.url != url)
    decreases |nodes|
  {
    hide Picks;
    if nodes == [] {
      PicksNothing((n: Node) => n.url != url);
    } else {
      var init, last := nodes[..|nodes| - 1], nodes[|nodes| - 1];
      WithoutURLPicks(init, url);
      PicksSnoc(WithoutURL(init, url), init, last, (n: Node) => n.url != url);
      assert init + [last] == nodes;
    }
  }

  // The transitions

  predicate AcceptsJoin(st: State, req: JoinRequest) {
    && !(st.role == Master && st.nodes != [])
    && !(st.role == Slave && st.masterPub != req.masterPub)
    && req.masterPub != NoKey && req.masterURL != ""
  }

  /** A slave keeps its id when the same master asks it again. */
  function Joined(st: State, req: JoinRequest, freshID: string, freshSecret: string): State {
    BLANK.(role := Slave,
           nodeID := if st.nodeID == "" then freshID else st.nodeID,
           nodeSecret := if st.nodeID == "" then freshSecret else st.nodeSecret,
           masterName := req.masterName, masterURL := req.masterURL, masterPub := req.masterPub)
  }

  function Seeded(st: State, freshSeed: Seed, selfURL: string): State {
    if st.seed == "" then st.(seed := freshSeed, selfURL := selfURL) else st
  }

  function Added(st: State, node: Node): State {
    st.(role := Master, nodes := WithoutURL(st.nodes, node.url) + [node])
  }

  function Removed(st: State, id: string): State {
    var kept := WithoutID(st.nodes, id);
    st.(nodes := kept, role := if kept == [] then Standalone else st.role)
  }

  /** The list the new master starts with: the old master, then everyone else. */
  function HandedOver(st: State, id: string, self: Node): seq<Node> {
    [self] + WithoutID(st.nodes, id)
  }

  function Demoted(st: State, n: Node, self: Node): State {
    BLANK.(role := Slave, nodeID := self.id, nodeSecret := self.secret, masterName := n.name, masterURL := n.url,
           masterPub := PublicOf(st.seed), clusterSize := |HandedOver(st, n.id, self)| + 1)
  }

  function Promoted(args: PromoteArgs): State {
    BLANK.(role := Master, seed := args.seed, selfURL := args.selfURL, nodes := args.nodes)
  }

  function Informed(st: State, a: StatusArgs): State {
    if st.role != Slave || a.masterURL == "" then st
    else st.(clusterSize := a.clusterSize, masterURL := a.masterURL, masterName := a.masterName)
  }

  /** The number of servers in this server's cluster. */
  function ClusterCount(st: State): nat {
    match st.role
    case Master => 1 + |st.nodes|
    case Slave => if st.clusterSize > 0 then st.clusterSize else 1
    case Standalone => 1
  }

  // Calls

  /** What a master signs: the claim and the seed its signature was made with. */
  datatype Envelope = Envelope(aud: string, signer: Seed)

  function Sign(st: State, aud: string): Envelope {
    Envelope(aud, st.seed)
  }

  /** The signature and audience checks of verify. */
  predicate Verifies(st: State, e: Envelope) {
    st.role == Slave && st.masterPub != NoKey && PublicOf(e.signer) == st.masterPub && e.aud == st.nodeID
  }

  /** One server. */
  class Manager {
    var state: State

    /** codeOk says that a join code is in force and is the one of the request, sameVersion
        that the versions fit. */
    method HandleJoin(req: JoinRequest, codeOk: bool, sameVersion: bool, freshID: string, freshSecret: string)
      returns (reply: Option<(string, string)>)
      modifies this
      ensures reply.Some? <==> codeOk && sameVersion && AcceptsJoin(old(state), req)
      ensures reply.Some? ==> state == Joined(old(state), req, freshID, freshSecret) && reply.value == (state.nodeID, state.nodeSecret)
      ensures reply.None? ==> state == old(state)
      ensures reply.Some? <==>
                && codeOk && sameVersion && req.masterPub != NoKey && req.masterURL != ""
                && (old(state).role == Master ==> old(state).nodes == [])
                && (old(state).role == Slave ==> old(state).masterPub == req.masterPub)
      ensures reply.Some? ==>
                && state.role == Slave && state.seed == "" && state.selfURL == "" && state.nodes == [] && state.clusterSize == 0
                && state.masterURL == req.masterURL && state.masterName == req.masterName && state.masterPub == req.masterPub
                && state.nodeID == (if old(state).nodeID == "" then freshID else old(state).nodeID)
                && state.nodeSecret == (if old(state).nodeID == "" then freshSecret else old(state).nodeSecret)
    {
      if !codeOk {
        return None;
      }
      var st := state;
      if st.role == Master && |st.nodes| > 0 {
        return None;
      }
      if st.role == Slave && st.masterPub != req.masterPub {
        return None;
      }
      if req.masterPub == NoKey || req.masterURL == "" || !sameVersion {
        return None;
      }
      var id, secret := st.nodeID, st.nodeSecret;
      if id == "" {
        id, secret := freshID, freshSecret;
      }
      state := State(Slave, "", "", [], id, secret, req.masterName, req.masterURL, req.masterPub, 0);
      reply := Some((id, secret));
    }

    /** The first half of AddNode: nothing but a seed is created before the reply. */
    method BeginAdd(freshSeed: Seed, selfURL: string, licensed: bool) returns (req: Option<PublicKey>)
      modifies this
      ensures old(state).role == Slave || !licensed ==> req.None? && state == old(state)
      ensures old(state).role != Slave && licensed ==> state == Seeded(old(state), freshSeed, selfURL) && req == Some(PublicOf(state.seed))
      ensures old(state).role != Slave && licensed ==>
                state == if old(state).seed != "" then old(state) else old(state).(seed := freshSeed, selfURL := selfURL)
    {
      if !licensed || state.role == Slave {
        return None;
      }
      if state.seed == "" {
        state := state.(seed := freshSeed, selfURL := selfURL);
      }
      req := Some(PublicOf(state.seed));
    }

    /** The second half of AddNode: a node at the same address is replaced. */
    method FinishAdd(node: Node)
      modifies this
      ensures state == Added(old(state), node)
      ensures exists kept :: Picks(kept, old(state).nodes, (n: Node) => n.url != node.url) && state == old(state).(role := Master, nodes := kept + [node])
    {
      var kept := [];
      var nodes := state.nodes;
      for i := 0 to |nodes|
        invariant state == old(state)
        invariant kept == WithoutURL(nodes[..i], node.url)
      {
        assert nodes[..i + 1][..i] == nodes[..i];
        if nodes[i].url != node.url {
          kept := kept + [nodes[i]];
        }
      }
      assert nodes[..|nodes|] == nodes;
      WithoutURLPicks(nodes, node.url);
      state := state.(role := Master, nodes := kept + [node]);
    }

    method RemoveNode(id: string) returns (ok: bool)
      modifies this
      ensures ok <==> exists n :: n in old(state).nodes && n.id == id
      ensures state == if ok then Removed(old(state), id) else old(state)
      ensures ok ==>
                && Picks(state.nodes, old(state).nodes, (n: Node) => n.id != id)
                && state == old(state).(nodes := state.nodes, role := if state.nodes == [] then Standalone else old(state).role)
    {
      ok := FindNode(state.nodes, id).Some?;
      if !ok {
        return;
      }
      var kept := [];
      var nodes := state.nodes;
      for i := 0 to |nodes|
        invariant state == old(state)
        invariant kept == WithoutID(nodes[..i], id)
      {
        assert nodes[..i + 1][..i] == nodes[..i];
        if nodes[i].id != id {
          kept := kept + [nodes[i]];
        }
      }
      assert nodes[..|nodes|] == nodes;
      WithoutIDPicks(nodes, id);
      state := state.(nodes := kept);
      if |kept| == 0 {
        state := state.(role := Standalone);
      }
    }

    method Leave() returns (ok: bool)
      modifies this
      ensures ok == (old(state).role == Slave)
      ensures state == if ok then State(Standalone, "", "", [], "", "", "", "", NoKey, 0) else old(state)
    {
      ok := state.role == Slave;
      if ok {
        state := BLANK;
      }
    }

    /** The list that goes out with a promotion, None when it is refused before. licensed is
        this server's licence; ready says that the other one answers and has one too. */
    method BeginPromote(id: string, self: Node, licensed: bool, moveRunning: bool, ready: bool) returns (args: Option<PromoteArgs>)
      ensures args.Some? <==>
                && licensed && !moveRunning && ready
                && state.role == Master && state.nodes != [] && state.selfURL != ""
                && FindNode(state.nodes, id).Some? && !FindNode(state.nodes, id).value.paused
      ensures args.Some? ==> args.value == PromoteArgs(state.seed, FindNode(state.nodes, id).value.url, HandedOver(state, id, self))
      ensures args.Some? ==>
                && args.value.seed == state.seed && (exists n :: n in state.nodes && n.id == id && !n.paused && n.url == args.value.selfURL)
                && |args.value.nodes| > 0 && args.value.nodes[0] == self && Picks(args.value.nodes[1..], state.nodes, (n: Node) => n.id != id)
    {
      if state.role != Master || |state.nodes| == 0 || !licensed {
        return None;
      }
      var found := FindNode(state.nodes, id);
      if found.None? || found.value.paused {
        return None;
      }
      if moveRunning || !ready || state.selfURL == "" {
        return None;
      }
      var nodes := [self];
      for i := 0 to |state.nodes|
        invariant nodes == [self] + WithoutID(state.nodes[..i], id)
      {
        assert state.nodes[..i + 1][..i] == state.nodes[..i];
        if state.nodes[i].id != id {
          nodes := nodes + [state.nodes[i]];
        }
      }
      assert state.nodes[..|state.nodes|] == state.nodes;
      WithoutIDPicks(state.nodes, id);
      args := Some(PromoteArgs(state.seed, found.value.url, nodes));
    }

    method FinishPromote(n: Node, self: Node, handed: nat)
      requires handed == |HandedOver(state, n.id, self)|
      modifies this
      ensures state == Demoted(old(state), n, self)
      ensures state == State(Slave, "", "", [], self.id, self.secret, n.name, n.url, PublicOf(old(state).seed), handed + 1)
    {
      state := State(Slave, "", "", [], self.id, self.secret, n.name, n.url, PublicOf(state.seed), handed + 1);
    }

    method AcceptPromotion(args: PromoteArgs, licensed: bool) returns (ok: bool)
      modifies this
      ensures ok <==> args.seed != "" && args.selfURL != "" && licensed && old(state).role == Slave
      ensures state == if ok then Promoted(args) else old(state)
      ensures ok ==> state == State(Master, args.seed, args.selfURL, args.nodes, "", "", "", "", NoKey, 0)
    {
      if args.seed == "" || args.selfURL == "" || !licensed || state.role != Slave {
        return false;
      }
      state := State(Master, args.seed, args.selfURL, args.nodes, "", "", "", "", NoKey, 0);
      ok := true;
    }

    method ApplyStatusArgs(a: StatusArgs)
      modifies this
      ensures state == Informed(old(state), a)
      ensures state == if old(state).role == Slave && a.masterURL != ""
                       then old(state).(clusterSize := a.clusterSize, masterURL := a.masterURL, masterName := a.masterName) else old(state)
    {
      if a.masterURL == "" || state.role != Slave {
        return;
      }
      state := state.(clusterSize := a.clusterSize, masterURL := a.masterURL, masterName := a.masterName);
    }
  }

  /** A completed promotion keeps the cluster count on both servers exactly when the
      promoted id was listed once. */
  lemma PromotionKeepsCount(st: State, n: Node, self: Node, selfURL: string)
    requires st.role == Master && n in st.nodes
    ensures var after := Promoted(PromoteArgs(st.seed, selfURL, HandedOver(st, n.id, self)));
            && ClusterCount(after) == ClusterCount(Demoted(st, n, self))
            && (ClusterCount(after) == ClusterCount(st) <==> CountID(st.nodes, n.id) == 1)
    ensures Demoted(st, n, self).clusterSize == 2 + |st.nodes| - CountID(st.nodes, n.id)
  {
    WithoutIDIs(st.nodes, n.id);
  }

  /** What a server shows as the size of its cluster: a slave the size its master last
      told it, and 1 as long as it was told none; a server outside a cluster 1. */
  lemma CountShown(st: State, a: StatusArgs)
    ensures st.role == Slave && a.masterURL != "" ==>
            ClusterCount(Informed(st, a)) == if a.clusterSize == 0 then 1 else a.clusterSize
    ensures ClusterCount(BLANK) == 1
    ensures st.role == Master ==> ClusterCount(st) == |st.nodes| + 1
  {
  }
}
