/** internal/cluster: handleJoin does not ask whether the server is waiting for the answer
    to an addNode of its own. When the cluster keeps its trust although joins come at any
    time. */
module JoinRace {
  import opened Text
  import opened Membership
  import opened Protocol

  ghost predicate NextAnyJoin(sys: System, sys': System) {
    (exists call, freshID, freshSecret :: AnyJoinStep(sys, call, freshID, freshSecret, sys')) || NextButJoin(sys, sys')
  }

  ghost predicate RunAnyJoin(trace: seq<System>) {
    && trace != [] && Init(trace[0])
    && forall i | 0 <= i < |trace| - 1 :: NextAnyJoin(trace[i], trace[i + 1])
  }

  /** Every listed id was issued for the key its lister signs with. */
  ghost predicate Trusting(sys: System) {
    forall m | m in sys.servers :: NodesOk(sys.issued, sys.servers[m].nodes, sys.servers[m].seed)
  }

  lemma SoundIsTrusting(sys: System)
    requires Sound(sys)
    ensures Trusting(sys)
  {
  }

  lemma NextAnyJoinKeeps(sys: System, sys': System)
    requires Sound(sys) && NextAnyJoin(sys, sys') && !Mismatch(sys, sys')
    ensures Sound(sys')
  {
    hide Sound, NextButJoin, AnyJoinStep, Mismatch;
    if call, freshID, freshSecret :| AnyJoinStep(sys, call, freshID, freshSecret, sys') {
      JoinKeeps(sys, call, freshID, freshSecret, sys');
    } else {
      NextButJoinKeeps(sys, sys');
    }
  }

  // Exactly when the trust is kept

  /** Step i does not use an answer under another key than the one it was given for. */
  ghost predicate AllMatch(trace: seq<System>, end: nat)
    requires end < |trace|
  {
    forall i | 0 <= i < end :: !Mismatch(trace[i], trace[i + 1])
  }

  lemma {:induction false} MatchingRunIsSound(trace: seq<System>, i: nat)
    requires RunAnyJoin(trace) && i < |trace| && AllMatch(trace, i)
    ensures Sound(trace[i])
  {
    hide Sound, NextAnyJoin, Mismatch, Init;
    if i == 0 {
      InitInv(trace[0]);
      InvIsSound(trace[0]);
    } else {
      MatchingRunIsSound(trace, i - 1);
      assert NextAnyJoin(trace[i - 1], trace[i - 1 + 1]);
      assert !Mismatch(trace[i - 1], trace[i - 1 + 1]);
      NextAnyJoinKeeps(trace[i - 1], trace[i]);
    }
  }

  lemma InvIsSound(sys: System)
    requires Inv(sys)
    ensures Sound(sys)
  {
    hide Sound;
  }

  /** A mismatch lists an id under a foreign key, and the slave that holds the id rejects
      the calls of its lister. */
  lemma MismatchBreaks(sys: System, sys': System) returns (m: ServerId, n: Node)
    requires Sound(sys) && Mismatch(sys, sys')
    ensures m in sys'.servers && n in sys'.servers[m].nodes && !IssuedFor(sys'.issued, n.id, PublicOf(sys'.servers[m].seed))
    ensures !Trusting(sys')
    ensures forall s | s in sys.servers && s != m && sys.servers[s].role == Slave && sys.servers[s].nodeID == n.id ::
              !Verifies(sys'.servers[s], Sign(sys'.servers[m], n.id))
  {
    hide Sound;
    var k, answer, name :| FinishAddStep(sys, k, answer, name, sys') && sys.pending[k].req.masterPub != PublicOf(sys.servers[k].seed);
    m, n := k, Node(answer.id, name, sys.pending[k].url, answer.secret, false);
    MessageParts(sys, answer);
    assert n in sys'.servers[m].nodes;
    forall s | s in sys.servers && s != m && sys.servers[s].role == Slave && sys.servers[s].nodeID == n.id
      ensures !Verifies(sys'.servers[s], Sign(sys'.servers[m], n.id))
    {
      InvParts(sys, s);
    }
  }

  lemma {:induction false} FirstMismatch(trace: seq<System>, end: nat) returns (i: nat)
    requires end < |trace| && !AllMatch(trace, end)
    ensures i < end && Mismatch(trace[i], trace[i + 1]) && AllMatch(trace, i)
    decreases end
  {
    hide Mismatch;
    if AllMatch(trace, end - 1) {
      i := end - 1;
    } else {
      i := FirstMismatch(trace, end - 1);
    }
  }

  /** With joins at any time, every list names ids issued for its owner's key in every
      state of a run, exactly when no server uses the answer to an add under another key
      than the one it sent. */
  lemma TrustKeptExactly(trace: seq<System>)
    requires RunAnyJoin(trace)
    ensures (forall i | 0 <= i < |trace| :: Trusting(trace[i])) <==> AllMatch(trace, |trace| - 1)
  {
    hide Trusting, NextAnyJoin, Mismatch, Sound, Init;
    if AllMatch(trace, |trace| - 1) {
      forall i | 0 <= i < |trace|
        ensures Trusting(trace[i])
      {
        MatchingRunIsSound(trace, i);
        SoundIsTrusting(trace[i]);
      }
    } else {
      var i := FirstMismatch(trace, |trace| - 1);
      MatchingRunIsSound(trace, i);
      var m, n := MismatchBreaks(trace[i], trace[i + 1]);
    }
  }

  /** As long as they match, a listed slave accepts every call of its lister. */
  lemma MatchingRunIsTrusted(trace: seq<System>, i: nat, m: ServerId, n: Node, s: ServerId)
    requires RunAnyJoin(trace) && i < |trace| && AllMatch(trace, i)
    requires m in trace[i].servers && n in trace[i].servers[m].nodes
    requires s in trace[i].servers && trace[i].servers[s].role == Slave && trace[i].servers[s].nodeID == n.id
    ensures Verifies(trace[i].servers[s], Sign(trace[i].servers[m], n.id))
  {
    hide RunAnyJoin, Sound, AllMatch;
    MatchingRunIsSound(trace, i);
    InvParts(trace[i], m);
    InvParts(trace[i], s);
  }

  // Joins that hit a server with an add under way

  predicate WaitsAt(trace: seq<System>, i: nat, m: ServerId)
    requires i < |trace|
  {
    m in trace[i].servers && m in trace[i].pending && trace[i].pending[m].Adding?
  }

  ghost predicate JoinHits(trace: seq<System>, i: nat, m: ServerId)
    requires i + 1 < |trace|
  {
    WaitsAt(trace, i, m) && IsJoinOf(trace[i], m, trace[i + 1])
  }

  ghost predicate IsJoinOf(sys: System, m: ServerId, sys': System) {
    exists call, freshID, freshSecret :: AnyJoinStep(sys, call, freshID, freshSecret, sys') && call.to == m
  }

  ghost predicate AddFinishes(trace: seq<System>, i: nat, m: ServerId)
    requires i + 1 < |trace|
  {
    IsFinishOf(trace[i], m, trace[i + 1])
  }

  ghost predicate IsFinishOf(sys: System, m: ServerId, sys': System) {
    exists answer, name :: FinishAddStep(sys, m, answer, name, sys')
  }

  /** The add that m waits for at i was already under way when a join hit m. */
  ghost predicate HitBefore(trace: seq<System>, i: nat, m: ServerId)
    requires i < |trace|
  {
    exists j: nat :: j < i && JoinHits(trace, j, m) && forall k | j < k <= i :: WaitsAt(trace, k, m)
  }

  /** No add is finished after a join hit the server while it was under way. */
  ghost predicate NoHitAddFinishes(trace: seq<System>) {
    forall i, m | 0 <= i < |trace| - 1 && AddFinishes(trace, i, m) :: !HitBefore(trace, i, m)
  }

  ghost predicate CleanOrHit(trace: seq<System>, i: nat)
    requires i < |trace|
  {
    forall m | WaitsAt(trace, i, m) :: CleanAt(trace[i], m) || HitBefore(trace, i, m)
  }

  lemma HitStays(trace: seq<System>, i: nat, m: ServerId)
    requires i + 1 < |trace| && HitBefore(trace, i, m) && WaitsAt(trace, i + 1, m)
    ensures HitBefore(trace, i + 1, m)
  {
    hide JoinHits, WaitsAt;
    var j: nat :| j < i && JoinHits(trace, j, m) && forall k | j < k <= i :: WaitsAt(trace, k, m);
    assert forall k | j < k <= i + 1 :: WaitsAt(trace, k, m);
  }

  lemma HitNow(trace: seq<System>, i: nat, m: ServerId)
    requires i + 1 < |trace| && JoinHits(trace, i, m) && WaitsAt(trace, i + 1, m)
    ensures HitBefore(trace, i + 1, m)
  {
    hide JoinHits, WaitsAt;
  }

  lemma CleanStep(trace: seq<System>, i: nat, m: ServerId)
    requires i + 1 < |trace| && WellTyped(trace[i]) && NextAnyJoin(trace[i], trace[i + 1])
    requires m in trace[i].servers && CleanAt(trace[i], m)
    ensures m in trace[i + 1].servers && m in trace[i + 1].pending
    ensures CleanAt(trace[i + 1], m) || JoinHits(trace, i, m)
  {
    hide NextButJoin, AnyJoinStep;
    var sys, sys' := trace[i], trace[i + 1];
    if call, freshID, freshSecret :| AnyJoinStep(sys, call, freshID, freshSecret, sys') {
      JoinClean(sys, call, freshID, freshSecret, sys');
      JoinCallIs(sys, call, freshID, freshSecret, sys');
      if call.to == m && sys.pending[m].Adding? {
        assert JoinHits(trace, i, m);
      }
    } else {
      NextButJoinClean(sys, sys');
    }
  }

  lemma JoinCallIs(sys: System, call: Message, freshID: string, freshSecret: string, sys': System)
    requires AnyJoinStep(sys, call, freshID, freshSecret, sys')
    ensures call.JoinCall?
  {
  }

  lemma HitAddsMatch(trace: seq<System>, i: nat)
    requires i + 1 < |trace| && NoHitAddFinishes(trace) && CleanOrHit(trace, i)
    ensures !Mismatch(trace[i], trace[i + 1])
  {
    hide HitBefore;
    var sys, sys' := trace[i], trace[i + 1];
    forall m, answer, name | FinishAddStep(sys, m, answer, name, sys')
      ensures sys.pending[m].req.masterPub == PublicOf(sys.servers[m].seed)
    {
      assert IsFinishOf(sys, m, sys');
      assert AddFinishes(trace, i, m);
      assert WaitsAt(trace, i, m);
    }
  }

  lemma WasThere(sys: System, sys': System)
    requires WellTyped(sys) && NextAnyJoin(sys, sys')
    ensures sys'.servers.Keys == sys.servers.Keys
  {
    hide NextButJoin, AnyJoinStep, CleanAt;
    if call, freshID, freshSecret :| AnyJoinStep(sys, call, freshID, freshSecret, sys') {
      JoinClean(sys, call, freshID, freshSecret, sys');
    } else {
      NextButJoinClean(sys, sys');
    }
  }

  lemma CleanOrHitNext(trace: seq<System>, i: nat)
    requires i + 1 < |trace| && WellTyped(trace[i]) && NextAnyJoin(trace[i], trace[i + 1]) && CleanOrHit(trace, i)
    ensures CleanOrHit(trace, i + 1)
  {
    hide HitBefore, NextAnyJoin, JoinHits;
    WasThere(trace[i], trace[i + 1]);
    var j := i + 1;
    forall m | WaitsAt(trace, j, m)
      ensures CleanAt(trace[j], m) || HitBefore(trace, j, m)
    {
      if CleanAt(trace[i], m) {
        CleanStep(trace, i, m);
        if JoinHits(trace, i, m) {
          HitNow(trace, i, m);
        }
      } else {
        assert WaitsAt(trace, i, m);
        HitStays(trace, i, m);
      }
    }
  }

  lemma {:induction false} UnhitAddsMatch(trace: seq<System>, i: nat)
    requires RunAnyJoin(trace) && NoHitAddFinishes(trace) && i < |trace|
    ensures AllMatch(trace, i) && CleanOrHit(trace, i)
  {
    hide NextAnyJoin, Mismatch, CleanOrHit, NoHitAddFinishes, Init, Sound;
    if i == 0 {
      StartIsClean(trace);
    } else {
      UnhitAddsMatch(trace, i - 1);
      MatchingRunIsSound(trace, i - 1);
      SoundIsTyped(trace[i - 1]);
      assert NextAnyJoin(trace[i - 1], trace[i - 1 + 1]);
      HitAddsMatch(trace, i - 1);
      CleanOrHitNext(trace, i - 1);
    }
  }

  lemma StartIsClean(trace: seq<System>)
    requires trace != [] && Init(trace[0])
    ensures CleanOrHit(trace, 0)
  {
  }

  /** Trust is kept over a whole run, joins at any time, as long as no server finishes an
      add during which it was itself joined. */
  lemma UnhitAddsKeepTrust(trace: seq<System>, i: nat)
    requires RunAnyJoin(trace) && NoHitAddFinishes(trace) && i < |trace|
    ensures Trusting(trace[i])
  {
    hide RunAnyJoin, NoHitAddFinishes, Trusting, Sound, AllMatch, CleanOrHit;
    UnhitAddsMatch(trace, i);
    MatchingRunIsSound(trace, i);
    SoundIsTrusting(trace[i]);
  }

  // A run that loses it

  const REQ_A := JoinRequest("https://a", "a", PublicOf("A"))
  const REQ_C := JoinRequest("https://c", "c", PublicOf("C"))
  const A0 := BLANK.(seed := "A", selfURL := "https://a")
  const C0 := BLANK.(seed := "C", selfURL := "https://c")

  /** Server 0 adds server 1, which joins and answers; server 2 adds server 0, which joins
      as well; then server 0 uses the answer of server 1. */
  const S0 := System(map[0 := BLANK, 1 := BLANK, 2 := BLANK], map[0 := Idle, 1 := Idle, 2 := Idle], {}, map[])
  const S1 := SetPending(Send(SetState(S0, 0, A0), JoinCall(1, REQ_A)), 0, Adding(REQ_A, "https://b"))
  const S2 := Send(SetState(S1, 1, Joined(BLANK, REQ_A, "i", "x")), JoinAnswer(REQ_A, "i", "x")).(issued := map["i" := Issue(1, PublicOf("A"))])
  const S3 := SetPending(Send(SetState(S2, 2, C0), JoinCall(0, REQ_C)), 2, Adding(REQ_C, "https://a"))
  const S4 := Send(SetState(S3, 0, Joined(A0, REQ_C, "k", "y")), JoinAnswer(REQ_C, "k", "y")).(issued := S3.issued["k" := Issue(0, PublicOf("C"))])
  const S5 := SetPending(SetState(S4, 0, Added(Joined(A0, REQ_C, "k", "y"), Node("i", "b", "https://b", "x", false))), 0, Idle)

  lemma FirstSteps()
    ensures Init(S0) && NextAnyJoin(S0, S1) && NextAnyJoin(S1, S2)
  {
    assert BeginAddStep(S0, 0, 1, "https://b", "A", "https://a", "a", S1);
    assert AnyJoinStep(S1, JoinCall(1, REQ_A), "i", "x", S2);
  }

  lemma LaterSteps()
    ensures NextAnyJoin(S2, S3) && NextAnyJoin(S3, S4) && IsJoinOf(S3, 0, S4)
    ensures 0 in S3.servers && 0 in S3.pending && S3.pending[0].Adding?
  {
    assert BeginAddStep(S2, 2, 0, "https://a", "C", "https://c", "c", S3);
    assert AnyJoinStep(S3, JoinCall(0, REQ_C), "k", "y", S4);
  }

  lemma LastStep()
    ensures NextAnyJoin(S4, S5) && IsFinishOf(S4, 0, S5)
    ensures 0 in S4.servers && 0 in S4.pending && S4.pending[0].Adding?
  {
    assert FinishAddStep(S4, 0, JoinAnswer(REQ_A, "i", "x"), "b", S5);
  }

  lemma EndState()
    ensures S5.servers.Keys == {0, 1, 2}
    ensures S5.servers[1].role == Slave && S5.servers[1].nodeID == "i" && S5.servers[1].masterPub == PublicOf("A")
    ensures S5.servers[0].role == Master && S5.servers[0].seed == "" && Node("i", "b", "https://b", "x", false) in S5.servers[0].nodes
    ensures "i" in S5.issued && S5.issued["i"] == Issue(1, PublicOf("A"))
  {
  }

  /** A run from blank servers in which a join hits an add under way: at its end server 0
      lists server 1, which rejects its calls. */
  lemma JoinWhileAddingBreaks() returns (trace: seq<System>)
    ensures RunAnyJoin(trace) && !NoHitAddFinishes(trace)
    ensures var end := trace[|trace| - 1];
            && 0 in end.servers && 1 in end.servers && end.servers[1].role == Slave
            && (exists n :: n in end.servers[0].nodes && n.id == end.servers[1].nodeID)
            && !Verifies(end.servers[1], Sign(end.servers[0], end.servers[1].nodeID))
            && !Trusting(end)
  {
    hide RunAnyJoin, NoHitAddFinishes;
    EndState();
    trace := [S0, S1, S2, S3, S4, S5];
    BreakingRun(trace);
    assert !IssuedFor(S5.issued, "i", PublicOf(S5.servers[0].seed));
  }

  lemma BreakingRun(trace: seq<System>)
    requires trace == [S0, S1, S2, S3, S4, S5]
    ensures RunAnyJoin(trace) && !NoHitAddFinishes(trace)
  {
    hide Init, NextAnyJoin, IsJoinOf, IsFinishOf, NoHitAddFinishes;
    FirstSteps();
    LaterSteps();
    LastStep();
    LateFinish(trace);
  }

  lemma LateFinish(trace: seq<System>)
    requires |trace| == 6 && WaitsAt(trace, 3, 0) && WaitsAt(trace, 4, 0)
    requires IsJoinOf(trace[3], 0, trace[4]) && IsFinishOf(trace[4], 0, trace[5])
    ensures !NoHitAddFinishes(trace)
  {
    hide WaitsAt, IsJoinOf, IsFinishOf;
    assert JoinHits(trace, 3, 0) && AddFinishes(trace, 4, 0);
    assert HitBefore(trace, 4, 0);
  }
}