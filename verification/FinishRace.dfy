/** internal/cluster/move.go: finishMove reads the job, deletes one copy and then saves
    the status, without a lock around the three. What several calls on one job do. */
module FinishRace {
  import opened Moves

  datatype Phase = Called | Checked | Deleted | Saved | Refused

  /** One call: FinalizeMove deletes the source copy, CancelMove the destination copy. */
  datatype Call = Call(finalize: bool, phase: Phase)

  datatype Race = Race(status: Status, onFrom: bool, onTo: bool, calls: seq<Call>)

  function SetPhase(r: Race, n: nat, p: Phase): Race
    requires n < |r.calls|
  {
    r.(calls := r.calls[n := r.calls[n].(phase := p)])
  }

  predicate CheckStep(r: Race, n: nat, r': Race) {
    && n < |r.calls| && r.calls[n].phase == Called
    && r' == SetPhase(r, n, if r.status == Copied then Checked else Refused)
  }

  predicate DeleteStep(r: Race, n: nat, r': Race) {
    && n < |r.calls| && r.calls[n].phase == Checked
    && r' == if r.calls[n].finalize then SetPhase(r, n, Deleted).(onFrom := false) else SetPhase(r, n, Deleted).(onTo := false)
  }

  predicate SaveStep(r: Race, n: nat, r': Race) {
    && n < |r.calls| && r.calls[n].phase == Deleted
    && r' == SetPhase(r, n, Saved).(status := if r.calls[n].finalize then Finalized else Cancelled)
  }

  ghost predicate Next(r: Race, r': Race) {
    exists n: nat :: CheckStep(r, n, r') || DeleteStep(r, n, r') || SaveStep(r, n, r')
  }

  predicate Init(r: Race) {
    r.status == Copied && r.onFrom && r.onTo && forall n | 0 <= n < |r.calls| :: r.calls[n].phase == Called
  }

  ghost predicate Run(trace: seq<Race>) {
    && trace != [] && Init(trace[0])
    && forall i | 0 <= i < |trace| - 1 :: Next(trace[i], trace[i + 1])
  }

  predicate HasDeleted(c: Call) {
    c.phase == Deleted || c.phase == Saved
  }

  predicate Busy(c: Call) {
    c.phase == Checked || c.phase == Deleted
  }

  predicate Past(c: Call) {
    Busy(c) || c.phase == Saved
  }

  predicate SomeDeleted(r: Race, finalize: bool) {
    exists n :: 0 <= n < |r.calls| && r.calls[n].finalize == finalize && HasDeleted(r.calls[n])
  }

  predicate CopiesMatch(r: Race) {
    && (r.onFrom <==> !SomeDeleted(r, true))
    && (r.onTo <==> !SomeDeleted(r, false))
  }

  lemma DeletedAfter(r: Race, n: nat, p: Phase, finalize: bool)
    requires n < |r.calls| && (HasDeleted(r.calls[n]) ==> p == Saved)
    ensures SomeDeleted(SetPhase(r, n, p), finalize) <==>
            SomeDeleted(r, finalize) || (r.calls[n].finalize == finalize && (p == Deleted || p == Saved))
  {
    var r' := SetPhase(r, n, p);
    if SomeDeleted(r, finalize) {
      var k :| 0 <= k < |r.calls| && r.calls[k].finalize == finalize && HasDeleted(r.calls[k]);
      assert HasDeleted(r'.calls[k]);
    }
    if r.calls[n].finalize == finalize && (p == Deleted || p == Saved) {
      assert HasDeleted(r'.calls[n]);
    }
    if SomeDeleted(r', finalize) {
      var k :| 0 <= k < |r'.calls| && r'.calls[k].finalize == finalize && HasDeleted(r'.calls[k]);
      if k != n {
        assert HasDeleted(r.calls[k]);
      }
    }
  }

  lemma NextMatches(r: Race, r': Race)
    requires CopiesMatch(r) && Next(r, r')
    ensures CopiesMatch(r')
  {
    hide SomeDeleted;
    var n: nat :| CheckStep(r, n, r') || DeleteStep(r, n, r') || SaveStep(r, n, r');
    var p := r'.calls[n].phase;
    DeletedAfter(r, n, p, true);
    DeletedAfter(r, n, p, false);
    SameCalls(r', SetPhase(r, n, p));
    if SaveStep(r, n, r') {
      Already(r, n);
    }
  }

  lemma SameCalls(a: Race, b: Race)
    requires a.calls == b.calls
    ensures SomeDeleted(a, true) == SomeDeleted(b, true) && SomeDeleted(a, false) == SomeDeleted(b, false)
  {
  }

  lemma Already(r: Race, n: nat)
    requires n < |r.calls| && HasDeleted(r.calls[n])
    ensures SomeDeleted(r, r.calls[n].finalize)
  {
  }

  lemma {:induction false} RunMatches(trace: seq<Race>, i: nat)
    requires Run(trace) && i < |trace|
    ensures CopiesMatch(trace[i])
  {
    hide Next;
    if i > 0 {
      RunMatches(trace, i - 1);
      assert Next(trace[i - 1], trace[i - 1 + 1]);
      NextMatches(trace[i - 1], trace[i]);
    }
  }

  /** A copy is missing exactly when a call has deleted it. */
  lemma LostExactlyWhenBothDeleted(trace: seq<Race>, i: nat)
    requires Run(trace) && i < |trace|
    ensures IsLost(trace[i]) <==> SomeDeleted(trace[i], true) && SomeDeleted(trace[i], false)
  {
    hide Run, SomeDeleted;
    RunMatches(trace, i);
  }

  predicate IsLost(r: Race) {
    !r.onFrom && !r.onTo
  }

  // Which calls can lose the account

  /** Both kinds of calls are made. */
  predicate Mixed(r: Race) {
    exists n, k :: 0 <= n < |r.calls| && 0 <= k < |r.calls| && r.calls[n].finalize && !r.calls[k].finalize
  }

  predicate SameKinds(a: Race, b: Race) {
    |a.calls| == |b.calls| && forall n | 0 <= n < |a.calls| :: a.calls[n].finalize == b.calls[n].finalize
  }

  lemma {:induction false} KindsStay(trace: seq<Race>, i: nat)
    requires Run(trace) && i < |trace|
    ensures SameKinds(trace[0], trace[i])
  {
    if i > 0 {
      KindsStay(trace, i - 1);
      assert Next(trace[i - 1], trace[i - 1 + 1]);
    }
  }

  ghost predicate CanLose(r: Race) {
    exists trace: seq<Race> :: LosingRun(trace, r)
  }

  ghost predicate LosingRun(trace: seq<Race>, r: Race) {
    Run(trace) && trace[0] == r && IsLost(trace[|trace| - 1])
  }

  /** A job that was copied can lose its account in some interleaving of the calls that
      are made exactly when both kinds of calls are made. */
  lemma CallsCanLoseExactly(r: Race)
    requires Init(r)
    ensures CanLose(r) <==> Mixed(r)
  {
    hide Run, Init, CopiesMatch;
    if trace: seq<Race> :| LosingRun(trace, r) {
      var i := |trace| - 1;
      RunNotEmpty(trace);
      LostExactlyWhenBothDeleted(trace, i);
      KindsStay(trace, i);
      var n: nat :| n < |trace[i].calls| && trace[i].calls[n].finalize == true && HasDeleted(trace[i].calls[n]);
      var k: nat :| k < |trace[i].calls| && trace[i].calls[k].finalize == false && HasDeleted(trace[i].calls[k]);
      assert r.calls[n].finalize && !r.calls[k].finalize;
    }
    if n, k :| 0 <= n < |r.calls| && 0 <= k < |r.calls| && r.calls[n].finalize && !r.calls[k].finalize {
      var trace := OverlapLoses(r, n, k);
      assert LosingRun(trace, r);
    }
  }

  lemma RunNotEmpty(trace: seq<Race>)
    requires Run(trace)
    ensures trace != []
  {
  }

  /** A finalize and a cancel that overlap lose the account: both read the status before
      either of them deletes. */
  lemma OverlapLoses(r0: Race, n: nat, k: nat) returns (trace: seq<Race>)
    requires Init(r0) && n < |r0.calls| && k < |r0.calls| && r0.calls[n].finalize && !r0.calls[k].finalize
    ensures LosingRun(trace, r0)
  {
    var r1 := SetPhase(r0, n, Checked);
    var r2 := SetPhase(r1, k, Checked);
    var r3 := SetPhase(r2, n, Deleted).(onFrom := false);
    var r4 := SetPhase(r3, k, Deleted).(onTo := false);
    trace := [r0, r1, r2, r3, r4];
    assert CheckStep(r0, n, r1) && CheckStep(r1, k, r2) && DeleteStep(r2, n, r3) && DeleteStep(r3, k, r4);
    assert Next(r0, r1) && Next(r1, r2) && Next(r2, r3) && Next(r3, r4);
  }

  // Which of them passed the status check

  /** The check of call n, at step i, found the job copied. */
  predicate PassesAt(trace: seq<Race>, i: nat, n: nat)
    requires i + 1 < |trace|
  {
    CheckStep(trace[i], n, trace[i + 1]) && trace[i].status == Copied
  }

  ghost predicate Passed(trace: seq<Race>, end: nat, n: nat)
    requires end < |trace|
  {
    exists i: nat :: i < end && PassesAt(trace, i, n)
  }

  lemma NextPhase(r: Race, r': Race, n: nat)
    requires Next(r, r') && n < |r.calls|
    ensures |r'.calls| == |r.calls|
    ensures CheckStep(r, n, r') || (Past(r'.calls[n]) <==> Past(r.calls[n]))
  {
  }

  lemma PassedSnoc(trace: seq<Race>, i: nat, n: nat)
    requires i + 1 < |trace|
    ensures Passed(trace, i + 1, n) <==> Passed(trace, i, n) || PassesAt(trace, i, n)
  {
    hide CheckStep;
  }

  lemma {:induction false} PassedIs(trace: seq<Race>, i: nat, n: nat)
    requires Run(trace) && i < |trace| && n < |trace[0].calls|
    ensures |trace[i].calls| == |trace[0].calls|
    ensures Past(trace[i].calls[n]) <==> Passed(trace, i, n)
  {
    hide Passed, Next;
    if i == 0 {
      NonePassed(trace, n);
    } else {
      PassedIs(trace, i - 1, n);
      assert Next(trace[i - 1], trace[i - 1 + 1]);
      NextPhase(trace[i - 1], trace[i], n);
      PassedSnoc(trace, i - 1, n);
    }
  }

  lemma NonePassed(trace: seq<Race>, n: nat)
    requires trace != []
    ensures !Passed(trace, 0, n)
  {
  }

  /** No call is under way. */
  predicate AllSettled(r: Race) {
    forall n | 0 <= n < |r.calls| :: r.calls[n].phase == Saved || r.calls[n].phase == Refused
  }

  /** Once every call has ended, the account is lost exactly when the status checks let a
      finalize and a cancel through. */
  lemma SettledLossExactly(trace: seq<Race>, i: nat)
    requires Run(trace) && i < |trace| && AllSettled(trace[i])
    ensures IsLost(trace[i]) <==>
            exists n: nat, k: nat :: n < |trace[0].calls| && k < |trace[0].calls| && trace[0].calls[n].finalize && !trace[0].calls[k].finalize
                         && Passed(trace, i, n) && Passed(trace, i, k)
  {
    hide Run, Passed, CopiesMatch;
    LostExactlyWhenBothDeleted(trace, i);
    KindsStay(trace, i);
    forall n: nat | n < |trace[0].calls|
      ensures HasDeleted(trace[i].calls[n]) <==> Passed(trace, i, n)
    {
      PassedIs(trace, i, n);
    }
  }

  // Calls run to completion one at a time

  predicate OneAtATime(r: Race) {
    forall n, k | 0 <= n < |r.calls| && 0 <= k < |r.calls| && Busy(r.calls[n]) && Busy(r.calls[k]) :: n == k
  }

  /** The one call that got past the status check, -1 for none. Once it saved, the
      status tells what it was. */
  predicate Winner(r: Race, w: int) {
    && -1 <= w < |r.calls|
    && (forall n | 0 <= n < |r.calls| && n != w :: !Past(r.calls[n]))
    && (w >= 0 ==> Past(r.calls[w]))
    && r.status == if w < 0 || r.calls[w].phase != Saved then Copied else if r.calls[w].finalize then Finalized else Cancelled
  }

  lemma NextWinner(r: Race, r': Race, w: int) returns (w': int)
    requires Winner(r, w) && Next(r, r') && OneAtATime(r')
    ensures Winner(r', w')
  {
    var n: nat :| CheckStep(r, n, r') || DeleteStep(r, n, r') || SaveStep(r, n, r');
    assert forall k | 0 <= k < |r.calls| && k != n :: r'.calls[k] == r.calls[k];
    if CheckStep(r, n, r') && r.status == Copied {
      assert Busy(r'.calls[n]);
      assert w >= 0 ==> Busy(r'.calls[w]);
      w' := n;
    } else {
      assert !CheckStep(r, n, r') ==> Past(r.calls[n]);
      w' := w;
    }
  }

  lemma {:induction false} SerialWinner(trace: seq<Race>, i: nat) returns (w: int)
    requires Run(trace) && i < |trace|
    requires forall k | 0 <= k <= i :: OneAtATime(trace[k])
    ensures Winner(trace[i], w)
  {
    hide Next, OneAtATime;
    if i == 0 {
      w := -1;
    } else {
      var before := SerialWinner(trace, i - 1);
      assert Next(trace[i - 1], trace[i - 1 + 1]);
      w := NextWinner(trace[i - 1], trace[i], before);
    }
  }

  /** When no two calls overlap, the account survives, and a saved status says where:
      finalized on the destination only, cancelled on the source only. */
  lemma SerialCallsAreSafe(trace: seq<Race>, i: nat)
    requires Run(trace) && i < |trace|
    requires forall k | 0 <= k <= i :: OneAtATime(trace[k])
    ensures trace[i].onFrom || trace[i].onTo
    ensures trace[i].status == Finalized ==> trace[i].onTo && !trace[i].onFrom
    ensures trace[i].status == Cancelled ==> trace[i].onFrom && !trace[i].onTo
  {
    hide Run, OneAtATime;
    RunMatches(trace, i);
    var w := SerialWinner(trace, i);
    assert forall c :: HasDeleted(c) ==> Past(c);
  }
}
