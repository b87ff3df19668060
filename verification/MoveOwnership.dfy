/** internal/cluster/move.go: which copies of an account a move may delete. */
module MoveOwnership {
  import opened Text
  import opened AuthorizedKeys
  import opened Moves
  import opened MoveSafety

  /** The two entries stand for the same move. */
  predicate IsSameMove(a: Job, b: Job) {
    a.id == b.id && a.account == b.account && a.from == b.from && a.to == b.to
  }

  // Every job on the list was started

  ghost predicate WasStarted(trace: seq<System>, n: nat, j: Job)
    requires n < |trace|
  {
    exists s: nat :: s < n && StartedAt(trace, s, j)
  }

  ghost predicate StartedAt(trace: seq<System>, s: nat, j: Job)
    requires s + 1 < |trace|
  {
    Starts(trace[s], trace[s + 1], j)
  }

  ghost predicate Starts(sys: System, sys': System, j: Job) {
    exists job :: StartStep(sys, job, sys') && IsSameMove(job, j)
  }

  lemma StillStarted(trace: seq<System>, n: nat, a: Job, b: Job)
    requires n + 1 < |trace| && WasStarted(trace, n, a) && IsSameMove(a, b)
    ensures WasStarted(trace, n + 1, b)
  {
    hide StartStep;
    var s: nat :| s < n && StartedAt(trace, s, a);
    var job :| StartStep(trace[s], job, trace[s + 1]) && IsSameMove(job, a);
    assert IsSameMove(job, b);
    assert StartedAt(trace, s, b);
  }

  lemma JustStarted(trace: seq<System>, n: nat, job: Job)
    requires n + 1 < |trace| && StartStep(trace[n], job, trace[n + 1])
    ensures WasStarted(trace, n + 1, job)
  {
    hide StartStep;
    assert IsSameMove(job, job);
    assert StartedAt(trace, n, job);
  }

  /** What a step leaves on the list was there before, or is the job it starts. */
  lemma ListAfter(sys: System, sys': System, k: nat)
    requires Next(sys, sys') && k < |sys'.jobs|
    ensures (exists i :: 0 <= i < |sys.jobs| && IsSameMove(sys.jobs[i], sys'.jobs[k]))
            || exists job :: StartStep(sys, job, sys') && job == sys'.jobs[k]
  {
    hide StartStep, Rewrites, Quiet, CopyStep, EndStep, CleanUpStep, FinishStep;
    if job :| StartStep(sys, job, sys') {
      AfterStart(sys, job, sys', k);
    } else {
      OtherSteps(sys, sys');
      ListRewritten(sys, sys');
      if sys'.jobs != sys.jobs {
        var j, id, status :| Rewrites(sys, j, id, status, sys');
        AfterRewrite(sys, j, id, status, sys', k);
      } else {
        assert IsSameMove(sys.jobs[k], sys'.jobs[k]);
      }
    }
  }

  lemma OtherSteps(sys: System, sys': System)
    requires Next(sys, sys') && !exists job :: StartStep(sys, job, sys')
    ensures Quiet(sys, sys') || (exists id :: CopyStep(sys, id, sys')) || (exists id, rc :: EndStep(sys, id, rc, sys'))
            || (exists i, id, revoked :: CleanUpStep(sys, i, id, revoked, sys'))
            || (exists i, id, deleteFromSource :: FinishStep(sys, i, id, deleteFromSource, sys'))
  {
    hide StartStep, FailEarlyStep, AuthorizeStep, TransferStep, TransferFailsStep, CopyStep, EndStep, SettleStep, CleanUpStep,
         FailStep, CopiedStep, RestartStep, FinishStep, MailKeyStep;
  }

  lemma AfterStart(sys: System, job: Job, sys': System, k: nat)
    requires StartStep(sys, job, sys') && k < |sys'.jobs|
    ensures (exists i :: 0 <= i < |sys.jobs| && IsSameMove(sys.jobs[i], sys'.jobs[k])) || sys'.jobs[k] == job
  {
    hide MayStart, NoKey;
    var all := sys.jobs + [job];
    var c := |all| - |sys'.jobs|;
    assert sys'.jobs[k] == all[c + k];
    if c + k < |sys.jobs| {
      assert IsSameMove(sys.jobs[c + k], sys'.jobs[k]);
    }
  }

  lemma AfterRewrite(sys: System, j: nat, id: string, status: Status, sys': System, k: nat)
    requires Rewrites(sys, j, id, status, sys') && k < |sys'.jobs|
    ensures k < |sys.jobs| && IsSameMove(sys.jobs[k], sys'.jobs[k])
  {
  }

  lemma {:induction false} JobsWereStarted(trace: seq<System>, n: nat, k: nat)
    requires Run(trace) && n < |trace| && k < |trace[n].jobs|
    ensures WasStarted(trace, n, trace[n].jobs[k])
    decreases n
  {
    hide StartStep, Next, WasStarted;
    if n == 0 {
      assert false;
    } else {
      assert Next(trace[n - 1], trace[n - 1 + 1]);
      ListAfter(trace[n - 1], trace[n], k);
      var before := trace[n - 1].jobs;
      if i :| 0 <= i < |before| && IsSameMove(before[i], trace[n].jobs[k]) {
        JobsWereStarted(trace, n - 1, i);
        StillStarted(trace, n - 1, before[i], trace[n].jobs[k]);
      } else {
        JustStarted(trace, n - 1, trace[n].jobs[k]);
      }
    }
  }

  // Deletions

  /** The steps that delete: the clean-up of a failed transfer, and finishing. */
  lemma WhoDeletes(sys: System, sys': System, server: string, account: string)
    requires Next(sys, sys') && ExistsOn(sys.accounts, server, account) && !ExistsOn(sys'.accounts, server, account)
    ensures (exists i, id, revoked :: CleanUpStep(sys, i, id, revoked, sys')) || (exists i, id, whole :: FinishStep(sys, i, id, whole, sys'))
  {
    hide StartStep, Quiet, CleanUpStep, FinishStep, CopyStep, EndStep;
    if job :| StartStep(sys, job, sys') {
      StartParts(sys, job, sys');
      assert false;
    } else {
      OtherSteps(sys, sys');
      if Quiet(sys, sys') {
        QuietAccounts(sys, sys');
        assert false;
      } else if id :| CopyStep(sys, id, sys') {
        CopyCreates(sys, id, sys', server, account);
        assert false;
      } else if id, rc :| EndStep(sys, id, rc, sys') {
        EndCreates(sys, id, rc, sys', server, account);
        assert false;
      }
    }
  }

  lemma CopyCreates(sys: System, id: string, sys': System, server: string, account: string)
    requires CopyStep(sys, id, sys') && ExistsOn(sys.accounts, server, account)
    ensures ExistsOn(sys'.accounts, server, account)
  {
  }

  lemma EndCreates(sys: System, id: string, rc: int, sys': System, server: string, account: string)
    requires EndStep(sys, id, rc, sys') && ExistsOn(sys.accounts, server, account)
    ensures ExistsOn(sys'.accounts, server, account)
  {
  }

  /** The one deleted copy is the source copy of a finished move, or a destination copy. */
  predicate DeletesFor(j: Job, server: string, account: string, sys': System) {
    && j.account == account && j.from != j.to
    && ((server == j.from && j.status == Copied && ExistsOn(sys'.accounts, j.to, account))
        || (server == j.to && Unfinished(j) && ExistsOn(sys'.accounts, j.from, account)))
  }

  lemma DeletedByCleanUp(sys: System, i: nat, id: string, revoked: bool, sys': System, server: string, account: string)
    requires Inv(sys) && CleanUpStep(sys, i, id, revoked, sys')
    requires ExistsOn(sys.accounts, server, account) && !ExistsOn(sys'.accounts, server, account)
    ensures i < |sys.jobs| && DeletesFor(sys.jobs[i], server, account, sys')
  {
    hide KeyOk, TransferFailed, JobsDistinct;
    JobParts(sys, i);
  }

  lemma DeletedByFinish(sys: System, i: nat, id: string, whole: bool, sys': System, server: string, account: string)
    requires Inv(sys) && FinishStep(sys, i, id, whole, sys')
    requires ExistsOn(sys.accounts, server, account) && !ExistsOn(sys'.accounts, server, account)
    ensures i < |sys.jobs| && DeletesFor(sys.jobs[i], server, account, sys')
  {
    hide KeyOk, JobsDistinct, SetStatus;
    JobParts(sys, i);
  }

  /** The account was not on the destination when the move was started. */
  ghost predicate StartedWithout(trace: seq<System>, n: nat, j: Job)
    requires n < |trace|
  {
    exists s: nat :: s < n && StartedAt(trace, s, j) && !ExistsOn(trace[s].accounts, j.to, j.account)
  }

  lemma StartsWithout(trace: seq<System>, n: nat, j: Job)
    requires n < |trace| && WasStarted(trace, n, j)
    ensures StartedWithout(trace, n, j)
  {
    var s: nat :| s < n && StartedAt(trace, s, j);
    hide NoKey, IsTag, Appended, NothingLost;
    assert !ExistsOn(trace[s].accounts, j.to, j.account);
  }

  /** Whatever happens, a copy of an account is deleted only for a move of that account on
      the list: the source copy of a copied move, the destination having one; or the
      destination copy of an unfinished one, the source having one and the destination
      having had none when the move was started. An account that merely has the name of
      a moved one is never touched. */
  lemma OnlyOwnCopiesAreDeleted(trace: seq<System>, n: nat, server: string, account: string) returns (i: nat)
    requires Run(trace) && n + 1 < |trace|
    requires ExistsOn(trace[n].accounts, server, account) && !ExistsOn(trace[n + 1].accounts, server, account)
    ensures i < |trace[n].jobs|
    ensures var j := trace[n].jobs[i];
            && j.account == account && j.from != j.to
            && ((server == j.from && j.status == Copied && ExistsOn(trace[n + 1].accounts, j.to, account))
                || (server == j.to && Unfinished(j) && ExistsOn(trace[n + 1].accounts, j.from, account) && StartedWithout(trace, n, j)))
  {
    hide Inv, CleanUpStep, FinishStep, StartedWithout, WasStarted, ExistsOn, Next;
    var sys, sys' := trace[n], trace[n + 1];
    RunKeeps(trace, n);
    assert Next(sys, sys');
    WhoDeletes(sys, sys', server, account);
    i := WhoseCopy(sys, sys', server, account);
    JobsWereStarted(trace, n, i);
    StartsWithout(trace, n, sys.jobs[i]);
  }

  lemma WhoseCopy(sys: System, sys': System, server: string, account: string) returns (i: nat)
    requires Inv(sys) && ExistsOn(sys.accounts, server, account) && !ExistsOn(sys'.accounts, server, account)
    requires (exists i, id, revoked :: CleanUpStep(sys, i, id, revoked, sys')) || (exists i, id, whole :: FinishStep(sys, i, id, whole, sys'))
    ensures i < |sys.jobs| && DeletesFor(sys.jobs[i], server, account, sys')
  {
    hide Inv, CleanUpStep, FinishStep, ExistsOn, DeletesFor;
    if k: nat, id, revoked :| CleanUpStep(sys, k, id, revoked, sys') {
      i := k;
      DeletedByCleanUp(sys, i, id, revoked, sys', server, account);
    } else {
      var k: nat, id, whole :| FinishStep(sys, k, id, whole, sys');
      i := k;
      DeletedByFinish(sys, i, id, whole, sys', server, account);
    }
  }
}
