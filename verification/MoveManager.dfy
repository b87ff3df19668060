/** internal/cluster/move.go: the master's move operations, against the steps they are
    in the model of whole runs. */
module MoveManager {
  import opened Text
  import opened Moves

  /** One answer to transfer_state. */
  datatype Poll = NoAnswer | StillRunning | Finished(rc: int)

  datatype Outcome = Ended(rc: int) | TimedOut

  /** The first finished answer decides. */
  function OutcomeOf(polls: seq<Poll>): Outcome {
    if polls == [] then Outcome.TimedOut
    else if polls[0].Finished? then Outcome.Ended(polls[0].rc)
    else OutcomeOf(polls[1..])
  }

  const RETRIES := 12

  class Manager {
    var accounts: Accounts
    var jobs: seq<Job>

    /** Rewrites the status of every job with an id, in place. */
    method SaveStatus(id: string, status: Status)
      modifies this`jobs
      ensures jobs == SetStatus(old(jobs), id, status)
    {
      for n := 0 to |jobs|
        invariant |jobs| == |old(jobs)|
        invariant forall i | 0 <= i < n :: jobs[i] == SetStatus(old(jobs), id, status)[i]
        invariant forall i | n <= i < |jobs| :: jobs[i] == old(jobs)[i]
      {
        if jobs[n].id == id {
          jobs := jobs[n := jobs[n].(status := status)];
        }
      }
    }

    /** preflight and the check for unfinished moves; then the job is on the list. allowed
        stands for the checks of licence, name, reseller and domains. */
    method StartMove(job: Job, allowed: bool) returns (ok: bool)
      requires job.status == Running
      modifies this`jobs
      ensures ok <==>
                && allowed && job.from != job.to
                && ExistsOn(accounts, job.from, job.account) && !ExistsOn(accounts, job.to, job.account)
                && forall i | 0 <= i < |old(jobs)| && Unfinished(old(jobs)[i]) :: old(jobs)[i].account != job.account
      ensures jobs == if ok then Appended(old(jobs), job) else old(jobs)
      ensures ok ==> jobs == (old(jobs) + [job])[if |old(jobs)| < 50 then 0 else |old(jobs)| - 49..]
    {
      if !allowed || job.from == job.to || !ExistsOn(accounts, job.from, job.account) || ExistsOn(accounts, job.to, job.account) {
        return false;
      }
      for n := 0 to |jobs|
        invariant jobs == old(jobs)
        invariant forall i | 0 <= i < n && Unfinished(jobs[i]) :: jobs[i].account != job.account
      {
        if jobs[n].account == job.account && (jobs[n].status == Running || jobs[n].status == Copied) {
          return false;
        }
      }
      jobs := jobs + [job];
      if |jobs| > MAX_JOBS {
        jobs := jobs[|jobs| - MAX_JOBS..];
      }
      ok := true;
    }

    /** The last job with the id, as the loop over the list leaves it. */
    method FindJob(id: string) returns (n: int)
      ensures -1 <= n < |jobs|
      ensures n >= 0 ==> jobs[n].id == id
      ensures forall i | n < i < |jobs| :: jobs[i].id != id
    {
      n := -1;
      for i := 0 to |jobs|
        invariant -1 <= n < i
        invariant n >= 0 ==> jobs[n].id == id
        invariant forall k | n < k < i :: jobs[k].id != id
      {
        if jobs[i].id == id {
          n := i;
        }
      }
    }

    /** FinalizeMove and CancelMove. mailOk and deleteOk say whether the final mail sync
        and the delete call succeed; a failed call had no effect. */
    method FinishMove(id: string, deleteFromSource: bool, mailOk: bool, deleteOk: bool) returns (deleted: bool, ghost n: int)
      modifies this
      ensures -1 <= n < |old(jobs)| && (n < 0 ==> forall i | 0 <= i < |old(jobs)| :: old(jobs)[i].id != id)
      ensures n >= 0 ==> old(jobs)[n].id == id
      ensures deleted <==> n >= 0 && old(jobs)[n].status == Copied && (deleteFromSource ==> mailOk) && deleteOk
      ensures !deleted ==> jobs == old(jobs) && accounts == old(accounts)
      ensures deleted ==>
                && jobs == SetStatus(old(jobs), id, if deleteFromSource then Finalized else Cancelled)
                && accounts == Delete(old(accounts), if deleteFromSource then old(jobs)[n].from else old(jobs)[n].to, old(jobs)[n].account)
    {
      var found := FindJob(id);
      n := found;
      if found < 0 || jobs[found].status != Copied {
        return false, n;
      }
      var job := jobs[found];
      var target, status := job.to, Cancelled;
      if deleteFromSource {
        target, status := job.from, Finalized;
        if !mailOk {
          return false, n;
        }
      }
      if !deleteOk {
        return false, n;
      }
      accounts := Delete(accounts, target, job.account);
      SaveStatus(id, status);
      deleted := true;
    }
  }

  /** watchMove: polls until an answer says the transfer ended, or the deadline. */
  method WatchMove(polls: seq<Poll>) returns (outcome: Outcome)
    ensures outcome == OutcomeOf(polls)
  {
    for n := 0 to |polls|
      invariant OutcomeOf(polls[n..]) == OutcomeOf(polls)
    {
      assert polls[n..][1..] == polls[n + 1..];
      if polls[n].NoAnswer? {
        continue;
      }
      if polls[n].StillRunning? {
        continue;
      }
      return Outcome.Ended(polls[n].rc);
    }
    return Outcome.TimedOut;
  }

  /** Answers before the first finished one do not matter, later ones are never asked. */
  lemma {:induction false} FirstFinishedDecides(before: seq<Poll>, rc: int, after: seq<Poll>)
    requires forall i | 0 <= i < |before| :: !before[i].Finished?
    ensures OutcomeOf(before + [Finished(rc)] + after) == Outcome.Ended(rc)
    ensures OutcomeOf(before) == Outcome.TimedOut
  {
    var all := before + [Finished(rc)] + after;
    if before != [] {
      assert all[1..] == before[1..] + [Finished(rc)] + after;
      FirstFinishedDecides(before[1..], rc, after);
    }
  }

  /** retryCall: results are what the tries would answer, in order. */
  method RetryCall(results: seq<bool>) returns (ok: bool, tries: nat)
    requires |results| >= 12
    ensures ok <==> exists i :: 0 <= i < 12 && results[i]
    ensures tries <= 12 && (!ok ==> tries == 12) && (forall i | 0 <= i < tries - 1 :: !results[i]) && (ok ==> tries > 0 && results[tries - 1])
  {
    tries := 0;
    for i := 0 to RETRIES
      invariant tries == i && forall k | 0 <= k < i :: !results[k]
    {
      tries := tries + 1;
      if results[i] {
        return true, tries;
      }
    }
    ok := false;
  }
}
