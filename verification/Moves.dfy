/** internal/cluster/move.go: moving accounts between servers, as steps of the master,
    of detached transfers and of restarts. */
module Moves {
  import opened Text
  import opened AuthorizedKeys

  datatype Status = Running | Copied | Failed | Finalized | Cancelled

  datatype Job = Job(id: string, account: string, from: string, to: string, live: bool, status: Status)

  const MAX_JOBS := 50

  predicate Unfinished(j: Job) {
    j.status == Running || j.status == Copied
  }

  function SetStatus(jobs: seq<Job>, id: string, status: Status): (r: seq<Job>)
    ensures |r| == |jobs|
  {
    seq(|jobs|, i requires 0 <= i < |jobs| => if jobs[i].id == id then jobs[i].(status := status) else jobs[i])
  }

  function Appended(jobs: seq<Job>, job: Job): seq<Job> {
    var all := jobs + [job];
    if |all| > MAX_JOBS then all[|all| - MAX_JOBS..] else all
  }

  type Accounts = map<string, set<string>>

  predicate ExistsOn(accounts: Accounts, server: string, account: string) {
    server in accounts && account in accounts[server]
  }

  function Create(accounts: Accounts, server: string, account: string): Accounts {
    if server in accounts then accounts[server := accounts[server] + {account}] else accounts
  }

  function Delete(accounts: Accounts, server: string, account: string): Accounts {
    if server in accounts then accounts[server := accounts[server] - {account}] else accounts
  }

  // The goroutine behind a job, and the transfer on the source server

  /** A job's goroutine: not running, before the key is authorized, before the transfer
      is started, polling, or past its revoke call. */
  datatype Worker = Gone | Starting | Granted | Watching | Settled(revoked: bool, timedOut: bool)

  datatype Transfer = NotStarted | InFlight(account: string, to: string) | Ended(rc: int)

  datatype System = System(
    accounts: Accounts,
    /** authorized_keys of each server */
    keys: map<string, string>,
    jobs: seq<Job>,
    workers: map<string, Worker>,
    transfers: map<string, Transfer>,
    /** whether the last revoke call of a job succeeded */
    revoked: map<string, bool>)

  predicate HasJob(sys: System, i: nat, id: string, worker: Worker) {
    && i < |sys.jobs| && sys.jobs[i].id == id && sys.jobs[i].to in sys.keys
    && id in sys.workers && id in sys.transfers && id in sys.revoked && sys.workers[id] == worker
  }

  predicate NoKey(sys: System, server: string, tag: string) {
    server in sys.keys ==> NoneCarries(Keys(sys.keys[server]), tag)
  }

  /** No unfinished job falls off the list when a new one is added. */
  predicate NothingLost(jobs: seq<Job>) {
    |jobs| >= MAX_JOBS ==> !Unfinished(jobs[|jobs| - MAX_JOBS])
  }

  predicate MayStart(sys: System, job: Job) {
    && job.status == Running && job.from != job.to
    && job.from in sys.keys && job.to in sys.keys && job.from in sys.accounts && job.to in sys.accounts
    && ExistsOn(sys.accounts, job.from, job.account) && !ExistsOn(sys.accounts, job.to, job.account)
    && forall i | 0 <= i < |sys.jobs| && Unfinished(sys.jobs[i]) :: sys.jobs[i].account != job.account
  }

  ghost predicate StartStep(sys: System, job: Job, sys': System) {
    && MayStart(sys, job) && IsTag(job.id) && job.id !in sys.workers
    && (forall server | server in sys.keys :: NoKey(sys, server, job.id))
    && |sys.jobs| <= MAX_JOBS && NothingLost(sys.jobs)
    && sys' == sys.(jobs := Appended(sys.jobs, job), workers := sys.workers[job.id := Starting],
                    transfers := sys.transfers[job.id := NotStarted], revoked := sys.revoked[job.id := false])
  }

  /** Nothing was authorized yet: an address, the key or the authorization failed. */
  ghost predicate FailEarlyStep(sys: System, i: nat, id: string, sys': System) {
    && HasJob(sys, i, id, Starting)
    && sys' == sys.(jobs := SetStatus(sys.jobs, id, Failed), workers := sys.workers[id := Gone], revoked := sys.revoked[id := true])
  }

  ghost predicate AuthorizeStep(sys: System, i: nat, id: string, g: Grant, sys': System) {
    && HasJob(sys, i, id, Starting) && ValidGrant(g) && g.tag == id
    && var to := sys.jobs[i].to;
       sys' == sys.(keys := sys.keys[to := Authorized(sys.keys[to], g)], workers := sys.workers[id := Granted])
  }

  ghost predicate TransferStep(sys: System, i: nat, id: string, sys': System) {
    && HasJob(sys, i, id, Granted)
    && sys' == sys.(workers := sys.workers[id := Watching], transfers := sys.transfers[id := InFlight(sys.jobs[i].account, sys.jobs[i].to)])
  }

  function AfterRevoke(sys: System, to: string, id: string, ok: bool): map<string, string> {
    if ok && to in sys.keys then sys.keys[to := Revoked(sys.keys[to], id)] else sys.keys
  }

  /** The transfer could not be started; the revoke call is tried once. */
  ghost predicate TransferFailsStep(sys: System, i: nat, id: string, ok: bool, sys': System) {
    && HasJob(sys, i, id, Granted)
    && sys' == sys.(keys := AfterRevoke(sys, sys.jobs[i].to, id, ok), jobs := SetStatus(sys.jobs, id, Failed),
                    workers := sys.workers[id := Gone], revoked := sys.revoked[id := ok])
  }

  /** The detached transfer creates the account on the destination at some point. It
      never touches the source. */
  ghost predicate CopyStep(sys: System, id: string, sys': System) {
    && id in sys.transfers && sys.transfers[id].InFlight?
    && sys' == sys.(accounts := Create(sys.accounts, sys.transfers[id].to, sys.transfers[id].account))
  }

  ghost predicate EndStep(sys: System, id: string, rc: int, sys': System) {
    && id in sys.transfers && sys.transfers[id].InFlight?
    && var t := sys.transfers[id];
       sys' == sys.(accounts := if rc == 0 then Create(sys.accounts, t.to, t.account) else sys.accounts,
                    transfers := sys.transfers[id := Ended(rc)])
  }

  /** The transfer is seen to have ended, or the deadline passed: the key is revoked. */
  ghost predicate SettleStep(sys: System, i: nat, id: string, ok: bool, timedOut: bool, sys': System) {
    && HasJob(sys, i, id, Watching) && (!timedOut ==> sys.transfers[id].Ended?)
    && sys' == sys.(keys := AfterRevoke(sys, sys.jobs[i].to, id, ok), workers := sys.workers[id := Settled(ok, timedOut)])
  }

  predicate TransferFailed(sys: System, id: string)
    requires id in sys.transfers
  {
    sys.transfers[id].Ended? && sys.transfers[id].rc != 0
  }

  /** After a failed transfer whatever is on the destination is deleted. */
  ghost predicate CleanUpStep(sys: System, i: nat, id: string, revoked: bool, sys': System) {
    && HasJob(sys, i, id, Settled(revoked, false)) && TransferFailed(sys, id)
    && sys' == sys.(accounts := Delete(sys.accounts, sys.jobs[i].to, sys.jobs[i].account))
  }

  ghost predicate FailStep(sys: System, i: nat, id: string, revoked: bool, timedOut: bool, sys': System) {
    && HasJob(sys, i, id, Settled(revoked, timedOut)) && (timedOut || TransferFailed(sys, id))
    && sys' == sys.(jobs := SetStatus(sys.jobs, id, Failed), workers := sys.workers[id := Gone], revoked := sys.revoked[id := revoked])
  }

  ghost predicate CopiedStep(sys: System, i: nat, id: string, revoked: bool, sys': System) {
    && HasJob(sys, i, id, Settled(revoked, false)) && sys.transfers[id] == Ended(0)
    && sys' == sys.(jobs := SetStatus(sys.jobs, id, Copied), workers := sys.workers[id := Gone], revoked := sys.revoked[id := revoked])
  }

  /** The master's process restarts: every running job gets a new watcher. */
  ghost predicate RestartStep(sys: System, sys': System) {
    sys' == sys.(workers := map id | id in sys.workers ::
                     if exists i :: 0 <= i < |sys.jobs| && sys.jobs[i].id == id && sys.jobs[i].status == Running then Watching else Gone)
  }

  /** A finishMove that ran to completion. */
  ghost predicate FinishStep(sys: System, i: nat, id: string, deleteFromSource: bool, sys': System) {
    && i < |sys.jobs| && sys.jobs[i].id == id && sys.jobs[i].status == Copied
    && var j := sys.jobs[i];
       sys' == sys.(accounts := Delete(sys.accounts, if deleteFromSource then j.from else j.to, j.account),
                    jobs := SetStatus(sys.jobs, id, if deleteFromSource then Finalized else Cancelled))
  }

  /** The final mail sync authorizes a key under a fresh tag and revokes it again, which
      may fail. */
  ghost predicate MailKeyStep(sys: System, to: string, g: Grant, ok: bool, sys': System) {
    && to in sys.keys && ValidGrant(g) && g.tag !in sys.workers
    && var during := sys.(keys := sys.keys[to := Authorized(sys.keys[to], g)], workers := sys.workers[g.tag := Gone],
                          transfers := sys.transfers[g.tag := NotStarted], revoked := sys.revoked[g.tag := false]);
       sys' == during.(keys := AfterRevoke(during, to, g.tag, ok))
  }

  ghost predicate Next(sys: System, sys': System) {
    || (exists job :: StartStep(sys, job, sys'))
    || (exists i, id :: FailEarlyStep(sys, i, id, sys'))
    || (exists i, id, g :: AuthorizeStep(sys, i, id, g, sys'))
    || (exists i, id :: TransferStep(sys, i, id, sys'))
    || (exists i, id, ok :: TransferFailsStep(sys, i, id, ok, sys'))
    || (exists id :: CopyStep(sys, id, sys'))
    || (exists id, rc :: EndStep(sys, id, rc, sys'))
    || (exists i, id, ok, timedOut :: SettleStep(sys, i, id, ok, timedOut, sys'))
    || (exists i, id, revoked :: CleanUpStep(sys, i, id, revoked, sys'))
    || (exists i, id, revoked, timedOut :: FailStep(sys, i, id, revoked, timedOut, sys'))
    || (exists i, id, revoked :: CopiedStep(sys, i, id, revoked, sys'))
    || RestartStep(sys, sys')
    || (exists i, id, deleteFromSource :: FinishStep(sys, i, id, deleteFromSource, sys'))
    || (exists to, g, ok :: MailKeyStep(sys, to, g, ok, sys'))
  }

  // The invariant

  predicate KnownJob(sys: System, j: Job) {
    && j.from != j.to && j.to in sys.keys && j.from in sys.accounts && j.to in sys.accounts
    && j.id in sys.workers && j.id in sys.transfers && j.id in sys.revoked && IsTag(j.id)
  }

  /** Where the account of a job is, by the state of the job. */
  predicate PlacesOk(sys: System, j: Job) {
    && KnownJob(sys, j)
    && (Unfinished(j) ==> ExistsOn(sys.accounts, j.from, j.account))
    && (j.status == Copied ==> ExistsOn(sys.accounts, j.to, j.account))
    && (j.status == Running && sys.transfers[j.id] == Ended(0) ==> ExistsOn(sys.accounts, j.to, j.account))
    && (sys.transfers[j.id].InFlight? ==> sys.transfers[j.id] == InFlight(j.account, j.to))
    && (sys.workers[j.id] != Gone ==> j.status == Running)
  }

  /** Whether the key of a job is still authorized. */
  predicate KeyOk(sys: System, j: Job) {
    && KnownJob(sys, j)
    && (sys.workers[j.id] == Starting ==> NoKey(sys, j.to, j.id))
    && (sys.workers[j.id].Settled? && sys.workers[j.id].revoked ==> NoKey(sys, j.to, j.id))
    && (j.status != Running && sys.revoked[j.id] ==> NoKey(sys, j.to, j.id))
  }

  predicate JobsDistinct(jobs: seq<Job>) {
    && (forall i, j | 0 <= i < j < |jobs| :: jobs[i].id != jobs[j].id)
    && (forall i, j | 0 <= i < j < |jobs| && Unfinished(jobs[i]) && Unfinished(jobs[j]) :: jobs[i].account != jobs[j].account)
  }

  ghost predicate Inv(sys: System) {
    && |sys.jobs| <= MAX_JOBS
    && JobsDistinct(sys.jobs)
    && (forall i | 0 <= i < |sys.jobs| :: PlacesOk(sys, sys.jobs[i]))
    && (forall i | 0 <= i < |sys.jobs| :: KeyOk(sys, sys.jobs[i]))
  }

  /** An account that is somewhere before a step is somewhere after it. */
  predicate Somewhere(accounts: Accounts, account: string) {
    exists server | server in accounts :: account in accounts[server]
  }

  ghost predicate NoneLost(accounts: Accounts, accounts': Accounts) {
    forall a | Somewhere(accounts, a) :: Somewhere(accounts', a)
  }

  lemma SetStatusDistinct(jobs: seq<Job>, id: string, status: Status)
    requires JobsDistinct(jobs)
    requires forall i | 0 <= i < |jobs| && jobs[i].id == id :: Unfinished(jobs[i])
    ensures JobsDistinct(SetStatus(jobs, id, status))
  {
    var r := SetStatus(jobs, id, status);
    assert forall i | 0 <= i < |jobs| :: r[i].id == jobs[i].id && r[i].account == jobs[i].account && (Unfinished(r[i]) ==> Unfinished(jobs[i]));
  }

  lemma OnlyJob(sys: System, i: nat, k: nat)
    requires JobsDistinct(sys.jobs) && i < |sys.jobs| && k < |sys.jobs| && sys.jobs[i].id == sys.jobs[k].id
    ensures i == k
  {
  }

  /** Removing an account does not matter to the unfinished jobs of other accounts. */
  lemma DeleteElsewhere(sys: System, server: string, account: string, j: Job)
    requires PlacesOk(sys, j) && (Unfinished(j) ==> j.account != account)
    ensures PlacesOk(sys.(accounts := Delete(sys.accounts, server, account)), j)
  {
  }

  lemma DeleteLeavesOther(accounts: Accounts, server: string, account: string, other: string)
    requires other != server && ExistsOn(accounts, other, account)
    ensures NoneLost(accounts, Delete(accounts, server, account))
  {
    var after := Delete(accounts, server, account);
    forall a | Somewhere(accounts, a)
      ensures Somewhere(after, a)
    {
      var s :| s in accounts && a in accounts[s];
      if a == account {
        assert a in after[other];
      } else {
        assert a in after[s];
      }
    }
  }

  lemma CreateLosesNone(accounts: Accounts, server: string, account: string)
    ensures NoneLost(accounts, Create(accounts, server, account))
  {
    var after := Create(accounts, server, account);
    forall a | Somewhere(accounts, a)
      ensures Somewhere(after, a)
    {
      var s :| s in accounts && a in accounts[s];
      assert a in after[s];
    }
  }

  // Keys: other tags' lines do not matter

  lemma AuthorizeKeepsOthers(sys: System, to: string, g: Grant, server: string, tag: string)
    requires to in sys.keys && ValidGrant(g) && IsTag(tag) && tag != g.tag && NoKey(sys, server, tag)
    ensures NoKey(sys.(keys := sys.keys[to := Authorized(sys.keys[to], g)]), server, tag)
  {
    hide Keys, Carries, ValidGrant, GrantLine, Authorized;
    if server == to {
      KeysAfterAuthorize(sys.keys[to], g);
      GrantCarries(g, tag);
    }
  }

  lemma RevokeKeepsOthers(sys: System, to: string, id: string, ok: bool, server: string, tag: string)
    requires NoKey(sys, server, tag)
    ensures NoKey(sys.(keys := AfterRevoke(sys, to, id, ok)), server, tag)
  {
    hide Keys, Carries, Revoked;
    if server == to && ok && to in sys.keys {
      KeysAfterRevoke(sys.keys[to], id);
      WithoutIs(Keys(sys.keys[to]), id);
    }
  }

  lemma RevokeWorks(sys: System, to: string, id: string)
    ensures NoKey(sys.(keys := AfterRevoke(sys, to, id, true)), to, id)
  {
    hide Keys, Carries, Revoked;
    if to in sys.keys {
      KeysAfterRevoke(sys.keys[to], id);
      WithoutIs(Keys(sys.keys[to]), id);
    }
  }
}
