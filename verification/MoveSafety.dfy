/** Over every run of moves: accounts are never lost, statuses follow their order, and
    SSH access ends with the move. */
module MoveSafety {
  import opened Text
  import opened AuthorizedKeys
  import opened Moves

  lemma JobParts(sys: System, i: nat)
    requires Inv(sys) && i < |sys.jobs|
    ensures PlacesOk(sys, sys.jobs[i]) && KeyOk(sys, sys.jobs[i])
  {
  }

  /** What a step that is about other jobs leaves as it was for a job. */
  ghost predicate SameFor(sys: System, sys': System, id: string) {
    && (id in sys.workers ==> id in sys'.workers && sys'.workers[id] == sys.workers[id])
    && (id in sys.transfers ==> id in sys'.transfers && sys'.transfers[id] == sys.transfers[id])
    && (id in sys.revoked ==> id in sys'.revoked && sys'.revoked[id] == sys.revoked[id])
  }

  ghost predicate Grows(accounts: Accounts, accounts': Accounts) {
    forall server | server in accounts :: server in accounts' && accounts[server] <= accounts'[server]
  }

  lemma UntouchedJobOk(sys: System, sys': System, j: Job)
    requires PlacesOk(sys, j) && KeyOk(sys, j)
    requires SameFor(sys, sys', j.id) && Grows(sys.accounts, sys'.accounts)
    requires j.to in sys'.keys && (NoKey(sys, j.to, j.id) ==> NoKey(sys', j.to, j.id))
    ensures PlacesOk(sys', j) && KeyOk(sys', j)
  {
    hide NoKey, IsTag;
  }

  lemma JobKnown(sys: System, j: Job)
    requires PlacesOk(sys, j)
    ensures j.to in sys.keys && j.id in sys.workers && j.id in sys.transfers && j.id in sys.revoked && IsTag(j.id)
    ensures j.from in sys.accounts && j.to in sys.accounts
  {
    hide IsTag;
  }

  lemma SameAccounts(accounts: Accounts)
    ensures NoneLost(accounts, accounts) && Grows(accounts, accounts)
  {
  }

  lemma StartKeeps(sys: System, job: Job, sys': System)
    requires Inv(sys) && StartStep(sys, job, sys')
    ensures Inv(sys')
  {
    hide KeyOk, PlacesOk, NoKey, IsTag;
    var all := sys.jobs + [job];
    var cut := |all| - |sys'.jobs|;
    assert forall k | 0 <= k < |sys'.jobs| :: sys'.jobs[k] == all[cut + k];
    StartDistinct(sys, job);
    forall k | 0 <= k < |sys'.jobs|
      ensures PlacesOk(sys', sys'.jobs[k]) && KeyOk(sys', sys'.jobs[k])
    {
      if cut + k == |sys.jobs| {
        StartedJobOk(sys, job, sys');
      } else {
        JobParts(sys, cut + k);
        OldJobOk(sys, job, sys', sys.jobs[cut + k]);
      }
    }
  }

  lemma StartDistinct(sys: System, job: Job)
    requires Inv(sys) && MayStart(sys, job) && job.id !in sys.workers
    ensures JobsDistinct(Appended(sys.jobs, job))
  {
    hide KeyOk, NoKey, IsTag;
    forall i | 0 <= i < |sys.jobs|
      ensures sys.jobs[i].id != job.id
    {
      assert PlacesOk(sys, sys.jobs[i]);
    }
    assert JobsDistinct(sys.jobs + [job]);
  }

  lemma StartedJobOk(sys: System, job: Job, sys': System)
    requires StartStep(sys, job, sys')
    ensures PlacesOk(sys', job) && KeyOk(sys', job)
  {
    hide NoneCarries, Keys, IsTag;
  }

  lemma OldJobOk(sys: System, job: Job, sys': System, j: Job)
    requires StartStep(sys, job, sys') && PlacesOk(sys, j) && KeyOk(sys, j)
    ensures PlacesOk(sys', j) && KeyOk(sys', j)
  {
    hide NoneCarries, Keys, IsTag, MayStart, Appended, PlacesOk, KeyOk, Grows, NoneLost;
    JobKnown(sys, j);
    SameAccounts(sys.accounts);
    UntouchedJobOk(sys, sys', j);
  }

  /** A step that only ends the work on one job. */
  ghost predicate Closes(sys: System, i: nat, id: string, status: Status, revoked: bool, keys: map<string, string>, sys': System) {
    && i < |sys.jobs| && sys.jobs[i].id == id && id in sys.workers && id in sys.transfers && id in sys.revoked
    && sys' == sys.(keys := keys, jobs := SetStatus(sys.jobs, id, status), workers := sys.workers[id := Gone], revoked := sys.revoked[id := revoked])
  }

  lemma ClosesKeeps(sys: System, i: nat, id: string, status: Status, revoked: bool, keys: map<string, string>, sys': System)
    requires Inv(sys) && Closes(sys, i, id, status, revoked, keys, sys')
    requires sys.jobs[i].status == Running && (status == Failed || status == Copied)
    requires status == Copied ==> ExistsOn(sys.accounts, sys.jobs[i].to, sys.jobs[i].account)
    requires keys.Keys == sys.keys.Keys
    requires forall server, tag | NoKey(sys, server, tag) :: NoKey(sys.(keys := keys), server, tag)
    requires revoked ==> NoKey(sys.(keys := keys), sys.jobs[i].to, id)
    ensures Inv(sys')
  {
    hide PlacesOk, KeyOk, NoKey, IsTag, JobsDistinct;
    forall k | 0 <= k < |sys.jobs| && sys.jobs[k].id == id
      ensures Unfinished(sys.jobs[k])
    {
      OnlyJob(sys, i, k);
    }
    SetStatusDistinct(sys.jobs, id, status);
    forall k | 0 <= k < |sys.jobs|
      ensures PlacesOk(sys', sys'.jobs[k]) && KeyOk(sys', sys'.jobs[k])
    {
      JobParts(sys, k);
      if sys.jobs[k].id == id {
        OnlyJob(sys, i, k);
        ClosedJobOk(sys, i, id, status, revoked, keys, sys');
      } else {
        OtherJobOk(sys, i, id, status, revoked, keys, sys', sys.jobs[k]);
      }
    }
  }

  lemma ClosedJobOk(sys: System, i: nat, id: string, status: Status, revoked: bool, keys: map<string, string>, sys': System)
    requires Closes(sys, i, id, status, revoked, keys, sys') && PlacesOk(sys, sys.jobs[i])
    requires sys.jobs[i].status == Running && (status == Failed || status == Copied)
    requires status == Copied ==> ExistsOn(sys.accounts, sys.jobs[i].to, sys.jobs[i].account)
    requires keys.Keys == sys.keys.Keys
    requires revoked ==> NoKey(sys.(keys := keys), sys.jobs[i].to, id)
    ensures PlacesOk(sys', sys'.jobs[i]) && KeyOk(sys', sys'.jobs[i])
  {
    hide NoneCarries, Keys, IsTag;
    assert sys.jobs[i].to in sys.keys.Keys;
  }

  lemma OtherJobOk(sys: System, i: nat, id: string, status: Status, revoked: bool, keys: map<string, string>, sys': System, j: Job)
    requires Closes(sys, i, id, status, revoked, keys, sys') && PlacesOk(sys, j) && KeyOk(sys, j) && j.id != id
    requires keys.Keys == sys.keys.Keys
    requires NoKey(sys, j.to, j.id) ==> NoKey(sys.(keys := keys), j.to, j.id)
    ensures PlacesOk(sys', j) && KeyOk(sys', j)
  {
    hide NoneCarries, Keys, IsTag, SetStatus, PlacesOk, KeyOk, Grows, NoneLost;
    JobKnown(sys, j);
    SameAccounts(sys.accounts);
    assert j.to in keys.Keys;
    UntouchedJobOk(sys, sys', j);
  }

  lemma FailEarlyKeeps(sys: System, i: nat, id: string, sys': System)
    requires Inv(sys) && FailEarlyStep(sys, i, id, sys')
    ensures Inv(sys')
  {
    hide Inv, NoneCarries;
    JobParts(sys, i);
    ClosesKeeps(sys, i, id, Failed, true, sys.keys, sys');
  }

  lemma RevokeKeeps(sys: System, to: string, id: string, ok: bool)
    ensures AfterRevoke(sys, to, id, ok).Keys == sys.keys.Keys
    ensures forall server, tag | NoKey(sys, server, tag) :: NoKey(sys.(keys := AfterRevoke(sys, to, id, ok)), server, tag)
    ensures ok ==> NoKey(sys.(keys := AfterRevoke(sys, to, id, ok)), to, id)
  {
    hide NoKey;
    forall server, tag | NoKey(sys, server, tag)
      ensures NoKey(sys.(keys := AfterRevoke(sys, to, id, ok)), server, tag)
    {
      RevokeKeepsOthers(sys, to, id, ok, server, tag);
    }
    RevokeWorks(sys, to, id);
    if to in sys.keys {
      assert AfterRevoke(sys, to, id, ok).Keys == sys.keys.Keys;
    }
  }

  lemma TransferFailsKeeps(sys: System, i: nat, id: string, ok: bool, sys': System)
    requires Inv(sys) && TransferFailsStep(sys, i, id, ok, sys')
    ensures Inv(sys')
  {
    hide Inv, NoKey, AfterRevoke;
    JobParts(sys, i);
    RevokeKeeps(sys, sys.jobs[i].to, id, ok);
    ClosesKeeps(sys, i, id, Failed, ok, AfterRevoke(sys, sys.jobs[i].to, id, ok), sys');
  }

  lemma FailKeeps(sys: System, i: nat, id: string, revoked: bool, timedOut: bool, sys': System)
    requires Inv(sys) && FailStep(sys, i, id, revoked, timedOut, sys')
    ensures Inv(sys')
  {
    hide Inv, NoKey;
    JobParts(sys, i);
    ClosesKeeps(sys, i, id, Failed, revoked, sys.keys, sys');
  }

  lemma CopiedKeeps(sys: System, i: nat, id: string, revoked: bool, sys': System)
    requires Inv(sys) && CopiedStep(sys, i, id, revoked, sys')
    ensures Inv(sys')
  {
    hide Inv, NoKey;
    JobParts(sys, i);
    ClosesKeeps(sys, i, id, Copied, revoked, sys.keys, sys');
  }

  /** A step of one job's goroutine that changes no status. */
  ghost predicate Advances(sys: System, i: nat, id: string, worker: Worker, transfer: Transfer, keys: map<string, string>, sys': System) {
    && i < |sys.jobs| && sys.jobs[i].id == id && id in sys.workers && id in sys.transfers && sys.jobs[i].status == Running
    && sys' == sys.(keys := keys, workers := sys.workers[id := worker], transfers := sys.transfers[id := transfer])
  }

  lemma AdvancesKeeps(sys: System, i: nat, id: string, worker: Worker, transfer: Transfer, keys: map<string, string>, sys': System)
    requires Inv(sys) && Advances(sys, i, id, worker, transfer, keys, sys')
    requires keys.Keys == sys.keys.Keys && worker != Starting
    requires transfer == sys.transfers[id] || transfer == InFlight(sys.jobs[i].account, sys.jobs[i].to)
    requires forall server, tag | IsTag(tag) && tag != id && NoKey(sys, server, tag) :: NoKey(sys.(keys := keys), server, tag)
    requires worker.Settled? && worker.revoked ==> NoKey(sys.(keys := keys), sys.jobs[i].to, id)
    ensures Inv(sys')
  {
    hide PlacesOk, KeyOk, NoKey, IsTag, JobsDistinct;
    forall k | 0 <= k < |sys.jobs|
      ensures PlacesOk(sys', sys.jobs[k]) && KeyOk(sys', sys.jobs[k])
    {
      JobParts(sys, k);
      if sys.jobs[k].id == id {
        OnlyJob(sys, i, k);
        MovedJobOk(sys, i, id, worker, transfer, keys, sys');
      } else {
        assert NoKey(sys, sys.jobs[k].to, sys.jobs[k].id) ==> NoKey(sys.(keys := keys), sys.jobs[k].to, sys.jobs[k].id) by {
          assert IsTag(sys.jobs[k].id) by { JobKnown(sys, sys.jobs[k]); }
        }
        UnmovedJobOk(sys, i, id, worker, transfer, keys, sys', sys.jobs[k]);
      }
    }
  }

  lemma MovedJobOk(sys: System, i: nat, id: string, worker: Worker, transfer: Transfer, keys: map<string, string>, sys': System)
    requires Advances(sys, i, id, worker, transfer, keys, sys') && PlacesOk(sys, sys.jobs[i]) && KeyOk(sys, sys.jobs[i])
    requires keys.Keys == sys.keys.Keys && worker != Starting
    requires transfer == sys.transfers[id] || transfer == InFlight(sys.jobs[i].account, sys.jobs[i].to)
    requires worker.Settled? && worker.revoked ==> NoKey(sys.(keys := keys), sys.jobs[i].to, id)
    ensures PlacesOk(sys', sys.jobs[i]) && KeyOk(sys', sys.jobs[i])
  {
    hide NoneCarries, Keys, IsTag;
    assert sys.jobs[i].to in sys.keys.Keys;
  }

  lemma UnmovedJobOk(sys: System, i: nat, id: string, worker: Worker, transfer: Transfer, keys: map<string, string>, sys': System, j: Job)
    requires Advances(sys, i, id, worker, transfer, keys, sys') && PlacesOk(sys, j) && KeyOk(sys, j) && j.id != id
    requires keys.Keys == sys.keys.Keys
    requires NoKey(sys, j.to, j.id) ==> NoKey(sys.(keys := keys), j.to, j.id)
    ensures PlacesOk(sys', j) && KeyOk(sys', j)
  {
    hide NoneCarries, Keys, IsTag, PlacesOk, KeyOk, Grows, NoneLost;
    JobKnown(sys, j);
    SameAccounts(sys.accounts);
    assert j.to in keys.Keys;
    UntouchedJobOk(sys, sys', j);
  }

  lemma AuthorizeKeeps(sys: System, i: nat, id: string, g: Grant, sys': System)
    requires Inv(sys) && AuthorizeStep(sys, i, id, g, sys')
    ensures Inv(sys')
  {
    hide Inv, NoKey, IsTag, Authorized, ValidGrant;
    JobParts(sys, i);
    var to := sys.jobs[i].to;
    var keys := sys.keys[to := Authorized(sys.keys[to], g)];
    forall server, tag | IsTag(tag) && tag != id && NoKey(sys, server, tag)
      ensures NoKey(sys.(keys := keys), server, tag)
    {
      AuthorizeKeepsOthers(sys, to, g, server, tag);
    }
    assert keys.Keys == sys.keys.Keys;
    assert sys.transfers[id := sys.transfers[id]] == sys.transfers;
    AdvancesKeeps(sys, i, id, Granted, sys.transfers[id], keys, sys');
  }

  lemma TransferKeeps(sys: System, i: nat, id: string, sys': System)
    requires Inv(sys) && TransferStep(sys, i, id, sys')
    ensures Inv(sys')
  {
    hide Inv, NoKey, IsTag;
    JobParts(sys, i);
    AdvancesKeeps(sys, i, id, Watching, InFlight(sys.jobs[i].account, sys.jobs[i].to), sys.keys, sys');
  }

  lemma SettleKeeps(sys: System, i: nat, id: string, ok: bool, timedOut: bool, sys': System)
    requires Inv(sys) && SettleStep(sys, i, id, ok, timedOut, sys')
    ensures Inv(sys')
  {
    hide Inv, NoKey, IsTag, AfterRevoke;
    JobParts(sys, i);
    RevokeKeeps(sys, sys.jobs[i].to, id, ok);
    assert sys.transfers[id := sys.transfers[id]] == sys.transfers;
    AdvancesKeeps(sys, i, id, Settled(ok, timedOut), sys.transfers[id], AfterRevoke(sys, sys.jobs[i].to, id, ok), sys');
  }

  lemma CreateGrows(accounts: Accounts, server: string, account: string)
    ensures Grows(accounts, Create(accounts, server, account))
    ensures server in accounts ==> ExistsOn(Create(accounts, server, account), server, account)
  {
  }

  lemma CopyKeeps(sys: System, id: string, sys': System)
    requires Inv(sys) && CopyStep(sys, id, sys')
    ensures Inv(sys') && NoneLost(sys.accounts, sys'.accounts)
  {
    hide NoneCarries, Keys, IsTag, NoneLost, PlacesOk, KeyOk, JobsDistinct, Create, Grows;
    CreateLosesNone(sys.accounts, sys.transfers[id].to, sys.transfers[id].account);
    CreateGrows(sys.accounts, sys.transfers[id].to, sys.transfers[id].account);
    forall k | 0 <= k < |sys.jobs|
      ensures PlacesOk(sys', sys.jobs[k]) && KeyOk(sys', sys.jobs[k])
    {
      JobParts(sys, k);
      JobKnown(sys, sys.jobs[k]);
      UntouchedJobOk(sys, sys', sys.jobs[k]);
    }
  }

  lemma EndKeeps(sys: System, id: string, rc: int, sys': System)
    requires Inv(sys) && EndStep(sys, id, rc, sys')
    ensures Inv(sys') && NoneLost(sys.accounts, sys'.accounts)
  {
    hide NoneCarries, Keys, IsTag, NoneLost, PlacesOk, KeyOk, JobsDistinct, Create, Grows;
    var t := sys.transfers[id];
    CreateLosesNone(sys.accounts, t.to, t.account);
    CreateGrows(sys.accounts, t.to, t.account);
    SameAccounts(sys.accounts);
    forall k | 0 <= k < |sys.jobs|
      ensures PlacesOk(sys', sys.jobs[k]) && KeyOk(sys', sys.jobs[k])
    {
      JobParts(sys, k);
      JobKnown(sys, sys.jobs[k]);
      if sys.jobs[k].id == id {
        EndedJobOk(sys, id, rc, sys', sys.jobs[k]);
      } else {
        UntouchedJobOk(sys, sys', sys.jobs[k]);
      }
    }
  }

  lemma EndedJobOk(sys: System, id: string, rc: int, sys': System, j: Job)
    requires EndStep(sys, id, rc, sys') && j.id == id && PlacesOk(sys, j) && KeyOk(sys, j)
    requires Grows(sys.accounts, sys'.accounts)
    ensures PlacesOk(sys', j) && KeyOk(sys', j)
  {
    hide NoneCarries, Keys, IsTag;
  }

  lemma CleanUpKeeps(sys: System, i: nat, id: string, revoked: bool, sys': System)
    requires Inv(sys) && CleanUpStep(sys, i, id, revoked, sys')
    ensures Inv(sys') && NoneLost(sys.accounts, sys'.accounts)
  {
    hide NoKey, IsTag, NoneLost, PlacesOk, KeyOk;
    JobParts(sys, i);
    var j := sys.jobs[i];
    CleanedJobOk(sys, i, id, revoked, sys');
    DeleteLeavesOther(sys.accounts, j.to, j.account, j.from);
    forall k | 0 <= k < |sys.jobs|
      ensures PlacesOk(sys', sys.jobs[k]) && KeyOk(sys', sys.jobs[k])
    {
      JobParts(sys, k);
      KeysIgnoreAccounts(sys, sys', sys.jobs[k]);
      if k != i {
        DeleteElsewhere(sys, j.to, j.account, sys.jobs[k]);
      }
    }
  }

  lemma CleanedJobOk(sys: System, i: nat, id: string, revoked: bool, sys': System)
    requires CleanUpStep(sys, i, id, revoked, sys') && PlacesOk(sys, sys.jobs[i])
    ensures PlacesOk(sys', sys.jobs[i])
    ensures sys.jobs[i].status == Running && sys.jobs[i].from != sys.jobs[i].to
    ensures ExistsOn(sys.accounts, sys.jobs[i].from, sys.jobs[i].account)
  {
    hide NoKey, IsTag;
  }

  lemma KeysIgnoreAccounts(sys: System, sys': System, j: Job)
    requires KeyOk(sys, j) && sys' == sys.(accounts := sys'.accounts) && sys'.accounts.Keys == sys.accounts.Keys
    ensures KeyOk(sys', j)
  {
    hide NoneCarries, Keys, IsTag;
    assert j.from in sys.accounts.Keys && j.to in sys.accounts.Keys;
  }

  lemma RestartKeeps(sys: System, sys': System)
    requires Inv(sys) && RestartStep(sys, sys')
    ensures Inv(sys')
  {
    hide IsTag, NoKey, JobsDistinct;
    forall k | 0 <= k < |sys.jobs|
      ensures PlacesOk(sys', sys.jobs[k]) && KeyOk(sys', sys.jobs[k])
    {
      JobParts(sys, k);
      var id := sys.jobs[k].id;
      if i :| 0 <= i < |sys.jobs| && sys.jobs[i].id == id && sys.jobs[i].status == Running {
        OnlyJob(sys, i, k);
        assert sys'.workers[id] == Watching;
      }
      RestartedKeyOk(sys, sys', sys.jobs[k]);
    }
  }

  lemma RestartedKeyOk(sys: System, sys': System, j: Job)
    requires KeyOk(sys, j) && sys' == sys.(workers := sys'.workers) && sys'.workers.Keys == sys.workers.Keys
    requires j.id in sys'.workers && (sys'.workers[j.id] == Watching || sys'.workers[j.id] == Gone)
    ensures KeyOk(sys', j)
  {
    hide NoneCarries, Keys, IsTag;
  }

  lemma FinishKeeps(sys: System, i: nat, id: string, deleteFromSource: bool, sys': System)
    requires Inv(sys) && FinishStep(sys, i, id, deleteFromSource, sys')
    ensures Inv(sys') && NoneLost(sys.accounts, sys'.accounts)
    ensures var j := sys.jobs[i];
            && (deleteFromSource ==> ExistsOn(sys'.accounts, j.to, j.account) && !ExistsOn(sys'.accounts, j.from, j.account))
            && (!deleteFromSource ==> ExistsOn(sys'.accounts, j.from, j.account) && !ExistsOn(sys'.accounts, j.to, j.account))
  {
    hide NoKey, IsTag, NoneLost, PlacesOk, KeyOk, JobsDistinct;
    JobParts(sys, i);
    var j := sys.jobs[i];
    var target := if deleteFromSource then j.from else j.to;
    var status := if deleteFromSource then Finalized else Cancelled;
    FinishedJobOk(sys, i, id, deleteFromSource, sys');
    DeleteLeavesOther(sys.accounts, target, j.account, if deleteFromSource then j.to else j.from);
    forall k | 0 <= k < |sys.jobs| && sys.jobs[k].id == id
      ensures Unfinished(sys.jobs[k])
    {
      OnlyJob(sys, i, k);
    }
    SetStatusDistinct(sys.jobs, id, status);
    forall k | 0 <= k < |sys.jobs|
      ensures PlacesOk(sys', sys'.jobs[k]) && KeyOk(sys', sys'.jobs[k])
    {
      JobParts(sys, k);
      if sys.jobs[k].id == id {
        OnlyJob(sys, i, k);
      } else {
        OtherAccount(sys, i, k);
        DeleteElsewhere(sys, target, j.account, sys.jobs[k]);
        SameJobOk(sys.(accounts := sys'.accounts), sys', sys.jobs[k]);
        KeysIgnoreAccounts(sys, sys.(accounts := sys'.accounts), sys.jobs[k]);
      }
    }
  }

  lemma OtherAccount(sys: System, i: nat, k: nat)
    requires JobsDistinct(sys.jobs) && i < |sys.jobs| && k < |sys.jobs| && i != k && Unfinished(sys.jobs[i])
    ensures Unfinished(sys.jobs[k]) ==> sys.jobs[k].account != sys.jobs[i].account
  {
  }

  lemma SameJobOk(sys: System, sys': System, j: Job)
    requires sys' == sys.(jobs := sys'.jobs)
    ensures PlacesOk(sys, j) ==> PlacesOk(sys', j)
    ensures KeyOk(sys, j) ==> KeyOk(sys', j)
  {
    hide NoneCarries, Keys, IsTag;
  }

  lemma FinishedJobOk(sys: System, i: nat, id: string, deleteFromSource: bool, sys': System)
    requires FinishStep(sys, i, id, deleteFromSource, sys') && PlacesOk(sys, sys.jobs[i]) && KeyOk(sys, sys.jobs[i])
    ensures PlacesOk(sys', sys'.jobs[i]) && KeyOk(sys', sys'.jobs[i])
    ensures var j := sys.jobs[i];
            && j.from != j.to && ExistsOn(sys.accounts, j.from, j.account) && ExistsOn(sys.accounts, j.to, j.account)
            && sys'.accounts.Keys == sys.accounts.Keys
  {
    hide NoneCarries, Keys, IsTag;
  }

  lemma MailKeyKeeps(sys: System, to: string, g: Grant, ok: bool, sys': System)
    requires Inv(sys) && MailKeyStep(sys, to, g, ok, sys')
    ensures Inv(sys')
  {
    hide NoKey, IsTag, PlacesOk, KeyOk, JobsDistinct, Authorized, AfterRevoke, ValidGrant;
    var granted := sys.(keys := sys.keys[to := Authorized(sys.keys[to], g)]);
    var during := granted.(workers := sys.workers[g.tag := Gone], transfers := sys.transfers[g.tag := NotStarted], revoked := sys.revoked[g.tag := false]);
    RevokeKeeps(during, to, g.tag, ok);
    forall k | 0 <= k < |sys.jobs|
      ensures PlacesOk(sys', sys.jobs[k]) && KeyOk(sys', sys.jobs[k])
    {
      JobParts(sys, k);
      var j := sys.jobs[k];
      JobKnown(sys, j);
      if NoKey(sys, j.to, j.id) {
        AuthorizeKeepsOthers(sys, to, g, j.to, j.id);
        NoKeySame(granted, during, j.to, j.id);
      }
      MailedJobOk(sys, to, g, ok, sys', j);
    }
  }

  lemma NoKeySame(a: System, b: System, server: string, tag: string)
    requires a.keys == b.keys && NoKey(a, server, tag)
    ensures NoKey(b, server, tag)
  {
  }

  lemma MailedJobOk(sys: System, to: string, g: Grant, ok: bool, sys': System, j: Job)
    requires MailKeyStep(sys, to, g, ok, sys') && PlacesOk(sys, j) && KeyOk(sys, j) && j.id in sys.workers
    requires NoKey(sys, j.to, j.id) ==> NoKey(sys', j.to, j.id)
    ensures PlacesOk(sys', j) && KeyOk(sys', j)
  {
    hide NoKey, IsTag, Authorized, Revoked, ValidGrant, PlacesOk, KeyOk, Grows, NoneLost;
    JobKnown(sys, j);
    SameAccounts(sys.accounts);
    assert j.to in sys.keys.Keys;
    UntouchedJobOk(sys, sys', j);
  }

  // All steps

  lemma NextKeeps(sys: System, sys': System)
    requires Inv(sys) && Next(sys, sys')
    ensures Inv(sys') && NoneLost(sys.accounts, sys'.accounts)
  {
    hide Inv, NoneLost, StartStep, FailEarlyStep, AuthorizeStep, TransferStep, TransferFailsStep, CopyStep, EndStep, SettleStep, CleanUpStep,
         FailStep, CopiedStep, RestartStep, FinishStep, MailKeyStep;
    SameAccounts(sys.accounts);
    if job :| StartStep(sys, job, sys') {
      StartKeeps(sys, job, sys');
      assert sys'.accounts == sys.accounts by { StartParts(sys, job, sys'); }
    } else if id :| CopyStep(sys, id, sys') {
      CopyKeeps(sys, id, sys');
    } else if id, rc :| EndStep(sys, id, rc, sys') {
      EndKeeps(sys, id, rc, sys');
    } else if i, id, revoked :| CleanUpStep(sys, i, id, revoked, sys') {
      CleanUpKeeps(sys, i, id, revoked, sys');
    } else if i, id, deleteFromSource :| FinishStep(sys, i, id, deleteFromSource, sys') {
      FinishKeeps(sys, i, id, deleteFromSource, sys');
    } else {
      NextQuietKeeps(sys, sys');
      QuietAccounts(sys, sys');
    }
  }

  lemma QuietAccounts(sys: System, sys': System)
    requires Quiet(sys, sys')
    ensures sys'.accounts == sys.accounts
  {
    hide HasJob, NoKey, Authorized, Revoked, ValidGrant, SetStatus, AfterRevoke, TransferFailed, IsTag;
  }

  lemma StartParts(sys: System, job: Job, sys': System)
    requires StartStep(sys, job, sys')
    ensures sys'.accounts == sys.accounts
  {
  }

  /** The steps that touch no account. */
  ghost predicate Quiet(sys: System, sys': System) {
    || (exists i, id :: FailEarlyStep(sys, i, id, sys'))
    || (exists i, id, g :: AuthorizeStep(sys, i, id, g, sys'))
    || (exists i, id :: TransferStep(sys, i, id, sys'))
    || (exists i, id, ok :: TransferFailsStep(sys, i, id, ok, sys'))
    || (exists i, id, ok, timedOut :: SettleStep(sys, i, id, ok, timedOut, sys'))
    || (exists i, id, revoked, timedOut :: FailStep(sys, i, id, revoked, timedOut, sys'))
    || (exists i, id, revoked :: CopiedStep(sys, i, id, revoked, sys'))
    || RestartStep(sys, sys')
    || (exists to, g, ok :: MailKeyStep(sys, to, g, ok, sys'))
  }

  lemma NextQuietKeeps(sys: System, sys': System)
    requires Inv(sys) && Quiet(sys, sys')
    ensures Inv(sys')
  {
    hide Inv, FailEarlyStep, AuthorizeStep, TransferStep, TransferFailsStep, SettleStep, FailStep, CopiedStep, RestartStep, MailKeyStep;
    if i, id :| FailEarlyStep(sys, i, id, sys') {
      FailEarlyKeeps(sys, i, id, sys');
    } else if i, id, g :| AuthorizeStep(sys, i, id, g, sys') {
      AuthorizeKeeps(sys, i, id, g, sys');
    } else if i, id :| TransferStep(sys, i, id, sys') {
      TransferKeeps(sys, i, id, sys');
    } else if i, id, ok :| TransferFailsStep(sys, i, id, ok, sys') {
      TransferFailsKeeps(sys, i, id, ok, sys');
    } else if i, id, ok, timedOut :| SettleStep(sys, i, id, ok, timedOut, sys') {
      SettleKeeps(sys, i, id, ok, timedOut, sys');
    } else if i, id, revoked, timedOut :| FailStep(sys, i, id, revoked, timedOut, sys') {
      FailKeeps(sys, i, id, revoked, timedOut, sys');
    } else if i, id, revoked :| CopiedStep(sys, i, id, revoked, sys') {
      CopiedKeeps(sys, i, id, revoked, sys');
    } else if RestartStep(sys, sys') {
      RestartKeeps(sys, sys');
    } else {
      var to, g, ok :| MailKeyStep(sys, to, g, ok, sys');
      MailKeyKeeps(sys, to, g, ok, sys');
    }
  }

  // Runs

  ghost predicate Init(sys: System) {
    sys.jobs == [] && sys.workers == map[] && sys.transfers == map[] && sys.revoked == map[]
  }

  ghost predicate Run(trace: seq<System>) {
    && trace != [] && Init(trace[0])
    && forall i | 0 <= i < |trace| - 1 :: Next(trace[i], trace[i + 1])
  }

  lemma {:induction false} RunKeeps(trace: seq<System>, i: nat)
    requires Run(trace) && i < |trace|
    ensures Inv(trace[i]) && NoneLost(trace[0].accounts, trace[i].accounts)
  {
    hide Next;
    if i > 0 {
      RunKeeps(trace, i - 1);
      assert Next(trace[i - 1], trace[i - 1 + 1]);
      NextKeeps(trace[i - 1], trace[i]);
    }
  }

  /** Over any run of moves, restarts, failures and lost calls, every account that some
      server had still exists on some server. */
  lemma AccountsAreNeverLost(trace: seq<System>, i: nat, account: string)
    requires Run(trace) && i < |trace| && Somewhere(trace[0].accounts, account)
    ensures Somewhere(trace[i].accounts, account)
  {
    hide Run, Somewhere;
    RunKeeps(trace, i);
  }

  /** No account has two unfinished moves, an unfinished move still has its source copy,
      and a copied one has both. */
  lemma UnfinishedMovesAreSafe(trace: seq<System>, n: nat, i: nat, k: nat)
    requires Run(trace) && n < |trace| && i < |trace[n].jobs| && k < |trace[n].jobs|
    requires Unfinished(trace[n].jobs[i])
    ensures Unfinished(trace[n].jobs[k]) && trace[n].jobs[k].account == trace[n].jobs[i].account ==> i == k
    ensures ExistsOn(trace[n].accounts, trace[n].jobs[i].from, trace[n].jobs[i].account)
    ensures trace[n].jobs[i].status == Copied ==> ExistsOn(trace[n].accounts, trace[n].jobs[i].to, trace[n].jobs[i].account)
  {
    hide Run, KeyOk, NoKey;
    RunKeeps(trace, n);
    JobParts(trace[n], i);
  }

  /** Once a move is over and its revoke call succeeded, the destination accepts no key
      with its tag. */
  lemma AccessEndsWithTheMove(trace: seq<System>, n: nat, i: nat)
    requires Run(trace) && n < |trace| && i < |trace[n].jobs|
    requires trace[n].jobs[i].status != Running
    ensures trace[n].jobs[i].id in trace[n].revoked && trace[n].jobs[i].to in trace[n].keys
    ensures trace[n].revoked[trace[n].jobs[i].id] ==>
              NoneCarries(Keys(trace[n].keys[trace[n].jobs[i].to]), trace[n].jobs[i].id)
  {
    hide Run, NoneCarries, PlacesOk, IsTag;
    RunKeeps(trace, n);
    JobParts(trace[n], i);
  }

  // Status order

  predicate Follows(a: Status, b: Status) {
    || a == b
    || (a == Running && (b == Copied || b == Failed))
    || (a == Copied && (b == Finalized || b == Cancelled))
  }

  /** A job that is on the list before and after a step keeps its status or moves one
      arrow on: running to copied or failed, copied to finalized or cancelled. */
  lemma StatusesFollow(sys: System, sys': System, i: nat, k: nat)
    requires Inv(sys) && Next(sys, sys')
    requires i < |sys.jobs| && k < |sys'.jobs| && sys.jobs[i].id == sys'.jobs[k].id
    ensures Follows(sys.jobs[i].status, sys'.jobs[k].status)
  {
    if job :| StartStep(sys, job, sys') {
      StartFollows(sys, job, sys', i, k);
    } else {
      hide NoKey, Authorized, Revoked, ValidGrant, IsTag, StartStep, KeyOk, Create, Delete;
      JobParts(sys, i);
      StepFollows(sys, sys', i, k);
    }
  }

  lemma StartFollows(sys: System, job: Job, sys': System, i: nat, k: nat)
    requires Inv(sys) && StartStep(sys, job, sys')
    requires i < |sys.jobs| && k < |sys'.jobs| && sys.jobs[i].id == sys'.jobs[k].id
    ensures Follows(sys.jobs[i].status, sys'.jobs[k].status)
  {
    hide NoKey, IsTag, KeyOk;
    JobParts(sys, i);
    var all := sys.jobs + [job];
    var c := |all| - |sys'.jobs|;
    assert sys'.jobs[k] == all[c + k];
    if c + k < |sys.jobs| {
      OnlyJob(sys, i, c + k);
    }
  }

  /** Only four kinds of steps rewrite the list, each for one job in a given status. */
  lemma StepFollows(sys: System, sys': System, i: nat, k: nat)
    requires Inv(sys) && (Quiet(sys, sys') || (exists id :: CopyStep(sys, id, sys')) || (exists id, rc :: EndStep(sys, id, rc, sys'))
                          || (exists i, id, revoked :: CleanUpStep(sys, i, id, revoked, sys'))
                          || (exists i, id, deleteFromSource :: FinishStep(sys, i, id, deleteFromSource, sys')))
    requires i < |sys.jobs| && k < |sys'.jobs| && sys.jobs[i].id == sys'.jobs[k].id
    ensures Follows(sys.jobs[i].status, sys'.jobs[k].status)
  {
    hide NoKey, Authorized, Revoked, ValidGrant, IsTag, KeyOk, Create, Delete, MailKeyStep, AuthorizeStep, SettleStep, TransferStep, RestartStep, AfterRevoke;
    JobParts(sys, i);
    assert sys'.jobs == sys.jobs || exists j, id, status :: Rewrites(sys, j, id, status, sys') by {
      hide Inv;
      ListRewritten(sys, sys');
    }
    if sys'.jobs == sys.jobs {
      OnlyJob(sys, i, k);
    } else {
      var j, id, status :| Rewrites(sys, j, id, status, sys');
      OnlyJob(sys, i, k);
      if sys.jobs[i].id == id {
        OnlyJob(sys, i, j);
        JobParts(sys, j);
      }
    }
  }

  ghost predicate Rewrites(sys: System, j: nat, id: string, status: Status, sys': System) {
    && j < |sys.jobs| && sys.jobs[j].id == id && sys'.jobs == SetStatus(sys.jobs, id, status)
    && (|| (status in {Failed, Copied} && id in sys.workers && sys.workers[id] != Gone)
        || (status in {Finalized, Cancelled} && sys.jobs[j].status == Copied))
  }

  lemma ListRewritten(sys: System, sys': System)
    requires Quiet(sys, sys') || (exists id :: CopyStep(sys, id, sys')) || (exists id, rc :: EndStep(sys, id, rc, sys'))
             || (exists i, id, revoked :: CleanUpStep(sys, i, id, revoked, sys'))
             || (exists i, id, deleteFromSource :: FinishStep(sys, i, id, deleteFromSource, sys'))
    ensures sys'.jobs == sys.jobs || exists j, id, status :: Rewrites(sys, j, id, status, sys')
  {
    hide NoKey, Authorized, Revoked, ValidGrant, IsTag, Create, Delete, AfterRevoke, SetStatus, TransferFailed;
    if i, id, deleteFromSource :| FinishStep(sys, i, id, deleteFromSource, sys') {
      assert Rewrites(sys, i, id, if deleteFromSource then Finalized else Cancelled, sys');
    } else if Quiet(sys, sys') {
      QuietRewrites(sys, sys');
    }
  }

  lemma QuietRewrites(sys: System, sys': System)
    requires Quiet(sys, sys')
    ensures sys'.jobs == sys.jobs || exists j, id, status :: Rewrites(sys, j, id, status, sys')
  {
    hide NoKey, Authorized, Revoked, ValidGrant, IsTag, AfterRevoke, SetStatus, TransferFailed;
    if i, id :| FailEarlyStep(sys, i, id, sys') {
      assert Rewrites(sys, i, id, Failed, sys');
    } else if i, id, ok :| TransferFailsStep(sys, i, id, ok, sys') {
      assert Rewrites(sys, i, id, Failed, sys');
    } else if i, id, revoked, timedOut :| FailStep(sys, i, id, revoked, timedOut, sys') {
      assert Rewrites(sys, i, id, Failed, sys');
    } else if i, id, revoked :| CopiedStep(sys, i, id, revoked, sys') {
      assert Rewrites(sys, i, id, Copied, sys');
    }
  }
}
