/** internal/cluster/health.go: a server only goes offline after several failed polls in
    a row, and the admin is told once each way. */
module Health {
  import opened Text
  import opened Ordering

  const OFFLINE_AFTER := 3

  /** One server's row; report stands for everything else a poll brings. */
  datatype Row = Row(online: bool, report: string)

  datatype Notice = Offline | BackOnline

  type Rows = map<string, Row>

  function Count(fails: map<string, nat>, id: string): nat {
    if id in fails then fails[id] else 0
  }

  function FailsAfter(fails: map<string, nat>, polled: Rows): map<string, nat> {
    map id | id in polled && !polled[id].online :: Count(fails, id) + 1
  }

  /** One slow answer isn't an outage: the last good row stays meanwhile. */
  function Shown(health: Rows, fails: map<string, nat>, id: string, row: Row): Row {
    if !row.online && id in health && health[id].online && Count(fails, id) + 1 < OFFLINE_AFTER then health[id] else row
  }

  function HealthAfter(health: Rows, fails: map<string, nat>, polled: Rows): Rows {
    map id | id in polled :: Shown(health, fails, id, polled[id])
  }

  function NoticeFor(before: Rows, after: Rows, id: string): Option<Notice> {
    if id !in after then None
    else if !after[id].online && (id !in before || before[id].online) then Some(Offline)
    else if after[id].online && id in before && !before[id].online then Some(BackOnline)
    else None
  }

  class Monitor {
    var health: Rows
    var fails: map<string, nat>

    /** Saves a poll and returns the previous one; polled is changed on the way. */
    method StoreHealth(polled: Rows) returns (before: Rows, rows: Rows)
      modifies this
      ensures before == old(health)
      ensures health == rows == HealthAfter(old(health), old(fails), polled)
      ensures fails == FailsAfter(old(fails), polled)
    {
      before := health;
      rows := polled;
      var newFails: map<string, nat> := map[];
      var rest := polled.Keys;
      while rest != {}
        invariant rest <= polled.Keys
        invariant health == before == old(health) && fails == old(fails)
        invariant rows.Keys == polled.Keys
        invariant forall id | id in polled :: rows[id] == if id in rest then polled[id] else Shown(health, fails, id, polled[id])
        invariant forall id :: id in newFails <==> id in polled && !polled[id].online && id !in rest
        invariant forall id | id in newFails :: newFails[id] == Count(fails, id) + 1
        decreases rest
      {
        var id :| id in rest;
        rest := rest - {id};
        if !rows[id].online {
          newFails := newFails[id := Count(fails, id) + 1];
          if id in before && before[id].online && newFails[id] < OFFLINE_AFTER {
            rows := rows[id := before[id]];
          }
        }
      }
      assert newFails == FailsAfter(fails, polled);
      assert rows == HealthAfter(health, fails, polled);
      fails := newFails;
      health := rows;
    }

    /** One poll of all servers, and the notices it causes. */
    method RefreshHealth(polled: Rows) returns (notices: seq<(string, Notice)>)
      modifies this
      ensures health == HealthAfter(old(health), old(fails), polled) && fails == FailsAfter(old(fails), polled)
      ensures forall id, kind :: (id, kind) in notices <==> NoticeFor(old(health), health, id) == Some(kind)
    {
      var before, rows := StoreHealth(polled);
      notices := [];
      var ids := RangeKeys(rows);
      for n := 0 to |ids|
        invariant health == rows == HealthAfter(old(health), old(fails), polled) && fails == FailsAfter(old(fails), polled)
        invariant forall id, kind :: (id, kind) in notices <==> id in ids[..n] && NoticeFor(before, rows, id) == Some(kind)
      {
        hide HealthAfter, FailsAfter;
        var id := ids[n];
        assert ids[..n + 1] == ids[..n] + [id];
        if !rows[id].online && (id !in before || before[id].online) {
          notices := notices + [(id, Offline)];
        } else if rows[id].online && id in before && !before[id].online {
          notices := notices + [(id, BackOnline)];
        }
      }
      assert ids[..|ids|] == ids;
    }
  }

  // Runs of polls

  function HealthAt(polls: seq<Rows>): Rows
  {
    if polls == [] then map[]
    else HealthAfter(HealthAt(polls[..|polls| - 1]), FailsAt(polls[..|polls| - 1]), polls[|polls| - 1])
  }

  function FailsAt(polls: seq<Rows>): map<string, nat>
  {
    if polls == [] then map[] else FailsAfter(FailsAt(polls[..|polls| - 1]), polls[|polls| - 1])
  }

  /** How many of the last polls in a row included the server. */
  function Streak(polls: seq<Rows>, id: string): nat {
    if polls == [] || id !in polls[|polls| - 1] then 0 else 1 + Streak(polls[..|polls| - 1], id)
  }

  /** How many of the last polls in a row failed. */
  function FailRun(polls: seq<Rows>, id: string): nat {
    if polls == [] || id !in polls[|polls| - 1] || polls[|polls| - 1][id].online then 0
    else 1 + FailRun(polls[..|polls| - 1], id)
  }

  lemma {:induction false} RunsAre(polls: seq<Rows>, id: string)
    ensures FailRun(polls, id) <= Streak(polls, id) <= |polls|
    ensures Count(FailsAt(polls), id) == FailRun(polls, id)
    ensures id in HealthAt(polls) <==> Streak(polls, id) > 0
    ensures id in HealthAt(polls) ==>
              (HealthAt(polls)[id].online <==> FailRun(polls, id) < OFFLINE_AFTER && FailRun(polls, id) < Streak(polls, id))
    decreases |polls|
  {
    if polls != [] {
      RunsAre(polls[..|polls| - 1], id);
    }
  }

  /** The poll k rounds ago was answered. */
  predicate AnsweredAgo(polls: seq<Rows>, id: string, k: nat) {
    k < |polls| && id in polls[|polls| - 1 - k] && polls[|polls| - 1 - k][id].online
  }

  /** One of the last few polls, and of the polls since the server was last left out,
      was answered. */
  ghost predicate AnsweredLately(polls: seq<Rows>, id: string, window: nat) {
    exists k | 0 <= k < window && k < Streak(polls, id) :: AnsweredAgo(polls, id, k)
  }

  lemma AnsweredBefore(polls: seq<Rows>, id: string, window: nat)
    requires polls != [] && id in polls[|polls| - 1] && !polls[|polls| - 1][id].online && window > 0
    ensures AnsweredLately(polls, id, window) <==> AnsweredLately(polls[..|polls| - 1], id, window - 1)
  {
    var before := polls[..|polls| - 1];
    assert forall k | 0 <= k < window - 1 :: AnsweredAgo(polls, id, k + 1) <==> AnsweredAgo(before, id, k);
    if AnsweredLately(before, id, window - 1) {
      var k :| 0 <= k < window - 1 && k < Streak(before, id) && AnsweredAgo(before, id, k);
      assert AnsweredAgo(polls, id, k + 1);
    }
    if AnsweredLately(polls, id, window) {
      var k :| 0 <= k < window && k < Streak(polls, id) && AnsweredAgo(polls, id, k);
      assert AnsweredAgo(before, id, k - 1);
    }
  }

  lemma {:induction false} AnsweredIffShortFailRun(polls: seq<Rows>, id: string, window: nat)
    ensures AnsweredLately(polls, id, window) <==> FailRun(polls, id) < window && FailRun(polls, id) < Streak(polls, id)
    decreases |polls|
  {
    if polls != [] && id in polls[|polls| - 1] && window > 0 {
      if polls[|polls| - 1][id].online {
        assert AnsweredAgo(polls, id, 0);
      } else {
        hide AnsweredLately;
        AnsweredBefore(polls, id, window);
        AnsweredIffShortFailRun(polls[..|polls| - 1], id, window - 1);
      }
    }
  }

  /** A server that is polled is shown online exactly when one of its last three polls
      was answered, counting from when it was last left out of the polls. */
  lemma OnlineIsASlidingWindow(polls: seq<Rows>, id: string)
    requires polls != [] && id in polls[|polls| - 1]
    ensures id in HealthAt(polls)
    ensures HealthAt(polls)[id].online <==> AnsweredLately(polls, id, 3)
  {
    hide HealthAt, FailsAt, AnsweredLately;
    RunsAre(polls, id);
    AnsweredIffShortFailRun(polls, id, OFFLINE_AFTER);
  }

  /** The row that is shown is the one of the last poll; only while failures in a row are
      fewer than three and an answer came before them, it is the row of that answer. */
  lemma {:induction false} ShownRow(polls: seq<Rows>, id: string)
    requires polls != [] && id in polls[|polls| - 1]
    ensures FailRun(polls, id) <= |polls| && id in HealthAt(polls)
    ensures var n, fails := |polls| - 1, FailRun(polls, id);
            if fails < 3 && fails < Streak(polls, id) then
              fails <= n && id in polls[n - fails] && polls[n - fails][id].online && HealthAt(polls)[id] == polls[n - fails][id]
            else HealthAt(polls)[id] == polls[n][id]
    decreases |polls|
  {
    hide HealthAt, FailsAt;
    var before := polls[..|polls| - 1];
    RunsAre(polls, id);
    RunsAre(before, id);
    HealthStep(polls, id);
    if before != [] && id in before[|before| - 1] {
      ShownRow(before, id);
    }
  }

  lemma HealthStep(polls: seq<Rows>, id: string)
    requires polls != [] && id in polls[|polls| - 1]
    ensures var before := polls[..|polls| - 1];
            id in HealthAt(polls) && HealthAt(polls)[id] == Shown(HealthAt(before), FailsAt(before), id, polls[|polls| - 1][id])
  {
  }

  // Notices

  function NoticeAt(polls: seq<Rows>, id: string): Option<Notice>
    requires polls != []
  {
    NoticeFor(HealthAt(polls[..|polls| - 1]), HealthAt(polls), id)
  }

  /** An offline notice goes out at the first poll if it fails, and otherwise at exactly
      the third failure in a row after an answer; a back-online notice at the first
      answer after that. */
  lemma NoticesExactly(polls: seq<Rows>, id: string)
    requires polls != [] && id in polls[|polls| - 1]
    ensures var before := polls[..|polls| - 1]; var fails, streak := FailRun(polls, id), Streak(polls, id);
            && (NoticeAt(polls, id) == Some(Offline) <==> (streak == 1 && fails == 1) || (fails == 3 && streak > 3))
            && (NoticeAt(polls, id) == Some(BackOnline) <==>
                  polls[|polls| - 1][id].online && Streak(before, id) > 0
                  && (FailRun(before, id) >= 3 || FailRun(before, id) == Streak(before, id)))
  {
    hide HealthAt, FailsAt;
    RunsAre(polls, id);
    RunsAre(polls[..|polls| - 1], id);
  }

  /** The notices about one server during the last n polls. */
  function Notices(polls: seq<Rows>, id: string, n: nat): seq<Notice> {
    if n == 0 || polls == [] then []
    else
      var before := Notices(polls[..|polls| - 1], id, n - 1);
      match NoticeAt(polls, id)
      case None => before
      case Some(kind) => before + [kind]
  }

  predicate Alternates(ns: seq<Notice>) {
    forall i | 0 <= i < |ns| :: ns[i] == if i % 2 == 0 then Offline else BackOnline
  }

  /** While a server is polled without interruption, its notices strictly alternate,
      starting with offline, and an odd number means it is shown offline. */
  lemma {:induction false} NoticesAlternate(polls: seq<Rows>, id: string)
    ensures Alternates(Notices(polls, id, Streak(polls, id)))
    ensures id in HealthAt(polls) ==>
              (|Notices(polls, id, Streak(polls, id))| % 2 == 1 <==> !HealthAt(polls)[id].online)
    decreases |polls|
  {
    hide HealthAfter, FailsAfter;
    RunsAre(polls, id);
    if Streak(polls, id) > 0 {
      var before := polls[..|polls| - 1];
      NoticesAlternate(before, id);
      RunsAre(before, id);
    }
  }
}
