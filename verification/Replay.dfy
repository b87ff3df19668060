/** internal/cluster/cluster.go: accepting the master's signed calls once. Times are
    nanoseconds of a monotone clock; claims carry whole seconds. */
module Replay {

  const SECOND := 1_000_000_000
  const CLAIM_TTL := 60

  datatype Claims = Claims(aud: string, action: string, iat: int, exp: int, jti: string)

  /** One call as it arrives. */
  datatype Arrival = Arrival(claims: Claims, signed: bool, now: nat)

  function Unix(now: nat): int {
    now / SECOND
  }

  /** What sign puts into a claim at a given time on the master. */
  function Issued(aud: string, action: string, jti: string, now: nat): Claims {
    Claims(aud, action, Unix(now), Unix(now + CLAIM_TTL * SECOND), jti)
  }

  predicate InTime(c: Claims, now: nat) {
    Unix(now) <= c.exp && c.iat <= Unix(now + CLAIM_TTL * SECOND)
  }

  /** Every check but the one for replays. */
  predicate Genuine(a: Arrival, nodeID: string) {
    a.signed && a.claims.aud == nodeID && InTime(a.claims, a.now)
  }

  /** When a seen id is forgotten; pad is how long after the claim expired. */
  function Forget(c: Claims, pad: int): int {
    c.exp * SECOND + pad
  }

  const PAD := CLAIM_TTL * SECOND

  function Purged(seen: map<string, int>, now: nat): map<string, int> {
    map k | k in seen && now <= seen[k] :: seen[k]
  }

  predicate Accepts(seen: map<string, int>, a: Arrival, nodeID: string) {
    Genuine(a, nodeID) && a.claims.jti !in Purged(seen, a.now)
  }

  function SeenAfter(seen: map<string, int>, a: Arrival, nodeID: string, pad: int): map<string, int> {
    if !Genuine(a, nodeID) then seen
    else if a.claims.jti in Purged(seen, a.now) then Purged(seen, a.now)
    else Purged(seen, a.now)[a.claims.jti := Forget(a.claims, pad)]
  }

  class Verifier {
    var seen: map<string, int>

    method Verify(a: Arrival, nodeID: string) returns (ok: bool)
      modifies this
      ensures ok == Accepts(old(seen), a, nodeID)
      ensures seen == SeenAfter(old(seen), a, nodeID, PAD)
      ensures ok <==>
                && a.signed && a.claims.aud == nodeID
                && a.now / 1_000_000_000 <= a.claims.exp && a.claims.iat <= a.now / 1_000_000_000 + 60
                && (a.claims.jti in old(seen) ==> old(seen)[a.claims.jti] < a.now)
      ensures !a.signed || a.claims.aud != nodeID || a.now / 1_000_000_000 > a.claims.exp || a.claims.iat > a.now / 1_000_000_000 + 60 ==>
                seen == old(seen)
      ensures ok ==> a.claims.jti in seen && seen[a.claims.jti] == (a.claims.exp + 60) * 1_000_000_000
      ensures forall k | k in old(seen) && a.now <= old(seen)[k] :: k in seen && seen[k] == old(seen)[k]
    {
      UnixShift(a.now);
      if !a.signed {
        return false;
      }
      var c := a.claims;
      if c.aud != nodeID || Unix(a.now) > c.exp || c.iat > Unix(a.now + CLAIM_TTL * SECOND) {
        return false;
      }
      var keys := seen.Keys;
      ghost var before := seen;
      while keys != {}
        invariant keys <= before.Keys
        invariant seen == map k | k in before && (k in keys || a.now <= before[k]) :: before[k]
        decreases keys
      {
        var k :| k in keys;
        if a.now > seen[k] {
          seen := seen - {k};
        }
        keys := keys - {k};
      }
      if c.jti in seen {
        return false;
      }
      seen := seen[c.jti := (c.exp + CLAIM_TTL) * SECOND];
      ok := true;
    }
  }

  // Runs of one process

  predicate Monotone(run: seq<Arrival>) {
    forall i, j | 0 <= i < j < |run| :: run[i].now <= run[j].now
  }

  function SeenAt(run: seq<Arrival>, nodeID: string, pad: int, n: nat): map<string, int>
    requires n <= |run|
  {
    if n == 0 then map[] else SeenAfter(SeenAt(run, nodeID, pad, n - 1), run[n - 1], nodeID, pad)
  }

  predicate AcceptedAt(run: seq<Arrival>, nodeID: string, pad: int, n: nat)
    requires n < |run|
  {
    Accepts(SeenAt(run, nodeID, pad, n), run[n], nodeID)
  }

  /** The id was used by a call accepted before the n-th, not yet forgotten at time t. */
  ghost predicate UsedBefore(run: seq<Arrival>, nodeID: string, pad: int, n: nat, jti: string, t: nat)
    requires n <= |run|
  {
    exists m | 0 <= m < n :: AcceptedAt(run, nodeID, pad, m) && run[m].claims.jti == jti && t <= Forget(run[m].claims, pad)
  }

  /** The lazily purged map and the full history agree on every id, now and later. */
  lemma {:induction false} SeenIsHistory(run: seq<Arrival>, nodeID: string, pad: int, n: nat, jti: string, t: nat)
    requires Monotone(run) && n <= |run| && (n > 0 ==> run[n - 1].now <= t)
    ensures var seen := SeenAt(run, nodeID, pad, n);
            jti in seen && t <= seen[jti] <==> UsedBefore(run, nodeID, pad, n, jti, t)
  {
    hide Genuine, UsedBefore;
    if n == 0 {
      NothingUsed(run, nodeID, pad, jti, t);
    } else {
      var a, before := run[n - 1], SeenAt(run, nodeID, pad, n - 1);
      SeenIsHistory(run, nodeID, pad, n - 1, jti, t);
      if AcceptedAt(run, nodeID, pad, n - 1) && a.claims.jti == jti {
        SeenIsHistory(run, nodeID, pad, n - 1, jti, a.now);
        ForgottenStays(run, nodeID, pad, n - 1, jti, a.now, t);
        UsedSnoc(run, nodeID, pad, n, jti, t);
      } else {
        UsedSnoc(run, nodeID, pad, n, jti, t);
      }
    }
  }

  lemma NothingUsed(run: seq<Arrival>, nodeID: string, pad: int, jti: string, t: nat)
    ensures !UsedBefore(run, nodeID, pad, 0, jti, t)
  {
  }

  lemma ForgottenStays(run: seq<Arrival>, nodeID: string, pad: int, n: nat, jti: string, t: nat, later: nat)
    requires n <= |run| && t <= later && !UsedBefore(run, nodeID, pad, n, jti, t)
    ensures !UsedBefore(run, nodeID, pad, n, jti, later)
  {
    hide AcceptedAt;
    assert forall m | 0 <= m < n && AcceptedAt(run, nodeID, pad, m) && run[m].claims.jti == jti :: t > Forget(run[m].claims, pad);
  }

  lemma UsedSnoc(run: seq<Arrival>, nodeID: string, pad: int, n: nat, jti: string, t: nat)
    requires 0 < n <= |run|
    ensures UsedBefore(run, nodeID, pad, n, jti, t) <==>
            UsedBefore(run, nodeID, pad, n - 1, jti, t)
            || (AcceptedAt(run, nodeID, pad, n - 1) && run[n - 1].claims.jti == jti && t <= Forget(run[n - 1].claims, pad))
  {
    hide AcceptedAt, Forget;
  }

  /** An accepted call before the n-th still holds the id at time t. */
  ghost predicate HeldBefore(run: seq<Arrival>, nodeID: string, pad: int, n: nat, jti: string, t: nat)
    requires n <= |run|
  {
    exists m | 0 <= m < n :: AcceptedAt(run, nodeID, pad, m) && run[m].claims.jti == jti && t <= run[m].claims.exp * 1_000_000_000 + pad
  }

  /** A call is accepted exactly when the master signed it for this server, it is neither
      expired nor from more than a minute ahead, and no call accepted before in this run
      still holds its id. */
  lemma AcceptedExactly(run: seq<Arrival>, nodeID: string, pad: int, n: nat)
    requires Monotone(run) && n < |run|
    ensures AcceptedAt(run, nodeID, pad, n) <==>
              && run[n].signed && run[n].claims.aud == nodeID
              && run[n].now / 1_000_000_000 <= run[n].claims.exp && run[n].claims.iat <= run[n].now / 1_000_000_000 + 60
              && !HeldBefore(run, nodeID, pad, n, run[n].claims.jti, run[n].now)
  {
    hide SeenAt, AcceptedAt;
    SeenIsHistory(run, nodeID, pad, n, run[n].claims.jti, run[n].now);
    AcceptedIs(run, nodeID, pad, n);
    UnixShift(run[n].now);
    UsedIsHeld(run, nodeID, pad, n, run[n].claims.jti, run[n].now);
  }

  lemma AcceptedIs(run: seq<Arrival>, nodeID: string, pad: int, n: nat)
    requires n < |run|
    ensures AcceptedAt(run, nodeID, pad, n) <==>
            Genuine(run[n], nodeID) && !(run[n].claims.jti in SeenAt(run, nodeID, pad, n) && run[n].now <= SeenAt(run, nodeID, pad, n)[run[n].claims.jti])
  {
    hide Genuine, SeenAt;
  }

  lemma UsedIsHeld(run: seq<Arrival>, nodeID: string, pad: int, n: nat, jti: string, t: nat)
    requires n <= |run|
    ensures UsedBefore(run, nodeID, pad, n, jti, t) <==> HeldBefore(run, nodeID, pad, n, jti, t)
  {
    hide AcceptedAt;
  }

  ghost predicate NeverTwice(run: seq<Arrival>, nodeID: string, pad: int) {
    forall m, n | 0 <= m < n < |run| && run[m].claims == run[n].claims ::
      !(AcceptedAt(run, nodeID, pad, m) && AcceptedAt(run, nodeID, pad, n))
  }

  lemma UnixBound(now: nat, exp: int)
    ensures Unix(now) <= exp <==> now <= exp * SECOND + (SECOND - 1)
  {
  }

  lemma PaddedNeverTwice(run: seq<Arrival>, nodeID: string, pad: int)
    requires Monotone(run) && pad >= SECOND - 1
    ensures NeverTwice(run, nodeID, pad)
  {
    hide AcceptedAt, Unix;
    forall m, n | 0 <= m < n < |run| && run[m].claims == run[n].claims && AcceptedAt(run, nodeID, pad, m)
      ensures !AcceptedAt(run, nodeID, pad, n)
    {
      AcceptedExactly(run, nodeID, pad, n);
      UnixBound(run[n].now, run[n].claims.exp);
    }
  }

  /** In any run of one process no signed claim is accepted twice: an id is forgotten a
      minute after its claim expired, so the whole-second rounding of the clock leaves
      no gap. */
  lemma NoClaimTwice(run: seq<Arrival>, nodeID: string)
    requires Monotone(run)
    ensures NeverTwice(run, nodeID, PAD)
  {
    PaddedNeverTwice(run, nodeID, PAD);
  }

  /** Forgetting ids earlier would open one: the safe paddings are exactly those of at
      least a second less a nanosecond. */
  lemma PaddingThreshold(pad: int)
    ensures (forall run, nodeID | Monotone(run) :: NeverTwice(run, nodeID, pad)) <==> pad >= SECOND - 1
  {
    if pad >= SECOND - 1 {
      forall run, nodeID | Monotone(run)
        ensures NeverTwice(run, nodeID, pad)
      {
        PaddedNeverTwice(run, nodeID, pad);
      }
    } else {
      var c := Claims("n", "", 0, 0, "id");
      var t: nat := if pad < 0 then 0 else pad + 1;
      var run := [Arrival(c, true, 0), Arrival(c, true, t)];
      TwiceWithin(run, c, pad, t);
    }
  }

  lemma TwiceWithin(run: seq<Arrival>, c: Claims, pad: int, t: nat)
    requires c == Claims("n", "", 0, 0, "id") && run == [Arrival(c, true, 0), Arrival(c, true, t)]
    requires pad < t < SECOND
    ensures Monotone(run) && !NeverTwice(run, "n", pad)
  {
    assert Genuine(run[0], "n") && Genuine(run[1], "n");
    assert AcceptedAt(run, "n", pad, 0);
    assert SeenAt(run, "n", pad, 1) == map["id" := pad];
    assert AcceptedAt(run, "n", pad, 1);
  }

  /** A claim signed by a master whose clock reads t is in time at a slave whose clock
      reads now exactly when the two differ by at most sixty whole seconds. */
  lemma ClockWindow(aud: string, action: string, jti: string, t: nat, now: nat)
    ensures InTime(Issued(aud, action, jti, t), now) <==> -60 <= now / 1_000_000_000 - t / 1_000_000_000 <= 60
    ensures Issued(aud, action, jti, t) == Claims(aud, action, t / 1_000_000_000, t / 1_000_000_000 + 60, jti)
  {
    UnixShift(t);
    UnixShift(now);
  }

  lemma UnixShift(now: nat)
    ensures Unix(now + CLAIM_TTL * SECOND) == Unix(now) + CLAIM_TTL
  {
  }
}
