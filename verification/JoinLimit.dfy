/** internal/cluster/routes.go: the limit on guesses at a join code. Times are in
    nanoseconds. */
module JoinLimit {
  import opened Text

  const MINUTE := 60_000_000_000
  const PER_WINDOW := 10

  /** The two clock readings of one call, in the order they are taken. */
  datatype Call = Call(checked: int, now: int)

  predicate InOrder(c: Call) {
    c.checked <= c.now
  }

  /** last is None before the first call, when it is the zero time. */
  datatype Window = Window(last: Option<int>, count: nat)

  const CLOSED := Window(None, 0)

  predicate Opens(w: Window, c: Call) {
    w.last.None? || c.checked - w.last.value > MINUTE
  }

  function Try(w: Window, c: Call): Window {
    if Opens(w, c) then Window(Some(c.now), 1) else Window(w.last, w.count + 1)
  }

  predicate Admits(w: Window, c: Call) {
    Try(w, c).count <= PER_WINDOW
  }

  class JoinAttempts {
    var last: Option<int>
    var count: nat

    function State(): Window
      reads this
    {
      Window(last, count)
    }

    constructor ()
      ensures State() == CLOSED
    {
      last, count := None, 0;
    }

    method JoinAllowed(c: Call) returns (allowed: bool)
      requires InOrder(c)
      modifies this
      ensures State() == Try(old(State()), c) && allowed == Admits(old(State()), c)
      ensures var opens := old(last).None? || c.checked - old(last).value > 60_000_000_000;
              && count == (if opens then 1 else old(count) + 1) && last == (if opens then Some(c.now) else old(last)) && (allowed <==> count <= 10)
      ensures old(last).Some? && last != old(last) ==> last.Some? && last.value - old(last).value > MINUTE
    {
      if last.None? || c.checked - last.value > MINUTE {
        last, count := Some(c.now), 0;
      }
      count := count + 1;
      allowed := count <= PER_WINDOW;
    }
  }

  function After(w: Window, calls: seq<Call>): Window
    decreases |calls|
  {
    if calls == [] then w else After(Try(w, calls[0]), calls[1..])
  }

  /** How many of the calls are let through. */
  function Admitted(w: Window, calls: seq<Call>): nat
    decreases |calls|
  {
    if calls == [] then 0 else (if Admits(w, calls[0]) then 1 else 0) + Admitted(Try(w, calls[0]), calls[1..])
  }

  predicate Between(calls: seq<Call>, start: int, end: int) {
    forall i | 0 <= i < |calls| :: InOrder(calls[i]) && start <= calls[i].checked <= end
  }

  predicate IsOpened(w: Window) {
    w.last.Some? ==> w.count >= 1
  }

  lemma {:induction false} StaysOpened(w: Window, calls: seq<Call>)
    requires IsOpened(w)
    ensures IsOpened(After(w, calls))
    decreases |calls|
  {
    if calls != [] {
      StaysOpened(Try(w, calls[0]), calls[1..]);
    }
  }

  function Left(w: Window): int {
    if w.count >= PER_WINDOW then 0 else PER_WINDOW - w.count
  }

  /** How many calls can still be let through within a minute from start: a window opened
      since start lasts to the end of it, an older one can be replaced once. */
  function Budget(w: Window, start: int): int {
    if w.last.None? then PER_WINDOW
    else if w.last.value >= start then Left(w)
    else Left(w) + PER_WINDOW
  }

  lemma {:induction false} WithinBudget(w: Window, calls: seq<Call>, start: int)
    requires Between(calls, start, start + MINUTE)
    ensures Admitted(w, calls) <= Budget(w, start)
    decreases |calls|
  {
    if calls != [] {
      assert InOrder(calls[0]);
      WithinBudget(Try(w, calls[0]), calls[1..], start);
    }
  }

  /** Whatever came before, no interval of a minute lets more than 19 calls through: an
      old window gave one of its ten to the call that opened it. */
  lemma NineteenAMinute(before: seq<Call>, calls: seq<Call>, start: int)
    requires Between(calls, start, start + 60_000_000_000)
    ensures Admitted(After(CLOSED, before), calls) <= 19
  {
    StaysOpened(CLOSED, before);
    WithinBudget(After(CLOSED, before), calls, start);
  }

  function Burst(n: nat, t: int): seq<Call> {
    seq(n, _ => Call(t, t))
  }

  lemma {:induction false} BurstAdmits(w: Window, n: nat, t: int, more: seq<Call>)
    requires w.last.Some? && t - w.last.value <= MINUTE
    ensures Admitted(w, Burst(n, t) + more) == (if n <= Left(w) then n else Left(w)) + Admitted(Window(w.last, w.count + n), more)
    decreases n
  {
    var calls := Burst(n, t) + more;
    if n == 0 {
      assert calls == more;
    } else {
      assert calls[1..] == Burst(n - 1, t) + more;
      BurstAdmits(Window(w.last, w.count + 1), n - 1, t, more);
    }
  }

  /** And 19 are reached: one call opens a window, nine come at its very end and ten in
      the next window. */
  lemma NineteenIsReached()
    ensures var before, calls := [Call(0, 0)], Burst(9, MINUTE) + ([Call(MINUTE + 1, MINUTE + 1)] + Burst(9, MINUTE + 1));
            Between(calls, MINUTE, MINUTE + 60_000_000_000) && Admitted(After(CLOSED, before), calls) == 19
  {
    hide Burst;
    var w := Window(Some(0), 1);
    assert [Call(0, 0)][1..] == [];
    assert After(CLOSED, [Call(0, 0)]) == w;
    var next := Call(MINUTE + 1, MINUTE + 1);
    var rest := Burst(9, MINUTE + 1);
    BurstTimes(9, MINUTE);
    BurstTimes(9, MINUTE + 1);
    BurstAdmits(w, 9, MINUTE, [next] + rest);
    assert ([next] + rest)[1..] == rest;
    BurstAdmits(Window(Some(MINUTE + 1), 1), 9, MINUTE + 1, []);
    assert rest + [] == rest;
  }

  lemma BurstTimes(n: nat, t: int)
    ensures |Burst(n, t)| == n && forall i | 0 <= i < n :: Burst(n, t)[i] == Call(t, t)
  {
  }
}
