/** What the solver's slots mean for the remote browser: the request budget Fetch computes
    and how long it holds a slot after a failure (internal/flaresolverr/client.go).
    Times and durations are in nanoseconds. */
module RemoteSolves {
  import opened Wrappers

  const MILLISECOND := 1_000_000

  // ---------------------------------------------------------------- the budget

  /** Go's integer division, which truncates toward zero. */
  function Quotient(a: int, b: int): int
    requires 0 < b
  {
    if a >= 0 then a / b else -(-a / b)
  }

  /** The share of the remaining time kept for the transport. */
  function GraceShare(grace: int, remaining: int): int { Min(grace, Quotient(remaining, 10)) }

  /** The maxTimeout Fetch sends, in milliseconds, or none when no time is left. */
  function MaxTimeout(timeout: int, grace: int, remaining: int): Option<nat> {
    var budget := Min(timeout, remaining - GraceShare(grace, remaining));
    var maxTimeout := Quotient(budget, MILLISECOND);
    if maxTimeout < 1 then None else Some(maxTimeout)
  }

  /** The budget is the most whole milliseconds that stay within the configured timeout
      and leave of the caller's time the grace or, of a short time, a tenth rounded down;
      a request fails for lack of time exactly when not even one does. */
  lemma BudgetIsExact(timeout: int, grace: int, remaining: int, ms: nat)
    requires 0 < ms && 0 <= grace
    ensures var left := remaining - ms * MILLISECOND;
      (ms * MILLISECOND <= timeout && (grace <= left || remaining < 10 * (left + 1)))
      <==> MaxTimeout(timeout, grace, remaining).Some? && ms <= MaxTimeout(timeout, grace, remaining).value
  {
    var budget := Min(timeout, remaining - GraceShare(grace, remaining));
    TenthFits(grace, remaining, ms * MILLISECOND);
    QuotientIsMost(budget, MILLISECOND, ms);
  }

  lemma TenthFits(grace: int, remaining: int, spent: int)
    requires 0 < spent && 0 <= grace
    ensures spent <= remaining - GraceShare(grace, remaining)
            <==> grace <= remaining - spent || remaining < 10 * (remaining - spent + 1)
  {
  }

  lemma QuotientIsMost(a: int, b: int, n: nat)
    requires 0 < b && 0 < n
    ensures n * b <= a <==> n <= Quotient(a, b)
  {
    if a >= 0 {
      var q := a / b;
      assert a == q * b + a % b;
      if n <= q { assert n * b <= q * b; } else { assert n * b >= (q + 1) * b; }
    } else {
      assert n * b > 0;
      assert -a / b >= 0;
    }
  }

  // ---------------------------------------------------------------- slots and the remote browser

  /** A request of the client: its slot taken, sent, holding its slot after a failure, or
      done with the slot. */
  datatype Local = Acquired | Sent | Cooling | Over

  datatype Remote = Waiting | Running(since: int) | Stopped

  /** `budget` is the maxTimeout sent, and `failed` when the request failed with its
      connection open. */
  datatype Request = Request(local: Local, remote: Remote, connected: bool, budget: int, failed: Option<int>)

  datatype Sys = Sys(now: int, capacity: nat, timeout: int, grace: nat, closed: bool, requests: map<nat, Request>)

  datatype Action =
    | Wait(until: int)
    | Close
    | Acquire(id: nat)
    | Abandon(id: nat)
    | Send(id: nat, remaining: int)
    | Connect(id: nat)
    | RemoteStart(id: nat)
    | RemoteStop(id: nat)
    | Reply(id: nat)
    | Fail(id: nat)
    | TimerEnds(id: nat)

  predicate Holds(r: Request) { !r.local.Over? }

  function Holders(s: Sys): set<nat> { set id | id in s.requests && Holds(s.requests[id]) }

  function Runners(s: Sys): set<nat> { set id | id in s.requests && s.requests[id].remote.Running? }

  /** How long Fetch holds the slot of a failed request. */
  function HoldFor(s: Sys, r: Request): int { r.budget + s.grace }

  /** The two things the source asks of the remote are here: it stops within maxTimeout of
      starting (Wait), and starts no later than grace after the request failed (RemoteStart). */
  ghost predicate Enabled(s: Sys, a: Action) {
    match a
    case Wait(until) =>
      s.now <= until
      && forall id | id in s.requests && s.requests[id].remote.Running? ::
           until < s.requests[id].remote.since + s.requests[id].budget
    case Close => true
    case Acquire(id) => id !in s.requests && |Holders(s)| < s.capacity
    case Abandon(id) => id in s.requests && s.requests[id].local.Acquired?
    case Send(id, _) => id in s.requests && s.requests[id].local.Acquired?
    case Connect(id) => id in s.requests && s.requests[id].local.Sent?
    case RemoteStart(id) =>
      id in s.requests && s.requests[id].connected && s.requests[id].remote.Waiting?
      && (s.requests[id].failed.Some? ==> s.now <= s.requests[id].failed.value + s.grace)
    case RemoteStop(id) => id in s.requests && s.requests[id].remote.Running?
    // A complete response means the remote handler has finished, if it ever began a solve.
    case Reply(id) =>
      id in s.requests && s.requests[id].local.Sent? && s.requests[id].connected && !s.requests[id].remote.Running?
    case Fail(id) => id in s.requests && s.requests[id].local.Sent?
    case TimerEnds(id) =>
      id in s.requests && s.requests[id].local.Cooling? && s.requests[id].failed.Some?
      && (s.closed || s.requests[id].failed.value + HoldFor(s, s.requests[id]) <= s.now)
  }

  /** What an action does to the request it is about. */
  function Acted(s: Sys, r: Request, a: Action): Request {
    match a
    case Abandon(_) => r.(local := Over)
    case Send(_, remaining) =>
      (match MaxTimeout(s.timeout, s.grace, remaining)
       case None => r.(local := Over)
       case Some(ms) => r.(local := Sent, budget := ms * MILLISECOND))
    case Connect(_) => r.(connected := true)
    case RemoteStart(_) => r.(remote := Running(s.now))
    case RemoteStop(_) => r.(remote := Stopped)
    case Reply(_) => r.(local := Over, remote := Stopped)
    case Fail(_) =>
      if !r.connected then r.(local := Over)
      else r.(local := if s.closed then Over else Cooling, failed := Some(s.now))
    case TimerEnds(_) => r.(local := Over)
    case _ => r
  }

  ghost function Step(s: Sys, a: Action): Sys
    requires Enabled(s, a)
  {
    match a
    case Wait(until) => s.(now := until)
    case Close => s.(closed := true)
    case Acquire(id) => s.(requests := s.requests[id := Request(Acquired, Waiting, false, 0, None)])
    case _ => s.(requests := s.requests[a.id := Acted(s, s.requests[a.id], a)])
  }

  /** Until Close, the slot outlasts the remote work. */
  ghost predicate Covered(s: Sys, r: Request) {
    && (if r.connected then 0 < r.budget else r.remote.Waiting?)
    && (r.local.Acquired? ==> !r.connected && r.failed.None?)
    && (r.local.Sent? ==> r.failed.None? && 0 < r.budget)
    && (r.remote.Running? ==> r.remote.since <= s.now < r.remote.since + r.budget)
    && (r.failed.Some? ==> r.connected)
    && (r.local.Cooling? ==> r.failed.Some?)
    && (!s.closed && r.failed.Some? && r.remote.Running? ==>
          r.local.Cooling? && r.remote.since <= r.failed.value + s.grace)
    && (!s.closed && r.local.Over? ==>
          !r.remote.Running?
          && (r.connected && r.remote.Waiting? ==> r.failed.Some? && r.failed.value + s.grace < s.now))
  }

  ghost predicate Inv(s: Sys) {
    && |Holders(s)| <= s.capacity
    && forall id | id in s.requests :: Covered(s, s.requests[id])
  }

  lemma ActKeeps(s: Sys, a: Action)
    requires Enabled(s, a) && !a.Wait? && !a.Close? && !a.Acquire?
    requires a.id in s.requests && Covered(s, s.requests[a.id])
    ensures Covered(s, Acted(s, s.requests[a.id], a))
    ensures Holds(Acted(s, s.requests[a.id], a)) ==> Holds(s.requests[a.id])
  {
  }

  lemma StepKeeps(s: Sys, a: Action)
    requires Inv(s) && Enabled(s, a)
    ensures Inv(Step(s, a))
  {
    var t := Step(s, a);
    if a.Wait? || a.Close? {
      assert Holders(t) == Holders(s);
      forall id | id in t.requests ensures Covered(t, t.requests[id]) { assert Covered(s, s.requests[id]); }
    } else if a.Acquire? {
      assert Holders(t) == Holders(s) + {a.id};
      forall id | id in t.requests ensures Covered(t, t.requests[id]) {
        if id != a.id { assert Covered(s, s.requests[id]); }
      }
    } else {
      ActKeeps(s, a);
      SubsetSize(Holders(t), Holders(s));
      forall id | id in t.requests ensures Covered(t, t.requests[id]) {
        assert Covered(s, s.requests[id]);
        assert Covered(s, t.requests[id]);
      }
    }
  }

  ghost predicate IsRun(states: seq<Sys>, actions: seq<Action>) {
    && |states| == |actions| + 1 && states[0].requests == map[]
    && forall i {:trigger actions[i]} :: 0 <= i < |actions| ==>
         Enabled(states[i], actions[i]) && states[i + 1] == Step(states[i], actions[i])
  }

  lemma {:induction false} EveryStateIsGood(states: seq<Sys>, actions: seq<Action>, i: nat)
    requires IsRun(states, actions) && i < |states|
    ensures Inv(states[i])
  {
    if i > 0 {
      EveryStateIsGood(states, actions, i - 1);
      assert states[i - 1 + 1] == Step(states[i - 1], actions[i - 1]);
      StepKeeps(states[i - 1], actions[i - 1]);
    } else {
      assert Holders(states[0]) == {};
    }
  }

  /** Until the client is closed, every solve still running remotely has its slot held
      here, so no more of them run at once than the client has slots. */
  lemma RemoteIsBounded(states: seq<Sys>, actions: seq<Action>, i: nat)
    requires IsRun(states, actions) && i < |states| && !states[i].closed
    ensures Runners(states[i]) <= Holders(states[i])
    ensures |Runners(states[i])| <= states[i].capacity
  {
    EveryStateIsGood(states, actions, i);
    var s := states[i];
    forall id | id in Runners(s) ensures id in Holders(s) { assert Covered(s, s.requests[id]); }
    SubsetSize(Runners(s), Holders(s));
  }

  // ---------------------------------------------------------------- the hold is no longer than needed

  /** The one request of a client with one slot. */
  function Alone(now: int, timeout: int, grace: nat, r: Request): Sys {
    Sys(now, 1, timeout, grace, false, map[0 := r])
  }

  lemma AloneSteps(now: int, timeout: int, grace: nat, r: Request, a: Action)
    requires !a.Close? && !a.Acquire? && (!a.Wait? ==> a.id == 0)
    requires Enabled(Alone(now, timeout, grace, r), a)
    ensures Step(Alone(now, timeout, grace, r), a)
            == if a.Wait? then Alone(a.until, timeout, grace, r)
               else Alone(now, timeout, grace, Acted(Alone(now, timeout, grace, r), r, a))
  {
  }

  /** A failed request whose solve starts at the last moment and runs as long as it may. */
  lemma LatestSolve(timeout: int, grace: nat, budget: nat) returns (states: seq<Sys>)
    requires 0 < budget
    ensures var failed := Request(Cooling, Waiting, true, budget, Some(0));
      && |states| == 7 && states[0] == Alone(0, timeout, grace, failed)
      && states[3] == Alone(grace + budget - 1, timeout, grace, failed.(remote := Running(grace)))
      && states[6] == Alone(grace + budget, timeout, grace, failed.(local := Over, remote := Stopped))
    ensures forall i {:trigger LatestActions(grace, budget)[i]} :: 0 <= i < 6 ==>
      Enabled(states[i], LatestActions(grace, budget)[i])
      && states[i + 1] == Step(states[i], LatestActions(grace, budget)[i])
  {
    var end := grace + budget;
    var failed := Request(Cooling, Waiting, true, budget, Some(0));
    var running, stopped := failed.(remote := Running(grace)), failed.(remote := Stopped);
    var actions := LatestActions(grace, budget);
    states := [Alone(0, timeout, grace, failed), Alone(grace, timeout, grace, failed),
               Alone(grace, timeout, grace, running), Alone(end - 1, timeout, grace, running),
               Alone(end - 1, timeout, grace, stopped), Alone(end, timeout, grace, stopped),
               Alone(end, timeout, grace, stopped.(local := Over))];
    forall i | 0 <= i < 6 ensures Enabled(states[i], actions[i]) && states[i + 1] == Step(states[i], actions[i]) {
      AloneSteps(states[i].now, timeout, grace, states[i].requests[0], actions[i]);
    }
  }

  function LatestActions(grace: nat, budget: nat): seq<Action> {
    [Wait(grace), RemoteStart(0), Wait(grace + budget - 1), RemoteStop(0), Wait(grace + budget), TimerEnds(0)]
  }

  /** And how a request comes to fail so. */
  lemma FailedOpen(timeout: int, grace: nat, remaining: int) returns (states: seq<Sys>)
    requires MaxTimeout(timeout, grace, remaining).Some?
    ensures var budget := MaxTimeout(timeout, grace, remaining).value * MILLISECOND;
      && |states| == 5 && states[0] == Sys(0, 1, timeout, grace, false, map[])
      && states[4] == Alone(0, timeout, grace, Request(Cooling, Waiting, true, budget, Some(0)))
    ensures forall i {:trigger FailingActions(remaining)[i]} :: 0 <= i < 4 ==>
      Enabled(states[i], FailingActions(remaining)[i]) && states[i + 1] == Step(states[i], FailingActions(remaining)[i])
  {
    var budget := MaxTimeout(timeout, grace, remaining).value * MILLISECOND;
    var sent := Request(Sent, Waiting, true, budget, None);
    var actions := FailingActions(remaining);
    states := [Sys(0, 1, timeout, grace, false, map[]),
               Alone(0, timeout, grace, Request(Acquired, Waiting, false, 0, None)),
               Alone(0, timeout, grace, sent.(connected := false)), Alone(0, timeout, grace, sent),
               Alone(0, timeout, grace, sent.(local := Cooling, failed := Some(0)))];
    assert Holders(states[0]) == {};
    forall i | 0 <= i < 4 ensures Enabled(states[i], actions[i]) && states[i + 1] == Step(states[i], actions[i]) {
      if i > 0 { AloneSteps(0, timeout, grace, states[i].requests[0], actions[i]); }
    }
  }

  function FailingActions(remaining: int): seq<Action> {
    [Acquire(0), Send(0, remaining), Connect(0), Fail(0)]
  }

  /** A slot held after a failure is given back at the first moment no solve can be running:
      here it is given back the maxTimeout and the grace after the failure, and the solve
      still ran one nanosecond earlier. */
  lemma HoldIsTight(timeout: int, grace: nat, remaining: int) returns (states: seq<Sys>, actions: seq<Action>)
    requires MaxTimeout(timeout, grace, remaining).Some?
    ensures |actions| == 10 && IsRun(states, actions) && actions[3] == Fail(0) && actions[9] == TimerEnds(0)
    ensures var hold := MaxTimeout(timeout, grace, remaining).value * MILLISECOND + grace;
      && !states[10].closed && states[7].now == states[3].now + hold - 1 && 0 in Runners(states[7])
      && states[10].now == states[3].now + hold && Holders(states[10]) == {}
  {
    var budget := MaxTimeout(timeout, grace, remaining).value * MILLISECOND;
    var failing := FailedOpen(timeout, grace, remaining);
    var latest := LatestSolve(timeout, grace, budget);
    states, actions := failing + latest[1..], FailingActions(remaining) + LatestActions(grace, budget);
    forall i | 0 <= i < |actions| ensures Enabled(states[i], actions[i]) && states[i + 1] == Step(states[i], actions[i])
    {
      if i < 4 {
        assert FailingActions(remaining)[i] == actions[i];
      } else {
        assert states[i] == latest[i - 4] && states[i + 1] == latest[i - 3];
        assert LatestActions(grace, budget)[i - 4] == actions[i];
      }
    }
  }
}
