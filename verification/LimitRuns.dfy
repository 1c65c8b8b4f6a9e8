/** Which configurations of the adaptive limiter keep its limit within its bounds in every run of the
    client: nothing in the constructor checks any of them. */
module LimitRuns {
  import opened Wrappers
  import Limiter
  import opened RetryLoop

  /** The start is within the bounds, and decreasing from the ceiling does not lead above it, at once or with
      one more request in flight. */
  predicate SafeConfig(c: Limiter.Config, start: int) {
    var fallen := Limiter.Decreased(c, c.maxLimit);
    && Limiter.InBounds(c, start)
    && (start > 0 ==>
        && fallen <= c.maxLimit
        && (c.maxLimit > 1 ==> Limiter.Decreased(c, fallen) <= c.maxLimit))
  }

  ghost predicate BoundsHold(c: Config, start: int) {
    forall states: seq<Client>, steps: seq<Step> :: Run(c, states, steps) && states[0].limiter.limit == start ==>
      Limiter.InBounds(c.limiter, states[|steps|].limiter.limit)
  }

  // ----- decreasing is monotone, or turns the order around -----

  lemma CeilInOrder(x: real, y: real)
    requires x <= y
    ensures Limiter.Ceil(x) <= Limiter.Ceil(y)
  {
  }

  lemma DecreasedInOrder(c: Limiter.Config, x: int, y: int)
    requires x <= y
    ensures c.backoffFactor >= 0.0 ==> Limiter.Decreased(c, x) <= Limiter.Decreased(c, y)
    ensures c.backoffFactor <= 0.0 ==> Limiter.Decreased(c, y) <= Limiter.Decreased(c, x)
  {
    if c.backoffFactor >= 0.0 { Rises(c, x, y); }
    if c.backoffFactor <= 0.0 { Falls(c, x, y); }
  }

  lemma Rises(c: Limiter.Config, x: int, y: int)
    requires x <= y && c.backoffFactor >= 0.0
    ensures Limiter.Decreased(c, x) <= Limiter.Decreased(c, y)
  {
    InOrder(x as real, y as real, c.backoffFactor);
    CeilInOrder(x as real * c.backoffFactor, y as real * c.backoffFactor);
  }

  lemma Falls(c: Limiter.Config, x: int, y: int)
    requires x <= y && c.backoffFactor <= 0.0
    ensures Limiter.Decreased(c, y) <= Limiter.Decreased(c, x)
  {
    TurnedAround(x as real, y as real, c.backoffFactor);
    CeilInOrder(y as real * c.backoffFactor, x as real * c.backoffFactor);
  }

  lemma InOrder(x: real, y: real, f: real)
    requires x <= y && f >= 0.0
    ensures x * f <= y * f
  {
    Limiter.NotNegative(y - x, f);
    assert (y - x) * f == y * f - x * f;
  }

  lemma TurnedAround(x: real, y: real, f: real)
    requires x <= y && f <= 0.0
    ensures y * f <= x * f
  {
    InOrder(x, y, -f);
    assert x * -f == -(x * f) && y * -f == -(y * f);
  }

  lemma Exceeds(x: real, f: real)
    requires x > 0.0 && f > 1.0
    ensures x * f > x
  {
    assert x * f == x + x * (f - 1.0);
  }

  /** At a ceiling with room for one, a factor of more than 1 leads above it. */
  lemma FactorAtMostOne(limit: int, f: real)
    requires limit >= 1
    ensures Limiter.Ceil(limit as real * f) <= limit <==> f <= 1.0
  {
    var x := limit as real;
    if f <= 1.0 {
      InOrder(f, 1.0, x);
    } else {
      Exceeds(x, f);
    }
  }

  /** With a factor that is not negative, a safe one is at most 1. */
  lemma SafeFactor(c: Limiter.Config, start: int)
    requires c.backoffFactor >= 0.0
    ensures SafeConfig(c, start) <==> Limiter.InBounds(c, start) && (start > 0 ==> c.backoffFactor <= 1.0)
  {
    if Limiter.InBounds(c, start) && start > 0 {
      FactorAtMostOne(c.maxLimit, c.backoffFactor);
      var fallen := Limiter.Decreased(c, c.maxLimit);
      if fallen <= c.maxLimit { DecreasedInOrder(c, fallen, c.maxLimit); }
    }
  }

  // ----- a safe configuration -----

  /** Where the limit stays: between what failures at the ceiling lead to and the ceiling. */
  ghost predicate Within(c: Limiter.Config, s: Limiter.State) {
    && Limiter.InBounds(c, s.limit)
    && (c.backoffFactor < 0.0 && c.maxLimit > 1 ==> Limiter.Decreased(c, c.maxLimit) <= s.limit)
    && (c.maxLimit <= 1 && s.limit <= 0 ==> s.inFlight == 0)
    && (c.maxLimit <= 1 ==> s.inFlight <= 1)
  }

  lemma OneDecrease(c: Limiter.Config, start: int, limit: int)
    requires SafeConfig(c, start) && start > 0 && limit <= c.maxLimit
    requires c.backoffFactor < 0.0 && c.maxLimit > 1 ==> Limiter.Decreased(c, c.maxLimit) <= limit
    requires c.maxLimit <= 1 ==> limit == 1
    ensures Limiter.InBounds(c, Limiter.Decreased(c, limit))
    ensures c.backoffFactor < 0.0 ==> Limiter.Decreased(c, c.maxLimit) <= Limiter.Decreased(c, limit)
  {
    DecreasedInOrder(c, limit, c.maxLimit);
    if c.backoffFactor < 0.0 && c.maxLimit > 1 {
      DecreasedInOrder(c, Limiter.Decreased(c, c.maxLimit), limit);
    }
  }

  lemma StepStaysWithin(c: Config, start: int, s: Client, step: Step)
    requires SafeConfig(c.limiter, start) && start > 0
    requires Within(c.limiter, s.limiter) && SlotsMatch(c, s) && Enabled(s, step)
    ensures Within(c.limiter, Next(c, s, step).limiter)
  {
    if step.Settle? {
      assert step.r in Holders(s.phases);
      OneDecrease(c.limiter, start, s.limiter.limit);
    }
    if step.LateSlot? { assert step.r in Holders(s.phases); }
  }

  lemma StartsWithin(c: Limiter.Config, start: int)
    requires SafeConfig(c, start) && start > 0
    ensures Within(c, Limiter.State(start, 0, None, [], {}))
  {
    if c.backoffFactor < 0.0 {
      TurnedAround(0.0, c.maxLimit as real, c.backoffFactor);
      CeilInOrder(c.maxLimit as real * c.backoffFactor, 0.0);
    }
  }

  lemma {:induction false} StaysWithin(c: Config, states: seq<Client>, steps: seq<Step>, i: nat)
    requires Run(c, states, steps) && i < |states|
    requires SafeConfig(c.limiter, states[0].limiter.limit) && states[0].limiter.limit > 0
    ensures Within(c.limiter, states[i].limiter)
  {
    if i == 0 {
      StartsWithin(c.limiter, states[0].limiter.limit);
    } else {
      StaysWithin(c, states, steps, i - 1);
      RunKeeps(c, states, steps, i - 1);
      StepStaysWithin(c, states[0].limiter.limit, states[i - 1], steps[i - 1]);
    }
  }

  // ----- a run that leaves the bounds of any other -----

  ghost predicate EndsIn(c: Config, start: int, states: seq<Client>, steps: seq<Step>, s: Client) {
    Run(c, states, steps) && states[0].limiter.limit == start && states[|steps|] == s
  }

  ghost predicate Reached(c: Config, start: int, s: Client) {
    exists states: seq<Client>, steps: seq<Step> :: EndsIn(c, start, states, steps, s)
  }

  lemma ReachedNext(c: Config, start: int, s: Client, step: Step)
    requires Reached(c, start, s) && Enabled(s, step)
    ensures Reached(c, start, Next(c, s, step))
  {
    var states: seq<Client>, steps: seq<Step> :| EndsIn(c, start, states, steps, s);
    var s' := Next(c, s, step);
    assert EndsIn(c, start, states + [s'], steps + [step], s');
  }

  lemma StartReached(c: Config, start: int)
    ensures Reached(c, start, Client(Limiter.State(start, 0, None, [], {}), map[], map[], 0))
  {
    var s := Client(Limiter.State(start, 0, None, [], {}), map[], map[], 0);
    assert EndsIn(c, start, [s], [], s);
  }

  /** No request has come from `next` on, nobody waits, and round trips were instantaneous. */
  ghost predicate Ready(s: Client, limit: int, inFlight: int, next: nat) {
    && s.limiter.limit == limit && s.limiter.inFlight == inFlight
    && s.limiter.waiters == [] && s.limiter.woken == {}
    && (s.limiter.minRtt == None || s.limiter.minRtt == Some(0))
    && forall r :: r in s.phases ==> r < next
  }

  /** A new request that is sent. */
  lemma OneSent(c: Config, start: int, s: Client, limit: int, inFlight: int, next: nat) returns (s': Client)
    requires Reached(c, start, s) && Ready(s, limit, inFlight, next) && inFlight < limit
    ensures Reached(c, start, s') && Ready(s', limit, inFlight + 1, next + 1)
    ensures s'.phases == s.phases[next := Holding(0, true)]
  {
    ReachedNext(c, start, s, Start(next));
    s' := Next(c, s, Start(next));
    ReachedNext(c, start, s', Enter(next, false));
    s' := Next(c, s', Enter(next, false));
    ReachedNext(c, start, s', Dispatch(next));
    s' := Next(c, s', Dispatch(next));
    assert s'.phases == s.phases[next := Holding(0, true)];
  }

  /** Its answer: fast, or a failure. */
  lemma OneAnswered(c: Config, start: int, s: Client, limit: int, inFlight: int, next: nat, r: nat, failed: bool)
      returns (s': Client)
    requires Reached(c, start, s) && Ready(s, limit, inFlight, next)
    requires r in s.phases && s.phases[r] == Holding(0, true)
    ensures Reached(c, start, s')
    ensures Ready(s', if failed then Limiter.Decreased(c.limiter, limit) else Limiter.Increased(c.limiter, limit),
      inFlight - 1, next)
    ensures s'.phases == s.phases[r := if failed then Over(NetworkError) else Over(Returned)]
  {
    var step := Settle(r, if failed then OtherError else Response, 0);
    ReachedNext(c, start, s, step);
    s' := Next(c, s, step);
  }

  /** Each fast answer raises the limit by one. */
  lemma {:induction false} Climb(c: Config, start: int, n: nat) returns (s: Client)
    requires 1 <= start && start + n <= c.limiter.maxLimit
    ensures Reached(c, start, s) && Ready(s, start + n, 0, n)
  {
    if n == 0 {
      StartReached(c, start);
      s := Client(Limiter.State(start, 0, None, [], {}), map[], map[], 0);
    } else {
      s := Climb(c, start, n - 1);
      s := OneSent(c, start, s, start + n - 1, 0, n - 1);
      s := OneAnswered(c, start, s, start + n - 1, 1, n, n - 1, false);
    }
  }

  /** From the ceiling, one request fails, or two that were in flight together. */
  lemma Fail(c: Config, start: int, both: bool) returns (s: Client)
    requires 1 <= start <= c.limiter.maxLimit && (both ==> c.limiter.maxLimit > 1)
    ensures Reached(c, start, s)
    ensures var fallen := Limiter.Decreased(c.limiter, c.limiter.maxLimit);
      s.limiter.limit == if both then Limiter.Decreased(c.limiter, fallen) else fallen
  {
    var n, top := c.limiter.maxLimit - start, c.limiter.maxLimit;
    var fallen := Limiter.Decreased(c.limiter, top);
    s := Climb(c, start, n);
    s := OneSent(c, start, s, top, 0, n);
    if both {
      s := OneSent(c, start, s, top, 1, n + 1);
      s := OneAnswered(c, start, s, top, 2, n + 2, n, true);
      s := OneAnswered(c, start, s, fallen, 1, n + 2, n + 1, true);
    } else {
      s := OneAnswered(c, start, s, top, 1, n + 1, n, true);
    }
  }

  lemma Breaks(c: Config, start: int) returns (s: Client)
    requires !SafeConfig(c.limiter, start)
    ensures Reached(c, start, s) && !Limiter.InBounds(c.limiter, s.limiter.limit)
  {
    if !Limiter.InBounds(c.limiter, start) {
      StartReached(c, start);
      s := Client(Limiter.State(start, 0, None, [], {}), map[], map[], 0);
    } else {
      s := Fail(c, start, Limiter.Decreased(c.limiter, c.limiter.maxLimit) <= c.limiter.maxLimit);
    }
  }

  /** Every run from `start` stays within the bounds exactly when the configuration is safe. */
  lemma BoundsHoldExactly(c: Config, start: int)
    ensures BoundsHold(c, start) <==> SafeConfig(c.limiter, start)
  {
    if SafeConfig(c.limiter, start) {
      forall states: seq<Client>, steps: seq<Step> | Run(c, states, steps) && states[0].limiter.limit == start
        ensures Limiter.InBounds(c.limiter, states[|steps|].limiter.limit)
      {
        if start > 0 {
          StaysWithin(c, states, steps, |steps|);
        } else {
          NoSlotEver(c, states, steps, |steps|);
        }
      }
    } else {
      var s := Breaks(c, start);
      var states: seq<Client>, steps: seq<Step> :| EndsIn(c, start, states, steps, s);
      assert Run(c, states, steps) && !Limiter.InBounds(c.limiter, states[|steps|].limiter.limit);
    }
  }
}
