/** The adaptive concurrency limiter (resilient-client.ts): an asynchronous semaphore whose limit
    rises by one and shrinks by a factor. */
module Limiter {
  import opened Wrappers

  datatype Config = Config(minLimit: int, maxLimit: int, backoffFactor: real, targetRttFactor: real)

  /** Integer limits, a floor that leaves at least one slot, a factor that shrinks. */
  predicate ValidConfig(c: Config) {
    1 <= c.minLimit <= c.maxLimit && 0.0 < c.backoffFactor < 1.0
  }

  /** `waiters` are the callers queued in acquire(), in order; `woken` those whose promise is
      resolved and who have not run yet. */
  datatype State = State(limit: int, inFlight: int, minRtt: Option<int>, waiters: seq<nat>, woken: set<nat>)

  function Ceil(x: real): (n: int)
    ensures n as real - 1.0 < x <= n as real
  {
    -((-x).Floor)
  }

  function Max(x: int, y: int): int {
    if x >= y then x else y
  }

  function Decreased(c: Config, limit: int): int {
    Max(Ceil(limit as real * c.backoffFactor), c.minLimit)
  }

  function Increased(c: Config, limit: int): int {
    if limit + 1 <= c.maxLimit then limit + 1 else c.maxLimit
  }

  function LeastRtt(minRtt: Option<int>, rtt: int): int {
    if minRtt.None? || rtt < minRtt.value then rtt else minRtt.value
  }

  /** Waking goes on while a slot is free; it takes none, so it wakes every waiter or no one. */
  function Drained(s: State): State {
    if s.inFlight < s.limit then s.(waiters := [], woken := s.woken + set w | w in s.waiters) else s
  }

  /** The caller takes a slot, or queues (again). */
  function Acquiring(s: State, caller: nat): State {
    if s.inFlight < s.limit then s.(inFlight := s.inFlight + 1) else s.(waiters := s.waiters + [caller])
  }

  function Released(c: Config, s: State, rtt: int, failed: bool): State {
    var least := LeastRtt(s.minRtt, rtt);
    var freed := s.(inFlight := s.inFlight - 1);
    if failed then Drained(freed.(limit := Decreased(c, s.limit)))
    else if rtt as real <= least as real * c.targetRttFactor
    then Drained(freed.(minRtt := Some(least), limit := Increased(c, s.limit)))
    else Drained(freed.(minRtt := Some(least), limit := Decreased(c, s.limit)))
  }

  function Cancelled(s: State): State {
    Drained(s.(inFlight := s.inFlight - 1))
  }

  class AdaptiveConcurrencyLimiter {
    const config: Config
    var limit: int
    var inFlight: int
    var minRtt: Option<int>
    var waiters: seq<nat>
    var woken: set<nat>

    constructor (config: Config, initialLimit: int)
      ensures this.config == config && Value() == State(initialLimit, 0, None, [], {})
    {
      this.config, limit, inFlight, minRtt, waiters, woken := config, initialLimit, 0, None, [], {};
    }

    function Value(): State
      reads this
    {
      State(limit, inFlight, minRtt, waiters, woken)
    }

    /** acquire() up to its first await; the same lines run again after each wakeup. */
    method Acquire(caller: nat) returns (granted: bool)
      modifies this
      ensures Value() == Acquiring(old(Value()), caller)
      ensures granted <==> old(inFlight) < old(limit)
    {
      if inFlight < limit {
        inFlight := inFlight + 1;
        return true;
      }
      waiters := waiters + [caller];
      return false;
    }

    method Decrease()
      modifies this`limit
      ensures limit == Decreased(config, old(limit))
    {
      limit := Max(Ceil(limit as real * config.backoffFactor), config.minLimit);
    }

    method DrainWaiters()
      modifies this`waiters, this`woken
      ensures Value() == Drained(old(Value()))
    {
      ghost var all, k := waiters, 0;
      while |waiters| > 0 && inFlight < limit
        invariant 0 <= k <= |all| && waiters == all[k..]
        invariant woken == old(woken) + set w | w in all[..k]
        invariant inFlight >= limit ==> k == 0
      {
        assert all[..k + 1] == all[..k] + [all[k]];
        woken := woken + {waiters[0]};
        waiters := waiters[1..];
        k := k + 1;
      }
      assert all[..|all|] == all;
    }

    method Release(rtt: int, failed: bool)
      modifies this
      ensures Value() == Released(config, old(Value()), rtt, failed)
      ensures inFlight == old(inFlight) - 1
      ensures failed ==> limit == Decreased(config, old(limit)) && minRtt == old(minRtt)
      // the best round trip so far, this one included
      ensures !failed ==> minRtt.Some? && minRtt.value <= rtt
      ensures !failed && old(minRtt).Some? ==> minRtt.value <= old(minRtt).value
      ensures !failed ==> minRtt.value == rtt || minRtt == old(minRtt)
      // a success close to it asks for one more slot, a slower one for fewer
      ensures !failed && rtt as real <= minRtt.value as real * config.targetRttFactor ==>
        limit == if old(limit) < config.maxLimit then old(limit) + 1 else config.maxLimit
      ensures !failed && rtt as real > minRtt.value as real * config.targetRttFactor ==>
        limit == Decreased(config, old(limit))
    {
      inFlight := inFlight - 1;
      if failed {
        Decrease();
      } else {
        if minRtt.None? || rtt < minRtt.value {
          minRtt := Some(rtt);
        }
        var target := minRtt.value as real * config.targetRttFactor;
        if rtt as real <= target {
          limit := if limit + 1 <= config.maxLimit then limit + 1 else config.maxLimit;
        } else {
          Decrease();
        }
      }
      DrainWaiters();
    }

    /** Gives a slot back without an observation. */
    method Cancel()
      modifies this
      ensures Value() == Cancelled(old(Value()))
    {
      inFlight := inFlight - 1;
      DrainWaiters();
    }
  }

  // ----- what every operation keeps -----

  predicate InBounds(c: Config, limit: int) {
    c.minLimit <= limit <= c.maxLimit
  }

  /** Nobody waits unwoken while a slot is free. */
  predicate NobodyIdle(s: State) {
    s.waiters != [] ==> s.inFlight >= s.limit
  }

  /** Whatever the limit and its bounds are. */
  lemma OperationsLeaveNobodyIdle(c: Config, s: State, caller: nat, rtt: int, failed: bool)
    requires NobodyIdle(s)
    ensures NobodyIdle(Acquiring(s, caller)) && NobodyIdle(Released(c, s, rtt, failed)) && NobodyIdle(Cancelled(s))
  {}

  lemma DecreaseBounds(c: Config, limit: int)
    requires ValidConfig(c) && 0 <= limit
    ensures Decreased(c, limit) == c.minLimit || c.minLimit <= Decreased(c, limit) <= limit
  {
    assert limit as real * c.backoffFactor <= limit as real;
  }

  lemma OperationsKeepBounds(c: Config, s: State, caller: nat, rtt: int, failed: bool)
    requires ValidConfig(c) && InBounds(c, s.limit)
    ensures InBounds(c, Acquiring(s, caller).limit) && InBounds(c, Released(c, s, rtt, failed).limit)
    ensures InBounds(c, Cancelled(s).limit)
  {
    DecreaseBounds(c, s.limit);
  }

  /** One slot less in use; the queue as it was. */
  predicate Freed(s: State, freed: State) {
    freed.inFlight == s.inFlight - 1 && freed.waiters == s.waiters && freed.woken == s.woken
  }

  /** Whatever it observed, a release gives back one slot and then drains. */
  lemma ReleaseDrains(c: Config, s: State, rtt: int, failed: bool)
    ensures exists freed :: Released(c, s, rtt, failed) == Drained(freed) && Freed(s, freed)
  {
    var least := LeastRtt(s.minRtt, rtt);
    var slower := s.(inFlight := s.inFlight - 1, limit := Decreased(c, s.limit));
    var faster := s.(inFlight := s.inFlight - 1, limit := Increased(c, s.limit), minRtt := Some(least));
    assert Freed(s, slower) && Freed(s, slower.(minRtt := Some(least))) && Freed(s, faster);
  }

  // ----- where repeated decreases settle -----

  /** The largest integer below 1 / (1 - factor). */
  ghost predicate IsStall(factor: real, t: int) {
    t as real * (1.0 - factor) < 1.0 <= (t as real + 1.0) * (1.0 - factor)
  }

  /** Up to the stall point rounding up undoes the whole decrease; above it the limit strictly falls,
      and never past the floor. */
  lemma DecreaseStalls(c: Config, t: int, limit: int)
    requires ValidConfig(c) && IsStall(c.backoffFactor, t) && c.minLimit <= limit
    ensures limit <= t ==> Decreased(c, limit) == limit
    ensures limit > Max(c.minLimit, t) ==> Max(c.minLimit, t) <= Decreased(c, limit) < limit
    ensures limit == Max(c.minLimit, t) ==> Decreased(c, limit) == limit
  {
    DecreaseBounds(c, limit);
    if limit <= t {
      StaysUpToStall(c.backoffFactor, t, limit);
    } else {
      FallsAboveStall(c.backoffFactor, t, limit);
    }
  }

  lemma Scaled(x: real, y: real, g: real)
    requires x <= y && g > 0.0
    ensures x * g <= y * g
  {
  }

  lemma ScaledDown(x: real, y: real, f: real)
    requires x <= y && f < 1.0
    ensures x * (1.0 - f) <= y * (1.0 - f)
  {
    NotNegative(y - x, 1.0 - f);
    assert (y - x) * (1.0 - f) == y * (1.0 - f) - x * (1.0 - f);
  }

  lemma NotNegative(x: real, g: real)
    requires x >= 0.0 && g >= 0.0
    ensures x * g >= 0.0
  {
  }

  lemma Complement(x: real, f: real)
    ensures x * (1.0 - f) == x - x * f
  {
  }

  lemma StaysUpToStall(f: real, t: int, limit: int)
    requires 0.0 < f < 1.0 && IsStall(f, t) && 0 <= limit <= t
    ensures Ceil(limit as real * f) == limit
  {
    LessThanOneOff(limit as real, t as real, f);
    RoundsBetween(limit as real, limit as real * f, limit, limit);
  }

  lemma LessThanOneOff(x: real, y: real, f: real)
    requires 0.0 < f < 1.0 && y * (1.0 - f) < 1.0 && 0.0 <= x <= y
    ensures x - 1.0 < x * f <= x
  {
    ScaledDown(x, y, f);
    ScaledDown(0.0, x, f);
    Complement(x, f);
  }

  lemma FallsAboveStall(f: real, t: int, limit: int)
    requires 0.0 < f < 1.0 && IsStall(f, t) && limit > t
    ensures t <= Ceil(limit as real * f) < limit
  {
    AtLeastOneOff(limit as real, t as real, f);
    LessThanOneBelow(limit as real, t as real, f);
    RoundsBetween(limit as real - 1.0, limit as real * f, t, limit - 1);
  }

  lemma AtLeastOneOff(x: real, y: real, f: real)
    requires 0.0 < f < 1.0 && 1.0 <= (y + 1.0) * (1.0 - f) && y + 1.0 <= x
    ensures x * f <= x - 1.0
  {
    ScaledDown(y + 1.0, x, f);
    Complement(x, f);
  }

  lemma LessThanOneBelow(x: real, y: real, f: real)
    requires 0.0 < f < 1.0 && y * (1.0 - f) < 1.0 && y <= x
    ensures y - 1.0 < x * f
  {
    Scaled(y, x, f);
    Complement(y, f);
  }

  lemma RoundsBetween(x: real, z: real, low: int, high: int)
    requires low as real - 1.0 < z <= x && x <= high as real
    ensures low <= Ceil(z) <= high
  {
  }

  function DecreasedTimes(c: Config, limit: int, n: nat): int
    decreases n
  {
    if n == 0 then limit else DecreasedTimes(c, Decreased(c, limit), n - 1)
  }

  /** Under repeated failures the limit settles at max(minLimit, stall) after at most as many
      decreases as it started above it. */
  lemma {:induction false} FailuresSettle(c: Config, t: int, limit: int, n: nat)
    requires ValidConfig(c) && IsStall(c.backoffFactor, t) && limit >= Max(c.minLimit, t)
    ensures Max(c.minLimit, t) <= DecreasedTimes(c, limit, n) <= limit
    ensures n >= limit - Max(c.minLimit, t) ==> DecreasedTimes(c, limit, n) == Max(c.minLimit, t)
    decreases n
  {
    DecreaseStalls(c, t, limit);
    if n > 0 {
      FailuresSettle(c, t, Decreased(c, limit), n - 1);
    }
  }

  /** A limit that starts outside of its bounds: above the ceiling one fast answer brings it back, and
      failures do exactly when the stall point is not above the ceiling; below the floor one decrease
      does, and each fast answer takes it one step up. */
  lemma OutOfBounds(c: Config, t: int, limit: int, n: nat)
    requires ValidConfig(c) && IsStall(c.backoffFactor, t)
    ensures limit > c.maxLimit ==> Increased(c, limit) == c.maxLimit
    ensures limit > c.maxLimit && t <= c.maxLimit && n >= limit - c.maxLimit ==>
      InBounds(c, DecreasedTimes(c, limit, n))
    ensures limit > c.maxLimit && t > c.maxLimit ==> DecreasedTimes(c, limit, n) > c.maxLimit
    ensures limit < c.minLimit ==> Decreased(c, limit) == c.minLimit && Increased(c, limit) == limit + 1
  {
    if limit < c.minLimit {
      BelowFloor(c, limit);
    } else if limit > c.maxLimit && t <= c.maxLimit {
      FallsToCeiling(c, t, limit, n);
    } else if limit > c.maxLimit {
      StuckAboveCeiling(c, t, limit, n);
    }
  }

  lemma BelowFloor(c: Config, limit: int)
    requires ValidConfig(c) && limit < c.minLimit
    ensures Decreased(c, limit) == c.minLimit
  {
    if limit >= 0 {
      DecreaseBounds(c, limit);
    } else {
      ScaledDown(limit as real, 0.0, 1.0 - c.backoffFactor);
    }
  }

  lemma {:induction false} FallsToCeiling(c: Config, t: int, limit: int, n: nat)
    requires ValidConfig(c) && IsStall(c.backoffFactor, t) && t <= c.maxLimit && c.minLimit <= limit
    ensures c.minLimit <= DecreasedTimes(c, limit, n) <= limit
    ensures n >= limit - c.maxLimit ==> DecreasedTimes(c, limit, n) <= c.maxLimit
    decreases n
  {
    if n > 0 {
      DecreaseBounds(c, limit);
      DecreaseStalls(c, t, limit);
      FallsToCeiling(c, t, Decreased(c, limit), n - 1);
    }
  }

  lemma {:induction false} StuckAboveCeiling(c: Config, t: int, limit: int, n: nat)
    requires ValidConfig(c) && IsStall(c.backoffFactor, t) && limit > c.maxLimit && t > c.maxLimit
    ensures DecreasedTimes(c, limit, n) > c.maxLimit
    decreases n
  {
    if n > 0 {
      DecreaseStalls(c, t, limit);
      StuckAboveCeiling(c, t, Decreased(c, limit), n - 1);
    }
  }

  /** A ceiling of 5 alone: the default start of 10 is above it, and failures never bring it below 9. */
  lemma CeilingOverrun(n: nat)
    requires n >= 1
    ensures DecreasedTimes(Config(1, 5, 0.9, 2.0), 10, n) == 9
  {
    FailuresSettle(Config(1, 5, 0.9, 2.0), 9, 10, n);
  }

  /** With the defaults (minLimit 1, factor 0.9) the limit never gets below 9, however long the
      upstream keeps failing. */
  lemma DefaultSettlesAtNine(limit: int, n: nat)
    requires limit >= 9 && n >= limit - 9
    ensures DecreasedTimes(Config(1, 200, 0.9, 2.0), limit, n) == 9
  {
    FailuresSettle(Config(1, 200, 0.9, 2.0), 9, limit, n);
  }
}
