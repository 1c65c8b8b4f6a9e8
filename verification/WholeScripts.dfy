/** Which scripts do all that was intended whenever they end well with budget left for COMMIT, whatever the
    clock does: a question about the script alone (pg-deadline.ts, pg-unit-of-work.service.ts). */
module WholeScripts {
  import opened Wrappers
  import opened UnitOfWork

  /** It ends well only with all of its writes, by every clock that does not run backwards and under every
      deadline. */
  ghost predicate AlwaysWhole(work: Work) {
    forall moments: nat -> Moment, deadline: Deadline, k: nat :: Steady(moments) ==>
      WholeRun(Transacted(moments, deadline, k, work), moments, deadline, work)
  }

  ghost predicate WholeRun(effect: Effect, moments: nat -> Moment, deadline: Deadline, work: Work) {
    effect.ok && !Spent(deadline, moments(effect.next)) ==> effect.writes == Intended(work).1
  }

  // ----- reading it off the script -----

  /** Whether a script ends without an error while the clock stands still, its budget spent or not. */
  predicate EndsWell(work: Work, spent: bool) {
    match work
    case Then(first, second) => EndsWell(first, spent) && EndsWell(second, spent)
    case Try(_) => true
    case Nested(body) => EndsWell(body, spent)
    case Budgeted(ms, body) => EndsWell(body, spent || ms <= 0)
    case Throw => false
    case _ => !spent
  }

  /** Whether it comes to a statement. */
  predicate Issues(work: Work) {
    match work
    case Then(first, second) => Issues(first) || (EndsWell(first, false) && Issues(second))
    case Try(body) => Issues(body)
    case Nested(body) => Issues(body)
    case Budgeted(_, body) => Issues(body)
    case Throw => false
    case _ => true
  }

  /** Whether it can end well although its budget runs out on the way and a statement is held back. */
  predicate SurvivesItsBudget(work: Work)
    decreases work, 0
  {
    match work
    case Then(first, second) =>
      (SurvivesItsBudget(first) && EndsWell(second, true)) || (EndsWell(first, false) && SurvivesItsBudget(second))
    case Try(body) => Issues(body)
    case Nested(body) => SurvivesItsBudget(body)
    case Budgeted(ms, body) => SurvivesScope(ms, body)
    case _ => false
  }

  predicate SurvivesScope(ms: int, body: Work)
    decreases body, 1
  {
    if ms <= 0 then EndsWell(body, true) && Issues(body) else SurvivesItsBudget(body)
  }

  /** A scope of `ms` can run out before the budget it is in, which has at most `budget` left. */
  predicate Shorter(ms: int, budget: Option<int>) {
    budget.None? || ms < budget.value
  }

  /** Whether a statement can be held back while that budget lasts. */
  predicate Refusable(work: Work, budget: Option<int>) {
    match work
    case Then(first, second) => Refusable(first, budget) || (EndsWell(first, false) && Refusable(second, budget))
    case Try(body) => Refusable(body, budget)
    case Nested(body) => Refusable(body, budget)
    case Budgeted(ms, body) => if Shorter(ms, budget) then Issues(body) else Refusable(body, budget)
    case _ => false
  }

  /** Whether it can end well all the same. */
  predicate Breakable(work: Work, budget: Option<int>) {
    match work
    case Then(first, second) =>
      (Breakable(first, budget) && EndsWell(second, false)) || (EndsWell(first, false) && Breakable(second, budget))
    case Try(body) => Refusable(body, budget)
    case Nested(body) => Breakable(body, budget)
    case Budgeted(ms, body) =>
      if Shorter(ms, budget) then SurvivesScope(ms, body) || (ms > 0 && Breakable(body, Some(ms)))
      else Breakable(body, budget)
    case _ => false
  }

  // ----- what any clock comes to -----

  lemma {:induction false} SpentIsWorse(work: Work)
    ensures EndsWell(work, true) ==> EndsWell(work, false)
    ensures !Issues(work) ==> EndsWell(work, true) == EndsWell(work, false)
  {
    match work
    case Then(first, second) => SpentIsWorse(first); SpentIsWorse(second);
    case Nested(body) => SpentIsWorse(body);
    case Budgeted(_, body) => SpentIsWorse(body);
    case _ =>
  }

  /** A script ends where time has not gone back; a budget that is spent stays spent. */
  lemma {:induction false} GoesOn(moments: nat -> Moment, deadline: Deadline, k: nat, work: Work)
    ensures EffectOf(moments, deadline, k, work).next >= k
    ensures EffectOf(moments, deadline, k, work).refused > 0 ==> EffectOf(moments, deadline, k, work).next > k
    decreases work
  {
    match work
    case Then(first, second) =>
      GoesOn(moments, deadline, k, first);
      GoesOn(moments, deadline, EffectOf(moments, deadline, k, first).next, second);
    case Try(body) => GoesOn(moments, deadline, k, body);
    case Nested(body) => GoesOn(moments, deadline, k, body);
    case Budgeted(ms, body) => GoesOn(moments, Narrowed(deadline, ms, moments(k)), k + 1, body);
    case _ =>
  }

  lemma StaysSpent(moments: nat -> Moment, deadline: Deadline, j: nat, k: nat)
    requires Steady(moments) && j <= k && Spent(deadline, moments(j))
    ensures Spent(deadline, moments(k))
  {
    assert moments(j).now <= moments(k).now;
  }

  /** With its budget spent a script comes to what it does while the clock stands still. */
  lemma {:induction false} SpentFromStart(moments: nat -> Moment, deadline: Deadline, k: nat, work: Work)
    requires Steady(moments) && Spent(deadline, moments(k))
    ensures EffectOf(moments, deadline, k, work).ok == EndsWell(work, true)
    ensures EffectOf(moments, deadline, k, work).refused > 0 <==> Issues(work)
    decreases work
  {
    match work
    case Then(first, second) =>
      var one := EffectOf(moments, deadline, k, first);
      SpentFromStart(moments, deadline, k, first);
      GoesOn(moments, deadline, k, first);
      StaysSpent(moments, deadline, k, one.next);
      SpentFromStart(moments, deadline, one.next, second);
      SpentIsWorse(first);
    case Try(body) => SpentFromStart(moments, deadline, k, body);
    case Nested(body) => SpentFromStart(moments, deadline, k, body);
    case Budgeted(ms, body) =>
      var scope := Narrowed(deadline, ms, moments(k));
      StaysSpent(moments, scope, k, k + 1);
      SpentFromStart(moments, scope, k + 1, body);
    case _ =>
  }

  lemma {:induction false} EndsWellAnyway(moments: nat -> Moment, deadline: Deadline, k: nat, work: Work)
    requires Steady(moments)
    ensures EffectOf(moments, deadline, k, work).ok ==> EndsWell(work, false)
    ensures EffectOf(moments, deadline, k, work).refused > 0 ==> Issues(work)
    decreases work
  {
    match work
    case Then(first, second) =>
      EndsWellAnyway(moments, deadline, k, first);
      EndsWellAnyway(moments, deadline, EffectOf(moments, deadline, k, first).next, second);
    case Try(body) => EndsWellAnyway(moments, deadline, k, body);
    case Nested(body) => EndsWellAnyway(moments, deadline, k, body);
    case Budgeted(ms, body) =>
      var scope := Narrowed(deadline, ms, moments(k));
      EndsWellAnyway(moments, scope, k + 1, body);
      if ms <= 0 {
        StaysSpent(moments, scope, k, k + 1);
        SpentFromStart(moments, scope, k + 1, body);
      }
    case _ =>
  }

  /** The deadline leaves at most `budget` at this moment. */
  predicate Leaves(deadline: Deadline, moment: Moment, budget: Option<int>) {
    budget.Some? ==> deadline.Some? && deadline.value <= moment.now + budget.value
  }

  predicate SpentAtEnd(moments: nat -> Moment, deadline: Deadline, effect: Effect) {
    Spent(deadline, moments(effect.next))
  }

  lemma LeavesLater(moments: nat -> Moment, deadline: Deadline, j: nat, k: nat, budget: Option<int>)
    requires Steady(moments) && j <= k && Leaves(deadline, moments(j), budget)
    ensures Leaves(deadline, moments(k), budget)
  {
    assert moments(j).now <= moments(k).now;
  }

  lemma ScopeLeaves(moments: nat -> Moment, deadline: Deadline, k: nat, ms: int, budget: Option<int>)
    requires Steady(moments) && Leaves(deadline, moments(k), budget)
    ensures var scope := Narrowed(deadline, ms, moments(k));
      if Shorter(ms, budget) then Leaves(scope, moments(k + 1), Some(ms))
      else scope == deadline && Leaves(scope, moments(k + 1), budget)
  {
    assert moments(k).now <= moments(k + 1).now;
  }

  /** A script that ends well has nothing held back but where `Breakable` or `SurvivesItsBudget` says so. */
  ghost predicate Explained(work: Work, budget: Option<int>, effect: Effect, spent: bool) {
    && (!spent && effect.refused > 0 ==> Refusable(work, budget))
    && (effect.ok && effect.refused > 0 ==> Breakable(work, budget) || (spent && SurvivesItsBudget(work)))
  }

  lemma {:induction false} AnyClock(moments: nat -> Moment, deadline: Deadline, k: nat, work: Work, budget: Option<int>)
    requires Steady(moments) && Leaves(deadline, moments(k), budget)
    ensures var effect := EffectOf(moments, deadline, k, work);
      Explained(work, budget, effect, SpentAtEnd(moments, deadline, effect))
    decreases work
  {
    match work
    case Then(first, second) =>
      var one := EffectOf(moments, deadline, k, first);
      GoesOn(moments, deadline, k, first);
      LeavesLater(moments, deadline, k, one.next, budget);
      AnyClock(moments, deadline, k, first, budget);
      AnyClock(moments, deadline, one.next, second, budget);
      BothExplained(moments, deadline, k, first, second, budget);
    case Try(body) =>
      AnyClock(moments, deadline, k, body, budget);
      EndsWellAnyway(moments, deadline, k, body);
    case Nested(body) => AnyClock(moments, deadline, k, body, budget);
    case Budgeted(ms, body) =>
      var scope := Narrowed(deadline, ms, moments(k));
      ScopeLeaves(moments, deadline, k, ms, budget);
      AnyClock(moments, scope, k + 1, body, if Shorter(ms, budget) then Some(ms) else budget);
      ScopeExplained(moments, deadline, k, ms, body, budget);
    case _ =>
  }

  lemma BothExplained(moments: nat -> Moment, deadline: Deadline, k: nat, first: Work, second: Work,
                      budget: Option<int>)
    requires Steady(moments)
    requires var one := EffectOf(moments, deadline, k, first);
      Explained(first, budget, one, SpentAtEnd(moments, deadline, one))
    requires var two := EffectOf(moments, deadline, EffectOf(moments, deadline, k, first).next, second);
      Explained(second, budget, two, SpentAtEnd(moments, deadline, two))
    ensures var effect := EffectOf(moments, deadline, k, Then(first, second));
      Explained(Then(first, second), budget, effect, SpentAtEnd(moments, deadline, effect))
  {
    var one := EffectOf(moments, deadline, k, first);
    var two := EffectOf(moments, deadline, one.next, second);
    GoesOn(moments, deadline, one.next, second);
    EndsWellAnyway(moments, deadline, k, first);
    EndsWellAnyway(moments, deadline, one.next, second);
    if SpentAtEnd(moments, deadline, one) {
      StaysSpent(moments, deadline, one.next, two.next);
      SpentFromStart(moments, deadline, one.next, second);
    }
  }

  lemma ScopeExplained(moments: nat -> Moment, deadline: Deadline, k: nat, ms: int, body: Work, budget: Option<int>)
    requires Steady(moments) && Leaves(deadline, moments(k), budget)
    requires var scope := Narrowed(deadline, ms, moments(k));
      var effect := EffectOf(moments, scope, k + 1, body);
      Explained(body, if Shorter(ms, budget) then Some(ms) else budget, effect, SpentAtEnd(moments, scope, effect))
    ensures var effect := EffectOf(moments, deadline, k, Budgeted(ms, body));
      Explained(Budgeted(ms, body), budget, effect, SpentAtEnd(moments, deadline, effect))
  {
    var scope := Narrowed(deadline, ms, moments(k));
    ScopeLeaves(moments, deadline, k, ms, budget);
    EndsWellAnyway(moments, scope, k + 1, body);
    if ms <= 0 {
      StaysSpent(moments, scope, k, k + 1);
      SpentFromStart(moments, scope, k + 1, body);
    }
  }

  // ----- a clock that shows it -----

  /** It stands still, jumps once, and stands still again. */
  function Jump(at: nat, to: int): nat -> Moment {
    k => Moment(if k < at then 0 else to, Runs)
  }

  lemma JumpIsSteady(at: nat, to: nat)
    ensures Steady(Jump(at, to))
  {
  }

  /** Only the moments on the way matter. */
  ghost predicate SameTimes(one: nat -> Moment, two: nat -> Moment, from: nat, to: nat) {
    forall k: nat :: from <= k < to ==> one(k).now == two(k).now
  }

  lemma {:induction false} SameEffect(one: nat -> Moment, two: nat -> Moment, deadline: Deadline, k: nat, work: Work)
    requires SameTimes(one, two, k, EffectOf(one, deadline, k, work).next)
    ensures EffectOf(two, deadline, k, work) == EffectOf(one, deadline, k, work)
    decreases work
  {
    match work
    case Then(first, second) =>
      var mid := EffectOf(one, deadline, k, first);
      GoesOn(one, deadline, k, first);
      GoesOn(one, deadline, mid.next, second);
      SameEffect(one, two, deadline, k, first);
      if mid.ok { SameEffect(one, two, deadline, mid.next, second); }
    case Try(body) => SameEffect(one, two, deadline, k, body);
    case Nested(body) => SameEffect(one, two, deadline, k, body);
    case Budgeted(ms, body) =>
      GoesOn(one, Narrowed(deadline, ms, one(k)), k + 1, body);
      SameEffect(one, two, Narrowed(deadline, ms, one(k)), k + 1, body);
    case _ =>
  }

  /** From `from` on the clock shows `now`. */
  ghost predicate Still(moments: nat -> Moment, from: nat, now: int) {
    forall k: nat :: k >= from ==> moments(k).now == now
  }

  lemma {:induction false} OnStillClock(moments: nat -> Moment, deadline: Deadline, k: nat, work: Work, now: int)
    requires Still(moments, k, now) && !(deadline.Some? && deadline.value <= now)
    ensures EffectOf(moments, deadline, k, work).ok == EndsWell(work, false)
    decreases work
  {
    match work
    case Then(first, second) =>
      var one := EffectOf(moments, deadline, k, first);
      GoesOn(moments, deadline, k, first);
      OnStillClock(moments, deadline, k, first, now);
      OnStillClock(moments, deadline, one.next, second, now);
    case Nested(body) => OnStillClock(moments, deadline, k, body, now);
    case Budgeted(ms, body) =>
      if ms > 0 {
        OnStillClock(moments, Narrowed(deadline, ms, moments(k)), k + 1, body, now);
      } else {
        SpentOnStillClock(moments, Narrowed(deadline, ms, moments(k)), k + 1, body, now);
      }
    case _ =>
  }

  lemma {:induction false} SpentOnStillClock(moments: nat -> Moment, deadline: Deadline, k: nat, work: Work, now: int)
    requires Still(moments, k, now) && deadline.Some? && deadline.value <= now
    ensures EffectOf(moments, deadline, k, work).ok == EndsWell(work, true)
    decreases work
  {
    match work
    case Then(first, second) =>
      var one := EffectOf(moments, deadline, k, first);
      GoesOn(moments, deadline, k, first);
      SpentOnStillClock(moments, deadline, k, first, now);
      SpentOnStillClock(moments, deadline, one.next, second, now);
    case Nested(body) => SpentOnStillClock(moments, deadline, k, body, now);
    case Budgeted(ms, body) => SpentOnStillClock(moments, Narrowed(deadline, ms, moments(k)), k + 1, body, now);
    case _ =>
  }

  /** Where `first` ends while the clock stands at 0. */
  function Middle(deadline: Deadline, k: nat, first: Work): nat {
    EffectOf(Jump(k, 0), deadline, k, first).next
  }

  /** A jump after `first` leaves it alone. */
  lemma JumpLater(deadline: Deadline, k: nat, first: Work, at: nat, to: nat)
    requires Middle(deadline, k, first) <= at && EndsWell(first, false)
    requires deadline.Some? ==> deadline.value > 0
    ensures var one := EffectOf(Jump(at, to), deadline, k, first);
      one.ok && one.next == Middle(deadline, k, first) >= k
  {
    var still := Jump(k, 0);
    OnStillClock(still, deadline, k, first, 0);
    GoesOn(still, deadline, k, first);
    SameEffect(still, Jump(at, to), deadline, k, first);
  }

  /** The jump falls into the script, and a statement is held back. */
  ghost predicate Shows(at: nat, to: nat, deadline: Deadline, k: nat, work: Work) {
    k <= at <= EffectOf(Jump(at, to), deadline, k, work).next && EffectOf(Jump(at, to), deadline, k, work).refused > 0
  }

  ghost predicate ShowsWell(at: nat, to: nat, deadline: Deadline, k: nat, work: Work) {
    Shows(at, to, deadline, k, work) && EffectOf(Jump(at, to), deadline, k, work).ok
  }

  /** What is shown in one of two parts is shown in both together. */
  lemma ShownFirst(at: nat, to: nat, deadline: Deadline, k: nat, first: Work, second: Work)
    requires Shows(at, to, deadline, k, first)
    ensures Shows(at, to, deadline, k, Then(first, second))
  {
    GoesOn(Jump(at, to), deadline, EffectOf(Jump(at, to), deadline, k, first).next, second);
  }

  lemma ShownSecond(at: nat, to: nat, deadline: Deadline, k: nat, first: Work, second: Work)
    requires EndsWell(first, false) && (deadline.Some? ==> deadline.value > 0)
    requires Shows(at, to, deadline, Middle(deadline, k, first), second)
    ensures Shows(at, to, deadline, k, Then(first, second))
    ensures ShowsWell(at, to, deadline, Middle(deadline, k, first), second) ==>
      ShowsWell(at, to, deadline, k, Then(first, second))
  {
    JumpLater(deadline, k, first, at, to);
  }

  lemma ShownWellFirst(at: nat, to: nat, deadline: Deadline, k: nat, first: Work, second: Work)
    requires ShowsWell(at, to, deadline, k, first)
    requires EndsWell(second, deadline.Some? && deadline.value <= to)
    ensures ShowsWell(at, to, deadline, k, Then(first, second))
  {
    ShownFirst(at, to, deadline, k, first, second);
    var clock, from := Jump(at, to), EffectOf(Jump(at, to), deadline, k, first).next;
    assert Still(clock, from, to);
    if deadline.Some? && deadline.value <= to {
      SpentOnStillClock(clock, deadline, from, second, to);
    } else {
      OnStillClock(clock, deadline, from, second, to);
    }
  }

  /** A scope without any budget holds its first statement back at once. */
  lemma ShownAtOnce(deadline: Deadline, k: nat, ms: int, body: Work, to: nat)
    requires ms <= 0 && Issues(body)
    ensures Shows(k + 1, to, deadline, k, Budgeted(ms, body))
    ensures EndsWell(body, true) ==> ShowsWell(k + 1, to, deadline, k, Budgeted(ms, body))
  {
    var clock := Jump(k + 1, to);
    var scope := Narrowed(deadline, ms, clock(k));
    JumpIsSteady(k + 1, to);
    StaysSpent(clock, scope, k, k + 1);
    SpentFromStart(clock, scope, k + 1, body);
    GoesOn(clock, scope, k + 1, body);
  }

  /** What is shown inside a scope is shown by it. */
  lemma ShownInside(at: nat, to: nat, deadline: Deadline, k: nat, ms: int, body: Work)
    requires Shows(at, to, Narrowed(deadline, ms, Moment(0, Runs)), k + 1, body)
    ensures Shows(at, to, deadline, k, Budgeted(ms, body))
    ensures ShowsWell(at, to, Narrowed(deadline, ms, Moment(0, Runs)), k + 1, body) ==>
      ShowsWell(at, to, deadline, k, Budgeted(ms, body))
  {
  }

  /** A budget that runs out just before a statement. */
  lemma {:induction false} RunsOut(work: Work, deadline: Deadline, k: nat, to: nat) returns (at: nat)
    requires Issues(work) && deadline.Some? && 0 < deadline.value <= to
    ensures Shows(at, to, deadline, k, work)
    decreases work
  {
    match work
    case Then(first, second) =>
      if Issues(first) {
        at := RunsOut(first, deadline, k, to);
        ShownFirst(at, to, deadline, k, first, second);
      } else {
        at := RunsOut(second, deadline, Middle(deadline, k, first), to);
        ShownSecond(at, to, deadline, k, first, second);
      }
    case Try(body) => at := RunsOut(body, deadline, k, to);
    case Nested(body) => at := RunsOut(body, deadline, k, to);
    case Budgeted(ms, body) =>
      if ms <= 0 {
        at := k + 1;
        ShownAtOnce(deadline, k, ms, body, to);
      } else {
        at := RunsOut(body, Narrowed(deadline, ms, Moment(0, Runs)), k + 1, to);
        ShownInside(at, to, deadline, k, ms, body);
      }
    case _ => at := k;
  }

  lemma {:induction false} RunsOutWell(work: Work, deadline: Deadline, k: nat, to: nat) returns (at: nat)
    requires SurvivesItsBudget(work) && deadline.Some? && 0 < deadline.value <= to
    ensures ShowsWell(at, to, deadline, k, work)
    decreases work
  {
    match work
    case Then(first, second) =>
      if SurvivesItsBudget(first) && EndsWell(second, true) {
        at := RunsOutWell(first, deadline, k, to);
        ShownWellFirst(at, to, deadline, k, first, second);
      } else {
        at := RunsOutWell(second, deadline, Middle(deadline, k, first), to);
        ShownSecond(at, to, deadline, k, first, second);
      }
    case Try(body) => at := RunsOut(body, deadline, k, to);
    case Nested(body) => at := RunsOutWell(body, deadline, k, to);
    case Budgeted(ms, body) =>
      if ms <= 0 {
        at := k + 1;
        ShownAtOnce(deadline, k, ms, body, to);
      } else {
        at := RunsOutWell(body, Narrowed(deadline, ms, Moment(0, Runs)), k + 1, to);
        ShownInside(at, to, deadline, k, ms, body);
      }
    case _ =>
  }

  predicate Lasts(budget: Option<int>, to: nat) {
    budget.Some? ==> to < budget.value
  }

  /** A scope that runs out while the budget around it lasts. */
  lemma {:induction false} ScopeRunsOut(work: Work, budget: Option<int>, k: nat) returns (at: nat, to: nat)
    requires Refusable(work, budget) && (budget.Some? ==> budget.value > 0)
    ensures Lasts(budget, to) && Shows(at, to, budget, k, work)
    decreases work
  {
    match work
    case Then(first, second) =>
      if Refusable(first, budget) {
        at, to := ScopeRunsOut(first, budget, k);
        ShownFirst(at, to, budget, k, first, second);
      } else {
        at, to := ScopeRunsOut(second, budget, Middle(budget, k, first));
        ShownSecond(at, to, budget, k, first, second);
      }
    case Try(body) => at, to := ScopeRunsOut(body, budget, k);
    case Nested(body) => at, to := ScopeRunsOut(body, budget, k);
    case Budgeted(ms, body) =>
      if ms <= 0 {
        at, to := k + 1, 0;
        ShownAtOnce(budget, k, ms, body, 0);
      } else if Shorter(ms, budget) {
        to := ms;
        at := RunsOut(body, Some(ms), k + 1, ms);
        ShownInside(at, to, budget, k, ms, body);
      } else {
        at, to := ScopeRunsOut(body, budget, k + 1);
        ShownInside(at, to, budget, k, ms, body);
      }
    case _ =>
  }

  lemma {:induction false} Breaks(work: Work, budget: Option<int>, k: nat) returns (at: nat, to: nat)
    requires Breakable(work, budget) && (budget.Some? ==> budget.value > 0)
    ensures Lasts(budget, to) && ShowsWell(at, to, budget, k, work)
    decreases work, 1
  {
    match work
    case Then(first, second) =>
      if Breakable(first, budget) && EndsWell(second, false) {
        at, to := Breaks(first, budget, k);
        ShownWellFirst(at, to, budget, k, first, second);
      } else {
        at, to := Breaks(second, budget, Middle(budget, k, first));
        ShownSecond(at, to, budget, k, first, second);
      }
    case Try(body) => at, to := ScopeRunsOut(body, budget, k);
    case Nested(body) => at, to := Breaks(body, budget, k);
    case Budgeted(ms, body) => at, to := ScopeBreaks(ms, body, budget, k);
    case _ =>
  }

  lemma ScopeBreaks(ms: int, body: Work, budget: Option<int>, k: nat) returns (at: nat, to: nat)
    requires Breakable(Budgeted(ms, body), budget) && (budget.Some? ==> budget.value > 0)
    ensures Lasts(budget, to) && ShowsWell(at, to, budget, k, Budgeted(ms, body))
    decreases body, 2
  {
    if ms <= 0 {
      at, to := k + 1, 0;
      ShownAtOnce(budget, k, ms, body, 0);
    } else {
      if Shorter(ms, budget) && SurvivesItsBudget(body) {
        to := ms;
        at := RunsOutWell(body, Some(ms), k + 1, ms);
      } else {
        at, to := Breaks(body, if Shorter(ms, budget) then Some(ms) else budget, k + 1);
      }
      ShownInside(at, to, budget, k, ms, body);
    }
  }

  // ----- exactly -----

  /** A script is always whole exactly when no scope in it can run out before the budget around it and the
      script still end well. */
  lemma WholeExactly(work: Work)
    ensures AlwaysWhole(work) <==> !Breakable(work, None)
  {
    if Breakable(work, None) {
      var at, to := Breaks(work, None, 2);
      var clock := Jump(at, to);
      JumpIsSteady(at, to);
      TransactedShortOfIntended(clock, None, 0, work);
      assert !WholeRun(Transacted(clock, None, 0, work), clock, None, work);
    } else {
      forall moments: nat -> Moment, deadline: Deadline, k: nat | Steady(moments)
        ensures WholeRun(Transacted(moments, deadline, k, work), moments, deadline, work)
      {
        Unbroken(moments, deadline, k, work);
      }
    }
  }

  lemma Unbroken(moments: nat -> Moment, deadline: Deadline, k: nat, work: Work)
    requires Steady(moments) && !Breakable(work, None)
    ensures WholeRun(Transacted(moments, deadline, k, work), moments, deadline, work)
  {
    var begin := Opened(moments, deadline, k);
    if begin.Some? {
      AnyClock(moments, deadline, begin.value, work, None);
      RefusalsAreMissing(moments, deadline, begin.value, work);
    }
  }

  /** Save a within its own scope, its error caught, then save b, all of it within `ms`. */
  function Inner(a: Write, own: int): Work { Try(Budgeted(own, Save(a))) }

  function Outer(a: Write, own: int, b: Write, ms: int): Work { Budgeted(ms, Then(Inner(a, own), Save(b))) }

  /** It is always whole exactly when its own scope cannot run out first: then b fails as well. */
  lemma WholeUnlessShorter(a: Write, own: int, b: Write, ms: int)
    requires ms > 0
    ensures AlwaysWhole(Outer(a, own, b, ms)) <==> own >= ms
  {
    WholeExactly(Outer(a, own, b, ms));
    var scope := Budgeted(own, Save(a));
    assert !Refusable(Save(a), Some(ms)) && Issues(Save(a));
    assert Refusable(scope, Some(ms)) <==> own < ms;
    assert Breakable(Inner(a, own), Some(ms)) <==> own < ms;
    assert Breakable(Then(Inner(a, own), Save(b)), Some(ms)) <==> own < ms;
    assert !SurvivesItsBudget(Then(Inner(a, own), Save(b)));
  }
}
