/** Any number of requests in the retry loop of one client, sharing its limiter
    (resilient-client.ts, #executeWithRetry): every way out of an attempt, in every interleaving. */
module RetryLoop {
  import opened Wrappers
  import Limiter

  datatype Config = Config(maxRetries: nat, passthrough4xx: bool, limiter: Limiter.Config)

  /** What the dispatcher answers: a status that is retried, another 4xx, any other status; the
      abort of a spent budget, an OutboundError, or an error with a retryable code or not. */
  datatype Answer =
    | RetryStatus | ClientError | Response
    | TimeoutAbort | Outbound | RetryableError | OtherError

  datatype Outcome = Returned | DeadlineExceeded | RetriesExhausted | Rejected | NetworkError | Rethrown

  /** Where a request is in the loop: at the top of an attempt, queued for a slot, holding one
      before or after the dispatch, backing off before the next attempt, or over. */
  datatype Phase =
    | Top(attempt: nat)
    | Queued(attempt: nat)
    | Holding(attempt: nat, sent: bool)
    | BackingOff(attempt: nat)
    | Over(outcome: Outcome)

  /** `dispatches` counts what each request has sent, `retries` the client's backoffs. */
  datatype Client = Client(
    limiter: Limiter.State,
    phases: map<nat, Phase>,
    dispatches: map<nat, nat>,
    retries: nat)

  datatype Step =
    | Start(r: nat)
    /** The budget is read; unless it is spent the request asks for a slot. */
    | Enter(r: nat, spent: bool)
    /** A woken waiter runs and asks again. */
    | Wake(r: nat)
    /** The budget ran out while waiting for the slot. */
    | LateSlot(r: nat)
    | Dispatch(r: nat)
    | Settle(r: nat, answer: Answer, rtt: int)
    | BackoffEnds(r: nat)

  predicate Enabled(s: Client, step: Step) {
    match step
    case Start(r) => r !in s.phases
    case Enter(r, spent) => r in s.phases && s.phases[r].Top?
    case Wake(r) => r in s.phases && s.phases[r].Queued? && r in s.limiter.woken
    case LateSlot(r) => r in s.phases && s.phases[r].Holding? && !s.phases[r].sent
    case Dispatch(r) => r in s.phases && s.phases[r].Holding? && !s.phases[r].sent && r in s.dispatches
    case Settle(r, answer, rtt) => r in s.phases && s.phases[r].Holding? && s.phases[r].sent
    case BackoffEnds(r) => r in s.phases && s.phases[r].BackingOff?
  }

  function At(s: Client, r: nat, phase: Phase): Client {
    s.(phases := s.phases[r := phase])
  }

  /** acquire(): a slot at once, or the end of the queue. */
  function Acquire(s: Client, r: nat, attempt: nat): Client {
    At(s, r, if s.limiter.inFlight < s.limiter.limit then Holding(attempt, false) else Queued(attempt))
      .(limiter := Limiter.Acquiring(s.limiter, r))
  }

  predicate CountsAsFailure(answer: Answer) {
    !answer.ClientError? && !answer.Response?
  }

  function AfterAnswer(c: Config, attempt: nat, answer: Answer): Phase {
    match answer
    case TimeoutAbort => Over(DeadlineExceeded)
    case RetryStatus => if attempt < c.maxRetries then BackingOff(attempt) else Over(RetriesExhausted)
    case ClientError => if c.passthrough4xx then Over(Returned) else Over(Rejected)
    case Response => Over(Returned)
    case Outbound => Over(Rethrown)
    case RetryableError => if attempt < c.maxRetries then BackingOff(attempt) else Over(NetworkError)
    case OtherError => Over(NetworkError)
  }

  function Next(c: Config, s: Client, step: Step): Client
    requires Enabled(s, step)
  {
    match step
    case Start(r) => At(s, r, Top(0)).(dispatches := s.dispatches[r := 0])
    case Enter(r, spent) =>
      if spent then At(s, r, Over(DeadlineExceeded)) else Acquire(s, r, s.phases[r].attempt)
    case Wake(r) =>
      Acquire(s.(limiter := s.limiter.(woken := s.limiter.woken - {r})), r, s.phases[r].attempt)
    case LateSlot(r) => At(s, r, Over(DeadlineExceeded)).(limiter := Limiter.Cancelled(s.limiter))
    case Dispatch(r) =>
      At(s, r, s.phases[r].(sent := true)).(dispatches := s.dispatches[r := s.dispatches[r] + 1])
    case Settle(r, answer, rtt) =>
      var after := AfterAnswer(c, s.phases[r].attempt, answer);
      At(s, r, after).(
        limiter := Limiter.Released(c.limiter, s.limiter, rtt, CountsAsFailure(answer)),
        retries := if after.BackingOff? then s.retries + 1 else s.retries)
    case BackoffEnds(r) => At(s, r, Top(s.phases[r].attempt + 1))
  }

  /** The first limit is whatever the configuration says, in bounds or not. */
  ghost predicate Init(c: Config, s: Client) {
    && s.limiter == Limiter.State(s.limiter.limit, 0, None, [], {})
    && s.phases == map[] && s.dispatches == map[] && s.retries == 0
  }

  // ----- one request on its own -----

  /** What one attempt meets: a budget spent before or while waiting for the slot, else an answer; and
      the limiter as the other requests have left it by its turn, and by the answer. */
  datatype Try = Try(spent: bool, late: bool, answer: Answer, rtt: int, turn: Limiter.State, settled: Limiter.State)

  /** How the attempt ends the request, if it does. */
  function Ends(c: Config, attempt: nat, t: Try): Option<Outcome> {
    if t.spent || t.late then Some(DeadlineExceeded)
    else
      var after := AfterAnswer(c, attempt, t.answer);
      if after.Over? then Some(after.outcome) else None
  }

  /** What a request asks of the limiter. */
  datatype Call = Took | GaveBack | Observed(rtt: int, failed: bool)

  /** The calls of one attempt: each dispatch is observed once, as the success or failure it was; a slot
      that came too late is given back unobserved. */
  function CallsOf(t: Try): seq<Call> {
    if t.spent then [] else if t.late then [Took, GaveBack] else [Took, Observed(t.rtt, CountsAsFailure(t.answer))]
  }

  function AllCalls(tries: seq<Try>, n: nat): seq<Call>
    requires n <= |tries|
  {
    if n == 0 then [] else AllCalls(tries, n - 1) + CallsOf(tries[n - 1])
  }

  /** What the last attempt that had the limiter leaves of it. */
  function LeftBy(limits: Limiter.Config, t: Try, before: Limiter.State, attempt: nat): Limiter.State {
    if t.spent then before
    else if t.late then Limiter.Cancelled(Limiter.Acquiring(t.turn, attempt))
    else Limiter.Released(limits, t.settled, t.rtt, CountsAsFailure(t.answer))
  }

  /** The other requests move on while this one waits. */
  method OthersMove(limiter: Limiter.AdaptiveConcurrencyLimiter, s: Limiter.State)
    modifies limiter
    ensures limiter.Value() == s
  {
    limiter.limit, limiter.inFlight, limiter.minRtt := s.limit, s.inFlight, s.minRtt;
    limiter.waiters, limiter.woken := s.waiters, s.woken;
  }

  /** Every slot taken is given back by the very next call. */
  lemma {:induction false} TakenAndGivenBack(tries: seq<Try>, n: nat)
    requires n <= |tries|
    ensures var calls := AllCalls(tries, n);
      |calls| % 2 == 0 && forall i :: 0 <= i < |calls| ==> (calls[i].Took? <==> i % 2 == 0)
  {
    if n > 0 { TakenAndGivenBack(tries, n - 1); }
  }

  /** One time round the loop. */
  method Attempt(c: Config, limiter: Limiter.AdaptiveConcurrencyLimiter?, attempt: nat, t: Try)
      returns (end: Option<Outcome>, calls: seq<Call>)
    requires attempt <= c.maxRetries && t.turn.inFlight < t.turn.limit
    modifies limiter
    ensures end == Ends(c, attempt, t)
    // only a status or an error that is retried goes round again, and not for ever
    ensures end.None? <==>
      !t.spent && !t.late && attempt < c.maxRetries && (t.answer.RetryStatus? || t.answer.RetryableError?)
    ensures t.spent || t.late || t.answer.TimeoutAbort? ==> end == Some(DeadlineExceeded)
    ensures !t.spent && !t.late ==>
      && (t.answer.RetryStatus? && attempt == c.maxRetries ==> end == Some(RetriesExhausted))
      && (t.answer.RetryableError? && attempt == c.maxRetries ==> end == Some(NetworkError))
      && (t.answer.ClientError? ==> end == if c.passthrough4xx then Some(Returned) else Some(Rejected))
      && (t.answer.Response? ==> end == Some(Returned))
      && (t.answer.Outbound? ==> end == Some(Rethrown))
      && (t.answer.OtherError? ==> end == Some(NetworkError))
    // an answer is a success for the limiter exactly when it is a response that is not retried
    ensures limiter != null && !t.spent && !t.late ==>
      calls == [Took, Observed(t.rtt, !(t.answer.Response? || t.answer.ClientError?))]
      && limiter.inFlight == t.settled.inFlight - 1
    // a slot that came too late is given back, and nothing learnt from it
    ensures limiter != null && !t.spent && t.late ==>
      calls == [Took, GaveBack] && limiter.inFlight == t.turn.inFlight && limiter.limit == t.turn.limit
    ensures t.spent ==> calls == []
    ensures calls == if limiter == null then [] else CallsOf(t)
    ensures limiter != null ==> limiter.Value() == LeftBy(limiter.config, t, old(limiter.Value()), attempt)
  {
    calls := [];
    if t.spent { return Some(DeadlineExceeded), []; }
    if limiter != null {
      OthersMove(limiter, t.turn);
      var granted := limiter.Acquire(attempt);
      calls := [Took];
    }
    if t.late {
      if limiter != null {
        limiter.Cancel();
        calls := calls + [GaveBack];
      }
      return Some(DeadlineExceeded), calls;
    }
    if limiter != null {
      OthersMove(limiter, t.settled);
      limiter.Release(t.rtt, CountsAsFailure(t.answer));
      calls := calls + [Observed(t.rtt, CountsAsFailure(t.answer))];
    }
    match t.answer
    case TimeoutAbort => end := Some(DeadlineExceeded);
    case RetryStatus => end := if attempt < c.maxRetries then None else Some(RetriesExhausted);
    case ClientError => end := Some(if c.passthrough4xx then Returned else Rejected);
    case Response => end := Some(Returned);
    case Outbound => end := Some(Rethrown);
    case RetryableError => end := if attempt < c.maxRetries then None else Some(NetworkError);
    case OtherError => end := Some(NetworkError);
  }

  /** The loop, among other requests of the same limiter (if there is one): acquire() returns at a turn
      with a slot free. */
  method ExecuteWithRetry(c: Config, limiter: Limiter.AdaptiveConcurrencyLimiter?, tries: seq<Try>)
      returns (outcome: Outcome, dispatches: nat, retries: nat, calls: seq<Call>)
    requires |tries| == c.maxRetries + 1
    requires forall t :: t in tries ==> t.turn.inFlight < t.turn.limit
    modifies limiter
    // the first attempt that ends the request decides; every one before it was dispatched and retried
    ensures retries <= c.maxRetries && Ends(c, retries, tries[retries]) == Some(outcome)
    ensures forall k :: 0 <= k < retries ==> Ends(c, k, tries[k]).None?
    ensures forall k :: 0 <= k < retries ==>
      !tries[k].spent && !tries[k].late && (tries[k].answer.RetryStatus? || tries[k].answer.RetryableError?)
    ensures var last := tries[retries];
      if last.spent || last.late || last.answer.TimeoutAbort? then outcome == DeadlineExceeded
      else
        && (last.answer.RetryStatus? ==> retries == c.maxRetries && outcome == RetriesExhausted)
        && (last.answer.RetryableError? ==> retries == c.maxRetries && outcome == NetworkError)
        && (last.answer.ClientError? ==> outcome == if c.passthrough4xx then Returned else Rejected)
        && (last.answer.Response? ==> outcome == Returned)
        && (last.answer.Outbound? ==> outcome == Rethrown)
        && (last.answer.OtherError? ==> outcome == NetworkError)
    ensures dispatches == retries + if tries[retries].spent || tries[retries].late then 0 else 1
    ensures calls == if limiter == null then [] else AllCalls(tries, retries + 1)
    ensures limiter != null && !tries[retries].spent ==>
      limiter.Value() == LeftBy(limiter.config, tries[retries], old(limiter.Value()), retries)
  {
    dispatches, retries, calls := 0, 0, [];
    for attempt := 0 to c.maxRetries + 1
      invariant retries == dispatches == attempt <= c.maxRetries
      invariant forall k :: 0 <= k < attempt ==> Ends(c, k, tries[k]).None?
      invariant calls == if limiter == null then [] else AllCalls(tries, attempt)
    {
      assert tries[attempt] in tries;
      var end, more := Attempt(c, limiter, attempt, tries[attempt]);
      calls := calls + more;
      if !tries[attempt].spent && !tries[attempt].late { dispatches := dispatches + 1; }
      if end.Some? { return end.value, dispatches, retries, calls; }
      retries := retries + 1;
    }
    outcome := NetworkError;
    assert false;
  }

  // ----- what every step keeps -----

  function Holders(phases: map<nat, Phase>): set<nat> {
    set r | r in phases && phases[r].Holding?
  }

  function QueuedRequests(phases: map<nat, Phase>): set<nat> {
    set r | r in phases && phases[r].Queued?
  }

  /** The queue holds each blocked request once, unless it is woken already. */
  ghost predicate QueueIsExact(s: Client) {
    && (forall i, j :: 0 <= i < j < |s.limiter.waiters| ==> s.limiter.waiters[i] != s.limiter.waiters[j])
    && (forall r :: r in s.limiter.waiters ==> r !in s.limiter.woken)
    && (forall r :: r in QueuedRequests(s.phases) <==> r in s.limiter.waiters || r in s.limiter.woken)
  }

  /** How many dispatches a request has made by this phase; at most, when it is over early. */
  function Sent(c: Config, phase: Phase): nat {
    match phase
    case Top(attempt) => attempt
    case Queued(attempt) => attempt
    case Holding(attempt, sent) => if sent then attempt + 1 else attempt
    case BackingOff(attempt) => attempt + 1
    case Over(_) => c.maxRetries + 1
  }

  /** Retries are said to be exhausted only when they are. */
  predicate WithinBudget(c: Config, s: Client, r: nat)
    requires r in s.phases
  {
    && r in s.dispatches && s.dispatches[r] <= Sent(c, s.phases[r])
    && (!s.phases[r].Over? || s.phases[r].outcome.RetriesExhausted? ==> s.dispatches[r] == Sent(c, s.phases[r]))
    && (!s.phases[r].Over? ==> s.phases[r].attempt <= c.maxRetries)
    && (s.phases[r].BackingOff? ==> s.phases[r].attempt < c.maxRetries)
  }

  ghost predicate Budgeted(c: Config, s: Client) {
    forall r :: r in s.phases ==> WithinBudget(c, s, r)
  }

  ghost predicate SlotsMatch(c: Config, s: Client) {
    && Limiter.NobodyIdle(s.limiter)
    && s.limiter.inFlight == |Holders(s.phases)|
    && QueueIsExact(s)
  }

  ghost predicate Inv(c: Config, s: Client) {
    SlotsMatch(c, s) && Budgeted(c, s)
  }

  lemma PhaseChange(phases: map<nat, Phase>, r: nat, phase: Phase)
    ensures Holders(phases[r := phase]) == if phase.Holding? then Holders(phases) + {r} else Holders(phases) - {r}
    ensures QueuedRequests(phases[r := phase])
      == if phase.Queued? then QueuedRequests(phases) + {r} else QueuedRequests(phases) - {r}
  {
  }

  /** Moving between phases outside the limiter. */
  lemma MoveKeeps(c: Config, s: Client, r: nat, phase: Phase)
    requires SlotsMatch(c, s) && r !in QueuedRequests(s.phases) && !phase.Queued?
    requires phase.Holding? <==> r in Holders(s.phases)
    ensures SlotsMatch(c, At(s, r, phase))
  {
    PhaseChange(s.phases, r, phase);
    assert Holders(s.phases[r := phase]) == Holders(s.phases);
    assert QueuedRequests(s.phases[r := phase]) == QueuedRequests(s.phases);
  }

  lemma AcquireKeeps(c: Config, s: Client, r: nat, attempt: nat)
    requires Limiter.NobodyIdle(s.limiter)
    requires s.limiter.inFlight == |Holders(s.phases)| && r !in Holders(s.phases)
    requires r !in s.limiter.waiters && r !in s.limiter.woken
    requires QueueIsExact(s.(phases := s.phases - {r}))
    ensures SlotsMatch(c, Acquire(s, r, attempt))
  {
    Limiter.OperationsLeaveNobodyIdle(c.limiter, s.limiter, r, 0, false);
    PhaseChange(s.phases, r, Acquire(s, r, attempt).phases[r]);
    AcquireQueues(s, r, attempt);
  }

  lemma AcquireQueues(s: Client, r: nat, attempt: nat)
    requires r !in s.limiter.waiters && r !in s.limiter.woken
    requires QueueIsExact(s.(phases := s.phases - {r}))
    ensures QueueIsExact(Acquire(s, r, attempt))
  {
    var s' := Acquire(s, r, attempt);
    var others := QueuedRequests(s.phases - {r});
    assert QueuedRequests(s'.phases) == if s'.phases[r].Queued? then others + {r} else others;
  }

  /** Draining wakes every waiter or none. */
  lemma DrainKeepsQueue(s: Client, limiter: Limiter.State)
    requires QueueIsExact(s)
    requires limiter.waiters == s.limiter.waiters && limiter.woken == s.limiter.woken
    ensures QueueIsExact(s.(limiter := Limiter.Drained(limiter)))
  {
  }

  /** Leaving an attempt with its slot given back, once, by cancel() or release(). */
  lemma LeavingKeeps(c: Config, s: Client, r: nat, phase: Phase, freed: Limiter.State)
    requires SlotsMatch(c, s) && r in Holders(s.phases) && !phase.Holding? && !phase.Queued?
    requires freed.inFlight == s.limiter.inFlight - 1
    requires freed.waiters == s.limiter.waiters && freed.woken == s.limiter.woken
    requires Limiter.NobodyIdle(Limiter.Drained(freed))
    ensures SlotsMatch(c, At(s, r, phase).(limiter := Limiter.Drained(freed)))
  {
    PhaseChange(s.phases, r, phase);
    DrainKeepsQueue(At(s, r, phase), freed);
  }

  lemma CancelKeeps(c: Config, s: Client, r: nat)
    requires SlotsMatch(c, s) && Enabled(s, LateSlot(r))
    ensures SlotsMatch(c, Next(c, s, LateSlot(r)))
  {
    Limiter.OperationsLeaveNobodyIdle(c.limiter, s.limiter, r, 0, false);
    LeavingKeeps(c, s, r, Over(DeadlineExceeded), s.limiter.(inFlight := s.limiter.inFlight - 1));
  }

  lemma SettleKeeps(c: Config, s: Client, r: nat, answer: Answer, rtt: int)
    requires SlotsMatch(c, s) && Enabled(s, Settle(r, answer, rtt))
    ensures SlotsMatch(c, Next(c, s, Settle(r, answer, rtt)))
  {
    var failed := CountsAsFailure(answer);
    Limiter.OperationsLeaveNobodyIdle(c.limiter, s.limiter, r, rtt, failed);
    Limiter.ReleaseDrains(c.limiter, s.limiter, rtt, failed);
    var released := Limiter.Released(c.limiter, s.limiter, rtt, failed);
    var freed :| released == Limiter.Drained(freed) && Limiter.Freed(s.limiter, freed);
    LeavingKeeps(c, s, r, AfterAnswer(c, s.phases[r].attempt, answer), freed);
  }

  lemma SlotsKept(c: Config, s: Client, step: Step)
    requires SlotsMatch(c, s) && Enabled(s, step)
    ensures SlotsMatch(c, Next(c, s, step))
  {
    match step
    case Start(r) => MoveKeeps(c, s, r, Top(0));
    case Enter(r, spent) =>
      if spent {
        MoveKeeps(c, s, r, Over(DeadlineExceeded));
      } else {
        AcquireKeeps(c, s, r, s.phases[r].attempt);
      }
    case Wake(r) => AcquireKeeps(c, s.(limiter := s.limiter.(woken := s.limiter.woken - {r})), r, s.phases[r].attempt);
    case LateSlot(r) => CancelKeeps(c, s, r);
    case Dispatch(r) => MoveKeeps(c, s, r, s.phases[r].(sent := true));
    case Settle(r, answer, rtt) => SettleKeeps(c, s, r, answer, rtt);
    case BackoffEnds(r) => MoveKeeps(c, s, r, Top(s.phases[r].attempt + 1));
  }

  lemma OwnBudgetKept(c: Config, s: Client, step: Step)
    requires Enabled(s, step) && (step.r in s.phases ==> WithinBudget(c, s, step.r))
    ensures step.r in Next(c, s, step).phases && WithinBudget(c, Next(c, s, step), step.r)
  {
  }

  lemma OthersUntouched(c: Config, s: Client, step: Step, q: nat)
    requires Enabled(s, step) && q != step.r && q in Next(c, s, step).phases
    ensures q in s.phases && Next(c, s, step).phases[q] == s.phases[q]
    ensures q in s.dispatches ==>
      q in Next(c, s, step).dispatches && Next(c, s, step).dispatches[q] == s.dispatches[q]
  {
  }

  lemma BudgetKept(c: Config, s: Client, step: Step)
    requires Budgeted(c, s) && Enabled(s, step)
    ensures Budgeted(c, Next(c, s, step))
  {
    var s' := Next(c, s, step);
    forall q | q in s'.phases ensures WithinBudget(c, s', q) {
      if q == step.r {
        OwnBudgetKept(c, s, step);
      } else {
        OthersUntouched(c, s, step, q);
        assert WithinBudget(c, s, q);
      }
    }
  }

  /** Where an answer leads: a status or an error that is retried to a backoff while retries are left, anything
      else to its own end. */
  lemma SettleLeads(c: Config, s: Client, r: nat, answer: Answer, rtt: int)
    requires Enabled(s, Settle(r, answer, rtt))
    ensures var attempt, phase := s.phases[r].attempt, Next(c, s, Settle(r, answer, rtt)).phases[r];
      && (phase == BackingOff(attempt) <==>
            (answer.RetryStatus? || answer.RetryableError?) && attempt < c.maxRetries)
      && (phase == Over(RetriesExhausted) <==> answer.RetryStatus? && attempt >= c.maxRetries)
      && (phase == Over(NetworkError) <==>
            answer.OtherError? || (answer.RetryableError? && attempt >= c.maxRetries))
      && (phase == Over(Returned) <==> answer.Response? || (answer.ClientError? && c.passthrough4xx))
      && (phase == Over(Rejected) <==> answer.ClientError? && !c.passthrough4xx)
      && (phase == Over(Rethrown) <==> answer.Outbound?)
      && (phase == Over(DeadlineExceeded) <==> answer.TimeoutAbort?)
  {
  }

  /** A slot is granted only while one is free. */
  lemma GrantedOnlyWhenFree(c: Config, s: Client, step: Step)
    requires Enabled(s, step) && !(Holders(Next(c, s, step).phases) <= Holders(s.phases))
    ensures s.limiter.inFlight < s.limiter.limit
  {
  }

  // ----- over whole runs -----

  ghost predicate Run(c: Config, states: seq<Client>, steps: seq<Step>) {
    && |states| == |steps| + 1 && Init(c, states[0])
    && forall i :: 0 <= i < |steps| ==> Enabled(states[i], steps[i]) && states[i + 1] == Next(c, states[i], steps[i])
  }

  lemma {:induction false} RunKeeps(c: Config, states: seq<Client>, steps: seq<Step>, i: nat)
    requires Run(c, states, steps) && i < |states|
    ensures Inv(c, states[i])
  {
    if i > 0 {
      RunKeeps(c, states, steps, i - 1);
      SlotsKept(c, states[i - 1], steps[i - 1]);
      BudgetKept(c, states[i - 1], steps[i - 1]);
    }
  }

  /** At every point of every run, whatever limits are configured. */
  lemma SlotsAreConserved(c: Config, states: seq<Client>, steps: seq<Step>, i: nat)
    requires Run(c, states, steps) && i < |states|
    ensures var s := states[i];
      // every slot in use belongs to a live attempt: each way out gave its slot back once
      && s.limiter.inFlight == |Holders(s.phases)|
      // with a slot free nobody is blocked but those already woken
      && (s.limiter.inFlight < s.limiter.limit ==> QueuedRequests(s.phases) == s.limiter.woken)
      // no request is sent more often than its retries allow
      && (forall r :: r in s.phases ==> r in s.dispatches && s.dispatches[r] <= c.maxRetries + 1)
      // and one whose retries are exhausted was sent that often
      && (forall r :: r in s.phases && s.phases[r] == Over(RetriesExhausted) ==> s.dispatches[r] == c.maxRetries + 1)
  {
    RunKeeps(c, states, steps, i);
  }

  // ----- the limit over a run -----

  lemma StepKeepsBounds(c: Config, s: Client, step: Step)
    requires Limiter.ValidConfig(c.limiter) && Enabled(s, step) && Limiter.InBounds(c.limiter, s.limiter.limit)
    ensures Limiter.InBounds(c.limiter, Next(c, s, step).limiter.limit)
  {
    if step.Settle? {
      Limiter.OperationsKeepBounds(c.limiter, s.limiter, step.r, step.rtt, CountsAsFailure(step.answer));
    }
  }

  /** With a factor that shrinks, the limit is within its bounds throughout exactly when it starts there. */
  lemma {:induction false} BoundsHoldIfAtFirst(c: Config, states: seq<Client>, steps: seq<Step>, i: nat)
    requires Limiter.ValidConfig(c.limiter) && Run(c, states, steps) && i < |states|
    ensures Limiter.InBounds(c.limiter, states[0].limiter.limit)
      <==> forall k :: 0 <= k <= i ==> Limiter.InBounds(c.limiter, states[k].limiter.limit)
  {
    if i > 0 {
      BoundsHoldIfAtFirst(c, states, steps, i - 1);
      if Limiter.InBounds(c.limiter, states[i - 1].limiter.limit) {
        StepKeepsBounds(c, states[i - 1], steps[i - 1]);
      }
    }
  }

  /** Starting from 1 or more there is always a slot to be had, so that with all of them free nobody is
      left waiting. */
  lemma {:induction false} SomeSlotAlways(c: Config, states: seq<Client>, steps: seq<Step>, i: nat)
    requires Limiter.ValidConfig(c.limiter) && Run(c, states, steps) && i < |states|
    requires states[0].limiter.limit >= 1
    ensures states[i].limiter.limit >= 1
    ensures Holders(states[i].phases) == {} ==> states[i].limiter.waiters == []
  {
    RunKeeps(c, states, steps, i);
    if i > 0 {
      SomeSlotAlways(c, states, steps, i - 1);
    }
  }

  /** Starting from less, no request ever gets one. */
  lemma {:induction false} NoSlotEver(c: Config, states: seq<Client>, steps: seq<Step>, i: nat)
    requires Run(c, states, steps) && i < |states| && states[0].limiter.limit <= 0
    ensures states[i].limiter.limit == states[0].limiter.limit && Holders(states[i].phases) == {}
  {
    RunKeeps(c, states, steps, i);
    if i > 0 {
      NoSlotEver(c, states, steps, i - 1);
      RunKeeps(c, states, steps, i - 1);
      var s, step := states[i - 1], steps[i - 1];
      assert step.LateSlot? || step.Dispatch? || step.Settle? ==> step.r in Holders(s.phases);
    }
  }
}
