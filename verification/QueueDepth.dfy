/** The bound on the job queue when several partitions are consumed at once (task-events.consumer.ts):
    the calls of one process take turns at their awaits, over one cached depth and one queue. */
module QueueDepth {
  import opened Wrappers
  import opened TaskEventsConsumer

  /** One partition's consumption: between messages; waiting for the queue's depth since some time, with
      what was counted for it; or sending, its job in the queue already or not. */
  datatype Slot = Idle | Asking(since: nat, count: Option<nat>) | Sending(stored: bool)

  /** `queued` are the jobs that wait in the queue. `foreign` is the history of those that came into it
      without an accepted send of this process: from other senders, put back after a failed attempt, or
      stored by a send whose answer was lost. */
  datatype State = State(now: nat, queued: nat, foreign: nat, depth: Option<Depth>, slots: seq<Slot>)

  datatype Turn =
    | Tick(ms: nat)
    | Begin(i: nat)
    /** The queue is counted for a call; the answer comes later, and answers can overtake each other. */
    | Read(i: nat)
    | Answer(i: nat, ok: bool)
    /** A send reaches the queue and adds its job. One whose key is held adds none. */
    | Store(i: nat)
    | End(i: nat, ok: bool)
    /** A worker takes a job. */
    | Take
    | Arrive

  predicate Stale(s: State) {
    s.depth.None? || s.now - s.depth.value.at > QUEUE_DEPTH_TTL_MS
  }

  predicate Enabled(s: State, turn: Turn) {
    match turn
    case Tick(_) => true
    case Begin(i) => i < |s.slots| && s.slots[i].Idle?
    case Read(i) => i < |s.slots| && s.slots[i].Asking? && s.slots[i].count.None?
    case Answer(i, ok) => i < |s.slots| && s.slots[i].Asking? && (ok ==> s.slots[i].count.Some?)
    case Store(i) => i < |s.slots| && s.slots[i] == Sending(false)
    case End(i, _) => i < |s.slots| && s.slots[i].Sending?
    case Take => s.queued > 0
    case Arrive => true
  }

  function Put(s: State, i: nat, slot: Slot): State
    requires i < |s.slots|
  {
    s.(slots := s.slots[i := slot])
  }

  /** Past the check, or back-pressure. */
  function Checked(limit: nat, waiting: nat): Slot {
    if waiting >= limit then Idle else Sending(false)
  }

  function Next(limit: nat, s: State, turn: Turn): State
    requires Enabled(s, turn)
  {
    match turn
    case Tick(ms) => s.(now := s.now + ms)
    case Begin(i) => Put(s, i, if Stale(s) then Asking(s.now, None) else Checked(limit, s.depth.value.waiting))
    case Read(i) => Put(s, i, s.slots[i].(count := Some(s.queued)))
    case Answer(i, ok) =>
      if !ok then Put(s, i, Idle)
      else
        var waiting := s.slots[i].count.value;
        Put(s, i, Checked(limit, waiting)).(depth := Some(Depth(waiting, s.slots[i].since)))
    case Store(i) => Put(s, i, Sending(true)).(queued := s.queued + 1)
    case End(i, ok) =>
      var s' := Put(s, i, Idle);
      if !ok then s'.(foreign := s.foreign + if s.slots[i].stored then 1 else 0)
      else if s.depth.Some? then s'.(depth := Some(s.depth.value.(waiting := s.depth.value.waiting + 1)))
      else s'
    case Take => s.(queued := s.queued - 1)
    case Arrive => s.(queued := s.queued + 1, foreign := s.foreign + 1)
  }

  /** `parallel` partitions are consumed at once; the queue starts with nothing in it. */
  function Start(parallel: nat): State {
    State(0, 0, 0, None, seq(parallel, i => Idle))
  }

  ghost predicate Run(limit: nat, parallel: nat, states: seq<State>, turns: seq<Turn>) {
    && |states| == |turns| + 1 && states[0] == Start(parallel)
    && forall i :: 0 <= i < |turns| ==>
      Enabled(states[i], turns[i]) && states[i + 1] == Next(limit, states[i], turns[i])
  }

  // ----- sums over the slots -----

  datatype Metric = Unstored | Stored | Counted(limit: nat) | Credit(limit: nat)

  /** A call's count below the limit is a credit: when it is answered, however late, that many more jobs are
      let in. */
  function Value(metric: Metric, slot: Slot): nat {
    match metric
    case Unstored => if slot == Sending(false) then 1 else 0
    case Stored => if slot == Sending(true) then 1 else 0
    case Counted(limit) => if slot.Asking? && slot.count.Some? && slot.count.value < limit then 1 else 0
    case Credit(limit) =>
      if slot.Asking? && slot.count.Some? && slot.count.value < limit then limit - slot.count.value else 0
  }

  function Sum(metric: Metric, slots: seq<Slot>, n: nat): nat
    requires n <= |slots|
  {
    if n == 0 then 0 else Sum(metric, slots, n - 1) + Value(metric, slots[n - 1])
  }

  lemma {:induction false} SumUpdated(metric: Metric, slots: seq<Slot>, i: nat, slot: Slot, n: nat)
    requires i < |slots| && n <= |slots|
    ensures Sum(metric, slots[i := slot], n)
      == Sum(metric, slots, n) + if i < n then Value(metric, slot) - Value(metric, slots[i]) else 0
  {
    if n > 0 { SumUpdated(metric, slots, i, slot, n - 1); }
  }

  /** Each slot is one thing at a time. */
  lemma {:induction false} SlotsFit(limit: nat, slots: seq<Slot>, n: nat)
    requires n <= |slots|
    ensures Sum(Unstored, slots, n) + Sum(Stored, slots, n) + Sum(Counted(limit), slots, n) <= n
  {
    if n > 0 { SlotsFit(limit, slots, n - 1); }
  }

  lemma {:induction false} CreditFits(limit: nat, slots: seq<Slot>, n: nat)
    requires n <= |slots|
    ensures Sum(Credit(limit), slots, n) <= Sum(Counted(limit), slots, n) * limit
  {
    if n > 0 {
      CreditFits(limit, slots, n - 1);
      var before := Sum(Counted(limit), slots, n - 1);
      assert (before + 1) * limit == before * limit + limit;
    }
  }

  lemma {:induction false} OneNotAsking(limit: nat, slots: seq<Slot>, i: nat, n: nat)
    requires i < n <= |slots| && !slots[i].Asking?
    ensures Sum(Counted(limit), slots, n) < n
  {
    if i == n - 1 { SlotsFit(limit, slots, n - 1); } else { OneNotAsking(limit, slots, i, n - 1); }
  }

  lemma {:induction false} NoneCounted(metric: Metric, parallel: nat, n: nat)
    requires n <= parallel
    ensures Sum(metric, Start(parallel).slots, n) == 0
  {
    if n > 0 { NoneCounted(metric, parallel, n - 1); }
  }

  // ----- the bound -----

  function Total(metric: Metric, s: State): nat { Sum(metric, s.slots, |s.slots|) }

  /** 0 + 1 + ... + (n - 1) */
  function Triangle(n: int): (t: nat)
    ensures n >= 1 ==> t >= n - 1
  {
    if n <= 0 then 0 else Triangle(n - 1) + n - 1
  }

  /** The slots that hold no credit: those that can send without another count. */
  function Free(limit: nat, s: State): int { |s.slots| - Total(Counted(limit), s) }

  predicate Passing(limit: nat, s: State) { !Stale(s) && s.depth.value.waiting < limit }

  /** The jobs that can still come in before another answer does. While the cached depth lets calls pass,
      each accepted send raises it, and the last of them may find every other free slot past the check. */
  function Window(limit: nat, s: State): int {
    if Passing(limit, s) then limit - s.depth.value.waiting + Free(limit, s) - 1 - Total(Stored, s)
    else Total(Unstored, s)
  }

  /** A credit that is spent ends the window it falls into and frees a slot for the ones after it. */
  function Reach(limit: nat, s: State): int {
    s.queued - s.foreign + Window(limit, s) + Total(Credit(limit), s) - Triangle(Free(limit, s))
  }

  predicate AllAsking(s: State) { forall i :: 0 <= i < |s.slots| ==> s.slots[i].Asking? }

  ghost predicate Kept(limit: nat, parallel: nat, s: State) {
    && |s.slots| == parallel
    && Reach(limit, s) <= parallel * limit
    && (AllAsking(s) ==> Stale(s))
  }

  lemma WindowFits(limit: nat, s: State)
    ensures Total(Unstored, s) + Total(Stored, s) <= Free(limit, s)
    ensures Total(Unstored, s) <= Window(limit, s)
  {
    SlotsFit(limit, s.slots, |s.slots|);
  }

  /** What putting a slot changes in a sum. */
  predicate Shifted(s: State, i: nat, slot: Slot, metric: Metric)
    requires i < |s.slots|
  {
    Total(metric, Put(s, i, slot)) == Total(metric, s) + Value(metric, slot) - Value(metric, s.slots[i])
  }

  lemma Moved(limit: nat, s: State, i: nat, slot: Slot)
    requires i < |s.slots|
    ensures Shifted(s, i, slot, Unstored) && Shifted(s, i, slot, Stored)
    ensures Shifted(s, i, slot, Counted(limit)) && Shifted(s, i, slot, Credit(limit))
  {
    SumUpdated(Unstored, s.slots, i, slot, |s.slots|);
    SumUpdated(Stored, s.slots, i, slot, |s.slots|);
    SumUpdated(Counted(limit), s.slots, i, slot, |s.slots|);
    SumUpdated(Credit(limit), s.slots, i, slot, |s.slots|);
  }

  /** Outside a read, nothing widens the reach. */
  lemma BeginKeeps(limit: nat, s: State, i: nat)
    requires Enabled(s, Begin(i))
    ensures Reach(limit, Next(limit, s, Begin(i))) <= Reach(limit, s)
  {
    Moved(limit, s, i, Next(limit, s, Begin(i)).slots[i]);
  }

  lemma AnswerKeeps(limit: nat, s: State, i: nat, ok: bool)
    requires Enabled(s, Answer(i, ok))
    ensures Reach(limit, Next(limit, s, Answer(i, ok))) <= Reach(limit, s)
  {
    Moved(limit, s, i, Next(limit, s, Answer(i, ok)).slots[i]);
    WindowFits(limit, s);
    WindowFits(limit, Next(limit, s, Answer(i, ok)));
  }

  lemma StoreKeeps(limit: nat, s: State, i: nat)
    requires Enabled(s, Store(i))
    ensures Reach(limit, Next(limit, s, Store(i))) <= Reach(limit, s)
  {
    Moved(limit, s, i, Sending(true));
  }

  lemma EndKeeps(limit: nat, s: State, i: nat, ok: bool)
    requires Enabled(s, End(i, ok))
    ensures Reach(limit, Next(limit, s, End(i, ok))) <= Reach(limit, s)
  {
    Moved(limit, s, i, Idle);
    WindowFits(limit, s);
    WindowFits(limit, Next(limit, s, End(i, ok)));
  }

  lemma RestKeeps(limit: nat, s: State, turn: Turn)
    requires (turn.Tick? || turn.Take? || turn.Arrive?) && Enabled(s, turn)
    ensures Reach(limit, Next(limit, s, turn)) <= Reach(limit, s)
  {
    var s' := Next(limit, s, turn);
    assert s'.slots == s.slots;
    WindowFits(limit, s);
  }

  lemma Multiplied(a: nat, b: nat, limit: nat)
    requires a < b && limit >= 1
    ensures a * limit + limit <= b * limit
    ensures a * limit + b - a <= b * limit
    ensures a + 2 <= b ==> a * limit + limit + limit <= b * limit
  {
    var d := b - a;
    assert b * limit == a * limit + d * limit;
    assert d * limit == limit + (d - 1) * limit;
    if d >= 2 { assert (d - 1) * limit == limit + (d - 2) * limit; }
  }

  /** How far a call's count reaches by the window it leaves: `before` calls held credit. */
  lemma CountFits(limit: nat, parallel: nat, s: State, before: nat)
    requires |s.slots| == parallel && (AllAsking(s) ==> Stale(s)) && limit >= 1
    requires Total(Counted(limit), s) == before + 1
    ensures before * limit + limit + Window(limit, s) - Triangle(Free(limit, s)) <= parallel * limit
  {
    WindowFits(limit, s);
    Multiplied(before, parallel, limit);
    if Passing(limit, s) {
      var k :| 0 <= k < parallel && !s.slots[k].Asking?;
      OneNotAsking(limit, s.slots, k, parallel);
    }
  }

  /** A count below the limit is worth the room it saw, and all credit never more than a whole queue for
      each call that holds some. */
  lemma ReadKeeps(limit: nat, parallel: nat, s: State, i: nat)
    requires Enabled(s, Read(i)) && Kept(limit, parallel, s)
    ensures Reach(limit, Next(limit, s, Read(i))) <= parallel * limit
  {
    var s' := Next(limit, s, Read(i));
    Moved(limit, s, i, s'.slots[i]);
    if s.queued < limit {
      CreditFits(limit, s.slots, parallel);
      assert AllAsking(s') ==> Stale(s') by { StillStale(limit, s, Read(i)); }
      CountFits(limit, parallel, s', Total(Counted(limit), s));
    }
  }

  lemma StepKeeps(limit: nat, parallel: nat, s: State, turn: Turn)
    requires Enabled(s, turn) && Kept(limit, parallel, s)
    ensures Kept(limit, parallel, Next(limit, s, turn))
  {
    var s' := Next(limit, s, turn);
    match turn {
      case Begin(i) => BeginKeeps(limit, s, i);
      case Read(i) => ReadKeeps(limit, parallel, s, i);
      case Answer(i, ok) => AnswerKeeps(limit, s, i, ok);
      case Store(i) => StoreKeeps(limit, s, i);
      case End(i, ok) => EndKeeps(limit, s, i, ok);
      case _ => RestKeeps(limit, s, turn);
    }
    StillStale(limit, s, turn);
  }

  lemma StillStale(limit: nat, s: State, turn: Turn)
    requires Enabled(s, turn) && (AllAsking(s) ==> Stale(s))
    ensures AllAsking(Next(limit, s, turn)) ==> Stale(Next(limit, s, turn))
  {
    var s' := Next(limit, s, turn);
    match turn {
      case Begin(i) => assert s'.slots[i].Asking? ==> Stale(s);
      case Answer(i, _) => assert !s'.slots[i].Asking?;
      case Store(i) => assert !s'.slots[i].Asking?;
      case End(i, _) => assert !s'.slots[i].Asking?;
      case Read(i) => assert forall k :: 0 <= k < |s.slots| ==> s'.slots[k].Asking? == s.slots[k].Asking?;
      case _ =>
    }
  }

  /** The most that waits in the queue in any run. */
  function Most(limit: nat, parallel: nat): nat { parallel * limit + Triangle(parallel) }

  lemma TriangleGrows(m: int, n: int)
    requires m <= n
    ensures Triangle(m) <= Triangle(n)
    decreases n - m
  {
    if m < n { TriangleGrows(m, n - 1); }
  }

  lemma {:induction false} RunKeeps(limit: nat, parallel: nat, states: seq<State>, turns: seq<Turn>, n: nat)
    requires Run(limit, parallel, states, turns) && n < |states|
    ensures Kept(limit, parallel, states[n])
  {
    if n == 0 {
      NoneCounted(Unstored, parallel, parallel);
      NoneCounted(Credit(limit), parallel, parallel);
    } else {
      RunKeeps(limit, parallel, states, turns, n - 1);
      StepKeeps(limit, parallel, states[n - 1], turns[n - 1]);
    }
  }

  /** At every point of every run. */
  lemma QueueIsBounded(limit: nat, parallel: nat, states: seq<State>, turns: seq<Turn>, n: nat)
    requires Run(limit, parallel, states, turns) && n < |states|
    ensures states[n].queued <= Most(limit, parallel) + states[n].foreign
  {
    RunKeeps(limit, parallel, states, turns, n);
    WindowFits(limit, states[n]);
    TriangleGrows(Free(limit, states[n]), parallel);
  }

  // ----- a run that fills the queue that far -----

  ghost predicate EndsIn(limit: nat, parallel: nat, states: seq<State>, turns: seq<Turn>, s: State) {
    Run(limit, parallel, states, turns) && states[|turns|] == s
  }

  ghost predicate Reached(limit: nat, parallel: nat, s: State) {
    exists states: seq<State>, turns: seq<Turn> :: EndsIn(limit, parallel, states, turns, s)
  }

  lemma ReachedNext(limit: nat, parallel: nat, s: State, turn: Turn)
    requires Reached(limit, parallel, s) && Enabled(s, turn)
    ensures Reached(limit, parallel, Next(limit, s, turn))
  {
    var states: seq<State>, turns: seq<Turn> :| EndsIn(limit, parallel, states, turns, s);
    var s' := Next(limit, s, turn);
    assert EndsIn(limit, parallel, states + [s'], turns + [turn], s');
  }

  const Empty: Slot := Asking(0, Some(0))

  /** The first slots are idle, those up to `to` are past the check, and the rest were told that the queue
      is empty, but have not got the answer yet. */
  function Wave(parallel: nat, idle: nat, to: nat): (slots: seq<Slot>)
    ensures |slots| == parallel
  {
    seq(parallel, i => if i < idle then Idle else if i < to then Sending(false) else Empty)
  }

  lemma WavePut(parallel: nat, idle: nat, to: nat)
    requires idle < to <= parallel
    ensures Wave(parallel, idle, to)[idle := Idle] == Wave(parallel, idle + 1, to)
    ensures Wave(parallel, idle + 1, to)[idle := Sending(false)] == Wave(parallel, idle, to)
  {
  }

  function Filling(queued: nat, waiting: nat, slots: seq<Slot>): State {
    State(0, queued, 0, Some(Depth(waiting, 0)), slots)
  }

  function Asked(parallel: nat, n: nat): State {
    State(0, 0, 0, None, seq(parallel, i => if i < n then Empty else Idle))
  }

  /** Every call has the depth read while the queue is empty. */
  lemma {:induction false} AllAsk(limit: nat, parallel: nat, n: nat)
    requires n <= parallel
    ensures Reached(limit, parallel, Asked(parallel, n))
  {
    if n == 0 {
      assert Asked(parallel, 0) == Start(parallel);
      assert EndsIn(limit, parallel, [Start(parallel)], [], Start(parallel));
    } else {
      AllAsk(limit, parallel, n - 1);
      var s := Asked(parallel, n - 1);
      ReachedNext(limit, parallel, s, Begin(n - 1));
      var s' := Next(limit, s, Begin(n - 1));
      ReachedNext(limit, parallel, s', Read(n - 1));
      assert Next(limit, s', Read(n - 1)) == Asked(parallel, n);
    }
  }

  /** One send by the first slot past the check. */
  lemma OneSent(limit: nat, parallel: nat, queued: nat, waiting: nat, idle: nat, to: nat)
    requires idle < to <= parallel && Reached(limit, parallel, Filling(queued, waiting, Wave(parallel, idle, to)))
    ensures Reached(limit, parallel, Filling(queued + 1, waiting + 1, Wave(parallel, idle + 1, to)))
  {
    var s := Filling(queued, waiting, Wave(parallel, idle, to));
    ReachedNext(limit, parallel, s, Store(idle));
    var s' := Next(limit, s, Store(idle));
    ReachedNext(limit, parallel, s', End(idle, true));
    WavePut(parallel, idle, to);
    assert Wave(parallel, idle, to)[idle := Sending(true)][idle := Idle] == Wave(parallel, idle + 1, to);
    assert Next(limit, s', End(idle, true)) == Filling(queued + 1, waiting + 1, Wave(parallel, idle + 1, to));
  }

  /** The last idle slot goes past the check. */
  lemma OnePassed(limit: nat, parallel: nat, queued: nat, waiting: nat, idle: nat, to: nat)
    requires idle < to <= parallel && waiting < limit
    requires Reached(limit, parallel, Filling(queued, waiting, Wave(parallel, idle + 1, to)))
    ensures Reached(limit, parallel, Filling(queued, waiting, Wave(parallel, idle, to)))
  {
    var s := Filling(queued, waiting, Wave(parallel, idle + 1, to));
    ReachedNext(limit, parallel, s, Begin(idle));
    WavePut(parallel, idle, to);
    assert Next(limit, s, Begin(idle)) == Filling(queued, waiting, Wave(parallel, idle, to));
  }

  /** One slot sends alone until the cached depth is one below the limit. */
  lemma {:induction false} FillAlone(limit: nat, parallel: nat, queued: nat, to: nat, waiting: nat)
    requires to < parallel && waiting < limit
    requires Reached(limit, parallel, Filling(queued, 0, Wave(parallel, to, to + 1)))
    ensures Reached(limit, parallel, Filling(queued + waiting, waiting, Wave(parallel, to, to + 1)))
  {
    if waiting > 0 {
      FillAlone(limit, parallel, queued, to, waiting - 1);
      OneSent(limit, parallel, queued + waiting - 1, waiting - 1, to, to + 1);
      OnePassed(limit, parallel, queued + waiting, waiting, to, to + 1);
    }
  }

  /** Then every free slot goes past the check. */
  lemma {:induction false} PassTogether(limit: nat, parallel: nat, queued: nat, waiting: nat, idle: nat, to: nat)
    requires idle < to <= parallel && waiting < limit
    requires Reached(limit, parallel, Filling(queued, waiting, Wave(parallel, to - 1, to)))
    ensures Reached(limit, parallel, Filling(queued, waiting, Wave(parallel, idle, to)))
    decreases if idle < to then to - idle else 0
  {
    if idle < to - 1 {
      PassTogether(limit, parallel, queued, waiting, idle + 1, to);
      OnePassed(limit, parallel, queued, waiting, idle, to);
    }
  }

  /** And all of them send. */
  lemma {:induction false} SendTogether(limit: nat, parallel: nat, queued: nat, waiting: nat, idle: nat, to: nat)
    requires idle <= to <= parallel
    requires Reached(limit, parallel, Filling(queued, waiting, Wave(parallel, 0, to)))
    ensures Reached(limit, parallel, Filling(queued + idle, waiting + idle, Wave(parallel, idle, to)))
  {
    if idle > 0 {
      SendTogether(limit, parallel, queued, waiting, idle - 1, to);
      OneSent(limit, parallel, queued + idle - 1, waiting + idle - 1, idle - 1, to);
    }
  }

  ghost predicate Filled(limit: nat, parallel: nat, queued: nat, n: nat) {
    if n == 0 then queued == 0 && Reached(limit, parallel, Asked(parallel, parallel))
    else exists waiting: nat :: Reached(limit, parallel, Filling(queued, waiting, Wave(parallel, n, n)))
  }

  /** One more late answer says that the queue is empty. */
  lemma OneAnswered(limit: nat, parallel: nat, queued: nat, n: nat)
    requires n < parallel && limit >= 1 && Filled(limit, parallel, queued, n)
    ensures Reached(limit, parallel, Filling(queued, 0, Wave(parallel, n, n + 1)))
  {
    if n == 0 {
      var s := Asked(parallel, parallel);
      ReachedNext(limit, parallel, s, Answer(n, true));
      assert Next(limit, s, Answer(n, true)) == Filling(queued, 0, Wave(parallel, n, n + 1));
    } else {
      var waiting: nat :| Reached(limit, parallel, Filling(queued, waiting, Wave(parallel, n, n)));
      var s := Filling(queued, waiting, Wave(parallel, n, n));
      ReachedNext(limit, parallel, s, Answer(n, true));
      assert Next(limit, s, Answer(n, true)) == Filling(queued, 0, Wave(parallel, n, n + 1));
    }
  }

  lemma {:induction false} Fill(limit: nat, parallel: nat, n: nat)
    requires n <= parallel && limit >= 1
    ensures Filled(limit, parallel, Most(limit, n), n)
  {
    if n == 0 {
      AllAsk(limit, parallel, parallel);
    } else {
      Fill(limit, parallel, n - 1);
      var queued := Most(limit, n - 1);
      OneAnswered(limit, parallel, queued, n - 1);
      FillAlone(limit, parallel, queued, n - 1, limit - 1);
      PassTogether(limit, parallel, queued + limit - 1, limit - 1, 0, n);
      SendTogether(limit, parallel, queued + limit - 1, limit - 1, n, n);
      MostGrows(limit, n);
    }
  }

  lemma MostGrows(limit: nat, n: nat)
    requires n >= 1
    ensures Most(limit, n) == Most(limit, n - 1) + limit + n - 1
  {
    assert n * limit == (n - 1) * limit + limit;
  }

  /** What a bound on the queue would say: no run takes it further, other senders' jobs aside. */
  ghost predicate Bounds(limit: nat, parallel: nat, bound: nat) {
    forall states: seq<State>, turns: seq<Turn> :: Run(limit, parallel, states, turns) ==>
      states[|turns|].queued <= bound + states[|turns|].foreign
  }

  /** No smaller bound holds. */
  lemma LeastBound(limit: nat, parallel: nat, bound: nat)
    requires limit >= 1
    ensures Bounds(limit, parallel, bound) <==> bound >= Most(limit, parallel)
  {
    if bound >= Most(limit, parallel) {
      forall states: seq<State>, turns: seq<Turn> | Run(limit, parallel, states, turns)
        ensures states[|turns|].queued <= bound + states[|turns|].foreign
      {
        QueueIsBounded(limit, parallel, states, turns, |turns|);
      }
    } else {
      Fill(limit, parallel, parallel);
      var waiting: nat :| Reached(limit, parallel,
        Filling(Most(limit, parallel), waiting, Wave(parallel, parallel, parallel)));
      var s := Filling(Most(limit, parallel), waiting, Wave(parallel, parallel, parallel));
      var states: seq<State>, turns: seq<Turn> :| EndsIn(limit, parallel, states, turns, s);
      assert Run(limit, parallel, states, turns) && states[|turns|].queued > bound;
    }
  }

  /** The queue stays within its limit, which the registry wants to be at least 1, in every run exactly when
      no two partitions are consumed at once. */
  lemma LimitHoldsForOneOnly(limit: nat, parallel: nat)
    requires limit >= 1
    ensures Bounds(limit, parallel, limit) <==> parallel <= 1
  {
    LeastBound(limit, parallel, limit);
    if parallel >= 2 { Multiplied(0, parallel, limit); }
  }

  /** Undisturbed by others, a call passes the check exactly when the consumer finds room, and leaves the
      depth that it goes by. */
  lemma UndisturbedCall(consumer: TaskEventsConsumer, s: State, i: nat)
    requires Enabled(s, Begin(i)) && s.depth == consumer.queueDepth
    ensures var begun := Next(consumer.maxWaiting, s, Begin(i));
      var checked := if Stale(s)
        then Next(consumer.maxWaiting, Next(consumer.maxWaiting, begun, Read(i)), Answer(i, true)) else begun;
      && checked.depth == consumer.Effective(s.now, Some(s.queued))
      && checked.slots == s.slots[i :=
        if consumer.RoomFor(s.now, Some(s.queued)).HasRoom? then Sending(false) else Idle]
  {
  }
}
