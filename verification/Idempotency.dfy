/** The Idempotency-Key protocol (idempotency.interceptor.ts): any number of concurrent requests
    over one store, whose calls may fail, with or without effect. */
module Idempotency {
  import opened Wrappers
  import opened IdempotencyStore
  import PgIdempotencyStore

  const LOCK_TTL_SECONDS: int := 30

  /** What a stored string can be: the sentinel, or JSON (None where the field is missing or of
      another type), or neither. */
  datatype Stored =
    | Processing
    | Json(status: Option<int>, body: Option<int>, fingerprint: Option<int>)
    | NotJson

  predicate IsCachedEntry(value: Stored) {
    value.Json? && value.status.Some? && 100 <= value.status.value < 600 && value.body.Some? && value.fingerprint.Some?
  }

  /** The entry a completed run leaves behind. */
  function EntryOf(status: int, body: int, fingerprint: int): Stored {
    Json(Some(status), Some(body), Some(fingerprint))
  }

  datatype Answer = Conflict | Replayed(status: int, body: int) | Returned(body: int) | HandlerFailed

  /** How a call of the store ends for the caller; a failed one may have taken effect. */
  datatype Call = Worked | Broke(applied: bool)

  /** Where a request is in `execute`. */
  datatype Phase =
    | Arrived
    | Evicting
    | Acquiring
    | Running(locked: bool, since: int)
    | Storing(since: int, body: int)
    | Releasing(since: int)
    | Answered(answer: Answer)

  /** Step 1: what follows from the entry found, or from a read that failed. */
  function OnRead(call: Call, existing: Option<Stored>, fingerprint: int, now: int): Phase {
    if call.Broke? then Running(false, now)
    else if existing.None? then Acquiring
    else if existing.value.Processing? then Answered(Conflict)
    else if !IsCachedEntry(existing.value) then Evicting
    else if existing.value.fingerprint.value != fingerprint then Answered(Conflict)
    else Answered(Replayed(existing.value.status.value, existing.value.body.value))
  }

  /** Step 2: the lock is ours, another's, or the store is not there. */
  function OnAcquire(call: Call, inserted: bool, now: int): Phase {
    if call.Broke? then Running(false, now)
    else if inserted then Running(true, now)
    else Answered(Conflict)
  }

  /** Step 3: `result` is None when the handler threw. */
  function OnHandled(phase: Phase, result: Option<int>): Phase
    requires phase.Running?
  {
    if phase.locked then (if result.Some? then Storing(phase.since, result.value) else Releasing(phase.since))
    else Answered(if result.Some? then Returned(result.value) else HandlerFailed)
  }

  // ----- one request on its own -----

  /** How each call of the store ends. */
  datatype Fates = Fates(get: Call, evict: Call, setNx: Call, store: Call, release: Call)

  predicate TookEffect(call: Call) {
    call.Worked? || call.applied
  }

  type Table = map<string, Entry<Stored>>

  /** What the entry found, if any, makes of the request. */
  function ReadOf(table: Table, key: string, fingerprint: int, now: int, fates: Fates): Phase {
    OnRead(fates.get, IdempotencyStore.Step(table, Get(key), now).0.value, fingerprint, now)
  }

  function AfterEvict(table: Table, key: string, read: Phase, fates: Fates): Table {
    if read.Evicting? && TookEffect(fates.evict) then table - {key} else table
  }

  /** The attempt on the lock, if it reached the store. */
  function AfterAcquire(table: Table, key: string, now: int, fates: Fates, pruned: set<string>): Table {
    if TookEffect(fates.setNx)
    then PgIdempotencyStore.PgStep(table, SetNx(key, Processing, LOCK_TTL_SECONDS), now, pruned).1
    else table
  }

  /** The end of a run under the lock: its result stored, or the lock removed, or neither. */
  function AfterRun(table: Table, key: string, entry: Option<Entry<Stored>>, fates: Fates): Table {
    if entry.Some? then (if TookEffect(fates.store) then table[key := entry.value] else table)
    else if TookEffect(fates.release) then table - {key}
    else table
  }

  /** A request that is not answered from the entry runs its handler unless a live entry keeps it from the
      lock; a store that does not answer keeps it from nothing. */
  predicate Runs(evicted: Table, key: string, now: int, fates: Fates) {
    fates.get.Broke? || fates.setNx.Broke? || key !in Live(evicted, now)
  }

  /** The entry that a successful handler asks for. */
  function NewEntry(status: int, result: Option<int>, fingerprint: int, expiresAt: int): Option<Entry<Stored>> {
    if result.Some? then Some(Entry(EntryOf(status, result.value, fingerprint), expiresAt)) else None
  }

  /** What a live entry, if there is one, holds. */
  function Found(table: Table, key: string, now: int): Option<Stored> {
    if key in table && table[key].expiresAt > now then Some(table[key].value) else None
  }

  /** An entry that a completed run can have left: a real status, a body, a fingerprint. */
  predicate Replayable(value: Stored) {
    value.Json? && value.body.Some? && value.fingerprint.Some? && value.status.Some? && 100 <= value.status.value <= 599
  }

  /** The entry decides, without a run. */
  predicate Answers(found: Option<Stored>) {
    found.Some? && (found.value.Processing? || Replayable(found.value))
  }

  lemma ReadFinds(table: Table, key: string, fingerprint: int, now: int, fates: Fates)
    ensures var read, found := ReadOf(table, key, fingerprint, now, fates), Found(table, key, now);
      && (fates.get.Broke? ==> read.Running?)
      && (fates.get.Worked? && found.None? ==> read.Acquiring?)
      && (fates.get.Worked? && found == Some(Processing) ==> read == Answered(Conflict))
      && (fates.get.Worked? && found.Some? && found.value.Json? && Replayable(found.value) ==>
            read == Answered(if found.value.fingerprint == Some(fingerprint)
                             then Replayed(found.value.status.value, found.value.body.value) else Conflict))
      && (fates.get.Worked? && found.Some? && !found.value.Processing? && !Replayable(found.value) ==> read.Evicting?)
  {}

  /** `execute` against the Postgres store, with nobody else in between. Any call of the store may fail,
      with or without effect, and an insert may prune any expired rows. `result` is what the handler does
      if it is called. */
  method Execute(store: PgIdempotencyStore.PgIdempotencyStore<Stored>, key: string, fingerprint: int, status: int,
                 ttl: int, now: int, fates: Fates, pruned: set<string>, result: Option<int>)
      returns (answer: Answer, ran: bool)
    requires PgIdempotencyStore.MayPrune(store.table, key, now, pruned)
    modifies store
    // a live entry of the same request is replayed, of another one or of one under way is a conflict; the
    // handler does not run and the store is not touched
    ensures var found := Found(old(store.table), key, now);
      fates.get.Worked? && Answers(found) ==>
        && !ran && store.table == old(store.table)
        && answer == if found.value.Json? && found.value.fingerprint == Some(fingerprint)
                     then Replayed(found.value.status.value, found.value.body.value) else Conflict
    // without the store the handler runs and nothing is stored
    ensures fates.get.Broke? ==> ran && store.table == old(store.table)
    ensures fates.get.Worked? && !Answers(Found(old(store.table), key, now)) && fates.setNx.Broke? ==> ran
    // without an entry to go by the lock is tried: had, unless an entry that could not be removed is in its place
    ensures var found := Found(old(store.table), key, now);
      fates.get.Worked? && !Answers(found) && fates.setNx.Worked? ==>
        (ran <==> found.None? || TookEffect(fates.evict)) && (!ran ==> answer == Conflict)
    ensures ran ==> answer == if result.Some? then Returned(result.value) else HandlerFailed
    // under the lock a result is stored for its time, and after a failure the lock is gone
    ensures ran && fates.get.Worked? && fates.setNx.Worked? && result.Some? && TookEffect(fates.store) ==>
      key in store.table
      && store.table[key] == Entry(Json(Some(status), Some(result.value), Some(fingerprint)), now + ttl)
    ensures ran && fates.get.Worked? && fates.setNx.Worked? && result.None? && TookEffect(fates.release) ==>
      key !in store.table
    // otherwise the lock stays for its half minute
    ensures ran && fates.get.Worked? && fates.setNx.Worked? && result.Some? && !TookEffect(fates.store) ==>
      key in store.table && store.table[key] == Entry(Processing, now + 30)
    ensures ran && fates.get.Worked? && fates.setNx.Worked? && result.None? && !TookEffect(fates.release) ==>
      key in store.table && store.table[key] == Entry(Processing, now + 30)
    // the same by the steps of the protocol: answered from the entry
    ensures var read := ReadOf(old(store.table), key, fingerprint, now, fates);
      read.Answered? ==> answer == read.answer && !ran && store.table == old(store.table)
    ensures var read := ReadOf(old(store.table), key, fingerprint, now, fates);
      !read.Answered? ==>
        var evicted := AfterEvict(old(store.table), key, read, fates);
        && ran == Runs(evicted, key, now, fates)
        && answer == (if !ran then Conflict else if result.Some? then Returned(result.value) else HandlerFailed)
        && var entry := NewEntry(status, result, fingerprint, now + ttl);
        store.table == TableAfter(evicted, key, now, fates, pruned, ran, entry)
  {
    ReadFinds(store.table, key, fingerprint, now, fates);
    var existing: Option<Stored> := None;
    if fates.get.Worked? {
      existing := store.Get(key, now);
    }
    var phase := OnRead(fates.get, existing, fingerprint, now);
    if phase.Answered? { return phase.answer, false; }
    if phase.Evicting? {
      if TookEffect(fates.evict) { store.Del(key); }
      phase := Acquiring;
    }
    if phase.Acquiring? {
      var inserted := false;
      if TookEffect(fates.setNx) {
        inserted := store.SetNx(key, Processing, LOCK_TTL_SECONDS, now, pruned);
      }
      phase := OnAcquire(fates.setNx, inserted, now);
      if phase.Answered? { return phase.answer, false; }
    }
    phase := OnHandled(phase, result);
    if phase.Releasing? && TookEffect(fates.release) { store.Del(key); }
    if phase.Storing? && TookEffect(fates.store) { store.Set(key, EntryOf(status, phase.body, fingerprint), ttl, now); }
    return if result.Some? then Returned(result.value) else HandlerFailed, true;
  }

  const ALL_WORK: Fates := Fates(Worked, Worked, Worked, Worked, Worked)

  /** The round trip: a request that ran and stored its result, and one with the same key before that expires.
      The same request gets the same status and body again, another one a conflict, and neither runs. */
  method Repeat(store: PgIdempotencyStore.PgIdempotencyStore<Stored>, key: string, first: int, second: int,
                status: int, ttl: int, now: int, later: int, pruned: set<string>, result: int, other: Option<int>)
      returns (ran: bool, answer: Answer, ranAgain: bool)
    requires PgIdempotencyStore.MayPrune(store.table, key, now, pruned)
    requires 100 <= status < 600 && now <= later < now + ttl
    modifies store
    ensures ran <==> !Answers(Found(old(store.table), key, now))
    ensures ran ==> !ranAgain && answer == if first == second then Replayed(status, result) else Conflict
  {
    var returned;
    returned, ran := Execute(store, key, first, status, ttl, now, ALL_WORK, pruned, Some(result));
    answer, ranAgain := Execute(store, key, second, status, ttl, later, ALL_WORK, {}, other);
  }

  /** The table a request leaves behind, from the read on. */
  function TableAfter(evicted: Table, key: string, now: int, fates: Fates, pruned: set<string>, ran: bool,
                      entry: Option<Entry<Stored>>): Table {
    if fates.get.Broke? then evicted
    else
      var acquired := AfterAcquire(evicted, key, now, fates, pruned);
      if ran && fates.setNx.Worked? then AfterRun(acquired, key, entry, fates) else acquired
  }

  /** What a request leaves at its own key and elsewhere: a result that was stored replays until it expires,
      a failed handler whose lock was removed leaves nothing, and other live entries are untouched. */
  lemma RequestLeaves(evicted: Table, key: string, now: int, fates: Fates, pruned: set<string>,
                      entry: Option<Entry<Stored>>)
    requires PgIdempotencyStore.MayPrune(evicted, key, now, pruned) && fates.get.Worked? && fates.setNx.Worked?
    requires Runs(evicted, key, now, fates)
    ensures var after := TableAfter(evicted, key, now, fates, pruned, true, entry);
      && (entry.Some? && TookEffect(fates.store) ==> key in after && after[key] == entry.value)
      && (entry.None? && TookEffect(fates.release) ==> key !in after)
      && (forall other :: other != key ==>
            (other in Live(after, now) <==> other in Live(evicted, now))
            && (other in Live(after, now) ==> after[other] == evicted[other]))
  {}

  // ----- all requests together -----

  datatype Request = Request(key: string, fingerprint: int, status: int, phase: Phase)

  /** A handler that returned: for which key and request, with which status and body. */
  datatype Completion = Completion(key: string, fingerprint: int, status: int, body: int)

  /** `completed` is the history of successful runs, `storedUntil` when the entry last stored for a
      key expires. */
  datatype State = State(
    now: int,
    store: map<string, Entry<Stored>>,
    requests: map<nat, Request>,
    completed: set<Completion>,
    storedUntil: map<string, int>)

  datatype Step =
    | Arrive(r: nat, key: string, fingerprint: int, status: int)
    | Read(r: nat, call: Call)
    | Evict(r: nat, call: Call)
    | Acquire(r: nat, call: Call)
    | Handled(r: nat, result: Option<int>)
    | StoreResult(r: nat, ttl: int, call: Call)
    | Release(r: nat, call: Call)
    /** The process died, its request with it. */
    | Crash(r: nat)
    | Tick(seconds: nat)
    /** Something else wrote to the store, or deleted from it, but forged no entry. */
    | Meddle(key: string, value: Option<Stored>, ttl: int)

  predicate Enabled(s: State, step: Step) {
    match step
    case Arrive(r, key, fingerprint, status) => r !in s.requests
    case Read(r, call) => r in s.requests && s.requests[r].phase.Arrived?
    case Evict(r, call) => r in s.requests && s.requests[r].phase.Evicting?
    case Acquire(r, call) => r in s.requests && s.requests[r].phase.Acquiring?
    case Handled(r, result) => r in s.requests && s.requests[r].phase.Running?
    case StoreResult(r, ttl, call) => r in s.requests && s.requests[r].phase.Storing?
    case Release(r, call) => r in s.requests && s.requests[r].phase.Releasing?
    case Crash(r) => r in s.requests
    case Tick(seconds) => true
    case Meddle(key, value, ttl) => value.Some? ==> !IsCachedEntry(value.value)
  }

  function To(s: State, r: nat, phase: Phase): State
    requires r in s.requests
  {
    s.(requests := s.requests[r := s.requests[r].(phase := phase)])
  }

  /** The store after a call that worked or broke. */
  function Effect(s: State, call: Call, op: Op<Stored>): State {
    if call == Broke(false) then s else s.(store := IdempotencyStore.Step(s.store, op, s.now).1)
  }

  function Next(s: State, step: Step): State
    requires Enabled(s, step)
  {
    match step
    case Arrive(r, key, fingerprint, status) =>
      s.(requests := s.requests[r := Request(key, fingerprint, status, Arrived)])
    case Read(r, call) =>
      var q := s.requests[r];
      To(s, r, OnRead(call, IdempotencyStore.Step(s.store, Get(q.key), s.now).0.value, q.fingerprint, s.now))
    case Evict(r, call) => Effect(To(s, r, Acquiring), call, Del(s.requests[r].key))
    case Acquire(r, call) =>
      var op := SetNx(s.requests[r].key, Processing, LOCK_TTL_SECONDS);
      Effect(To(s, r, OnAcquire(call, IdempotencyStore.Step(s.store, op, s.now).0.inserted, s.now)), call, op)
    case Handled(r, result) =>
      var q := s.requests[r];
      var s' := To(s, r, OnHandled(q.phase, result));
      if result.Some?
      then s'.(completed := s.completed + {Completion(q.key, q.fingerprint, q.status, result.value)})
      else s'
    case StoreResult(r, ttl, call) =>
      var q := s.requests[r];
      var op := Set(q.key, EntryOf(q.status, q.phase.body, q.fingerprint), ttl);
      var s' := Effect(To(s, r, Answered(Returned(q.phase.body))), call, op);
      if call.Worked? then s'.(storedUntil := s.storedUntil[q.key := s.now + ttl]) else s'
    case Release(r, call) => Effect(To(s, r, Answered(HandlerFailed)), call, Del(s.requests[r].key))
    case Crash(r) => s.(requests := s.requests - {r})
    case Tick(seconds) => s.(now := s.now + seconds)
    case Meddle(key, value, ttl) =>
      s.(store := if value.None? then s.store - {key} else s.store[key := Entry(value.value, s.now + ttl)])
  }

  ghost predicate Init(s: State) {
    s.store == map[] && s.requests == map[] && s.completed == {} && s.storedUntil == map[]
  }

  ghost predicate Run(states: seq<State>, steps: seq<Step>) {
    && |states| == |steps| + 1 && Init(states[0])
    && forall i :: 0 <= i < |steps| ==> Enabled(states[i], steps[i]) && states[i + 1] == Next(states[i], steps[i])
  }

  // ----- a replay is always genuine -----

  ghost predicate EntriesGenuine(s: State) {
    forall key :: key in s.store && IsCachedEntry(s.store[key].value) ==>
      var e := s.store[key].value;
      Completion(key, e.fingerprint.value, e.status.value, e.body.value) in s.completed
  }

  predicate Replays(phase: Phase) {
    phase.Answered? && phase.answer.Replayed?
  }

  ghost predicate RequestGenuine(s: State, q: Request) {
    && (q.phase.Storing? ==> Completion(q.key, q.fingerprint, q.status, q.phase.body) in s.completed)
    && (Replays(q.phase) ==>
          Completion(q.key, q.fingerprint, q.phase.answer.status, q.phase.answer.body) in s.completed)
  }

  ghost predicate Genuine(s: State) {
    EntriesGenuine(s) && forall r :: r in s.requests ==> RequestGenuine(s, s.requests[r])
  }

  lemma GenuineKept(s: State, step: Step)
    requires Genuine(s) && Enabled(s, step)
    ensures Genuine(Next(s, step))
  {
    var s' := Next(s, step);
    forall r | r in s'.requests ensures RequestGenuine(s', s'.requests[r]) {
      assert r in s.requests ==> RequestGenuine(s, s.requests[r]);
    }
  }

  /** Whatever fails: a replayed status and body come from a completed run of a request with the same
      key and fingerprint. */
  lemma {:induction false} ReplayIsGenuine(states: seq<State>, steps: seq<Step>, i: nat)
    requires Run(states, steps) && i < |states|
    ensures Genuine(states[i])
    ensures forall r :: r in states[i].requests && Replays(states[i].requests[r].phase) ==>
      var q := states[i].requests[r];
      Completion(q.key, q.fingerprint, q.phase.answer.status, q.phase.answer.body) in states[i].completed
  {
    if i > 0 {
      ReplayIsGenuine(states, steps, i - 1);
      GenuineKept(states[i - 1], steps[i - 1]);
    }
    assert forall r :: r in states[i].requests ==> RequestGenuine(states[i], states[i].requests[r]);
  }

  // ----- at most one run -----

  /** Between acquiring the lock and giving it back. */
  predicate HoldsLock(phase: Phase) {
    (phase.Running? && phase.locked) || phase.Storing? || phase.Releasing?
  }

  function Since(phase: Phase): int
    requires HoldsLock(phase)
  {
    phase.since
  }

  /** The assumptions: store calls work, entries come from the interceptor alone, handlers declare a
      real status, and who holds a lock stores or releases before its time is up. */
  ghost predicate Dependable(s: State, step: Step) {
    match step
    case Arrive(r, key, fingerprint, status) => 100 <= status < 600
    case Read(r, call) => call.Worked?
    case Evict(r, call) => call.Worked?
    case Acquire(r, call) => call.Worked?
    case StoreResult(r, ttl, call) => call.Worked?
    case Release(r, call) => call.Worked?
    case Tick(seconds) =>
      forall r :: r in s.requests && HoldsLock(s.requests[r].phase) ==>
        s.now + seconds < Since(s.requests[r].phase) + LOCK_TTL_SECONDS
    case Meddle(key, value, ttl) => false
    case _ => true
  }

  /** A holder's lock is in the store and has time left. */
  ghost predicate LockInPlace(s: State, q: Request) {
    HoldsLock(q.phase) ==>
      && q.key in s.store && s.store[q.key] == Entry(Processing, Since(q.phase) + LOCK_TTL_SECONDS)
      && s.now < Since(q.phase) + LOCK_TTL_SECONDS
  }

  predicate Two(s: State, r: nat, q: nat) {
    r in s.requests && q in s.requests && r != q
  }

  ghost predicate OneHolder(s: State) {
    forall r, q :: Two(s, r, q) && HoldsLock(s.requests[r].phase) && HoldsLock(s.requests[q].phase) ==>
      s.requests[r].key != s.requests[q].key
  }

  /** Until it expires, a stored entry stays. */
  ghost predicate EntriesStay(s: State) {
    forall key :: key in s.storedUntil && s.now < s.storedUntil[key] ==>
      key in s.store && s.store[key].expiresAt == s.storedUntil[key] && IsCachedEntry(s.store[key].value)
  }

  ghost predicate Exclusive(s: State) {
    && (forall r :: r in s.requests ==> LockInPlace(s, s.requests[r]))
    && (forall r :: r in s.requests ==> Orderly(s.requests[r]))
    && OneHolder(s) && EntriesStay(s)
    && EntriesKnown(s)
  }

  /** No entry is corrupt. */
  ghost predicate EntriesKnown(s: State) {
    forall key :: key in s.store ==> s.store[key].value.Processing? || IsCachedEntry(s.store[key].value)
  }

  /** No request runs without the lock or has anything to evict. */
  predicate Orderly(q: Request) {
    100 <= q.status < 600 && !q.phase.Evicting? && (q.phase.Running? ==> q.phase.locked)
  }

  ghost predicate OneRunner(s: State) {
    forall r, q :: Two(s, r, q) && s.requests[r].phase.Running? && s.requests[q].phase.Running? ==>
      s.requests[r].key != s.requests[q].key
  }

  /** A step that starts a handler finds no unexpired result stored for its key. */
  ghost predicate NoRunBeforeExpiry(s: State, step: Step, s': State)
    requires Enabled(s, step)
  {
    step.Acquire? && step.r in s'.requests && s'.requests[step.r].phase.Running? ==>
      var key := s.requests[step.r].key;
      key in s.storedUntil ==> s.storedUntil[key] <= s.now
  }

  /** The request that takes the step, while its store calls work. */
  lemma OwnLockKept(s: State, step: Step, r: nat)
    requires Exclusive(s) && Enabled(s, step) && Dependable(s, step) && r in Next(s, step).requests
    requires r !in s.requests || s.requests[r] != Next(s, step).requests[r]
    ensures LockInPlace(Next(s, step), Next(s, step).requests[r]) && Orderly(Next(s, step).requests[r])
  {
    if r in s.requests {
      assert LockInPlace(s, s.requests[r]) && Orderly(s.requests[r]);
    }
  }

  /** Any other: nobody takes the lock from its holder. */
  lemma OtherLockKept(s: State, step: Step, r: nat)
    requires Exclusive(s) && Enabled(s, step) && Dependable(s, step)
    requires r in s.requests && r in Next(s, step).requests && s.requests[r] == Next(s, step).requests[r]
    ensures LockInPlace(Next(s, step), s.requests[r]) && Orderly(s.requests[r])
  {
    assert LockInPlace(s, s.requests[r]) && Orderly(s.requests[r]);
    if HoldsLock(s.requests[r].phase) && (step.StoreResult? || step.Release?) && step.r != r {
      assert Two(s, r, step.r);
    }
  }

  lemma LocksKept(s: State, step: Step)
    requires Exclusive(s) && Enabled(s, step) && Dependable(s, step)
    ensures var s' := Next(s, step);
      forall r :: r in s'.requests ==> LockInPlace(s', s'.requests[r]) && Orderly(s'.requests[r])
  {
    var s' := Next(s, step);
    forall r | r in s'.requests ensures LockInPlace(s', s'.requests[r]) && Orderly(s'.requests[r]) {
      if r in s.requests && s.requests[r] == s'.requests[r] {
        OtherLockKept(s, step, r);
      } else {
        OwnLockKept(s, step, r);
      }
    }
  }

  /** Who holds a lock after a step held it before, or has just found none in the store. */
  lemma HolderBefore(s: State, step: Step, r: nat)
    requires Enabled(s, step) && r in Next(s, step).requests && HoldsLock(Next(s, step).requests[r].phase)
    ensures r in s.requests && Next(s, step).requests[r].key == s.requests[r].key
    ensures HoldsLock(s.requests[r].phase)
      || (step.Acquire? && step.r == r && s.requests[r].key !in Live(s.store, s.now))
  {}

  lemma HolderIsLive(s: State, q: Request)
    requires LockInPlace(s, q) && HoldsLock(q.phase)
    ensures q.key in Live(s.store, s.now)
  {}

  lemma OneHolderKept(s: State, step: Step)
    requires Exclusive(s) && Enabled(s, step) && Dependable(s, step)
    ensures OneHolder(Next(s, step))
  {
    var s' := Next(s, step);
    forall r, q | Two(s', r, q) && HoldsLock(s'.requests[r].phase) && HoldsLock(s'.requests[q].phase)
      ensures s'.requests[r].key != s'.requests[q].key
    {
      HolderBefore(s, step, r);
      HolderBefore(s, step, q);
      if HoldsLock(s.requests[r].phase) { HolderIsLive(s, s.requests[r]); }
      if HoldsLock(s.requests[q].phase) { HolderIsLive(s, s.requests[q]); }
      assert Two(s, r, q);
    }
  }

  lemma EntriesStayKept(s: State, step: Step)
    requires Exclusive(s) && Enabled(s, step) && Dependable(s, step)
    ensures EntriesStay(Next(s, step)) && EntriesKnown(Next(s, step))
    ensures NoRunBeforeExpiry(s, step, Next(s, step))
  {
    forall r | r in s.requests ensures LockInPlace(s, s.requests[r]) && Orderly(s.requests[r]) {}
  }

  lemma ExclusiveKept(s: State, step: Step)
    requires Exclusive(s) && Enabled(s, step) && Dependable(s, step)
    ensures Exclusive(Next(s, step))
    ensures NoRunBeforeExpiry(s, step, Next(s, step))
  {
    LocksKept(s, step);
    OneHolderKept(s, step);
    EntriesStayKept(s, step);
  }

  /** In a dependable run at most one handler runs per key at any time, and none starts between a
      successful run and the expiry of its stored entry. */
  lemma {:induction false} AtMostOneRun(states: seq<State>, steps: seq<Step>, i: nat)
    requires Run(states, steps) && i < |states|
    requires forall k :: 0 <= k < |steps| ==> Dependable(states[k], steps[k])
    ensures Exclusive(states[i])
    ensures OneRunner(states[i])
    ensures i < |steps| ==> NoRunBeforeExpiry(states[i], steps[i], states[i + 1])
  {
    if i > 0 {
      AtMostOneRun(states, steps, i - 1);
      ExclusiveKept(states[i - 1], steps[i - 1]);
    }
    if i < |steps| {
      ExclusiveKept(states[i], steps[i]);
    }
    assert forall r :: r in states[i].requests ==> Orderly(states[i].requests[r]);
  }

  /** In a dependable run, until a stored result expires every request of its key that comes to read is answered
      by it: the same request with the status and body of a completed run, another one with a conflict. */
  lemma StoredResultAnswers(states: seq<State>, steps: seq<Step>, i: nat)
    requires Run(states, steps) && i < |steps|
    requires forall k :: 0 <= k < |steps| ==> Dependable(states[k], steps[k])
    requires steps[i].Read? && states[i].requests[steps[i].r].key in states[i].storedUntil
    requires states[i].now < states[i].storedUntil[states[i].requests[steps[i].r].key]
    ensures var s, r := states[i], steps[i].r;
      var q := s.requests[r];
      && r in states[i + 1].requests && q.key in s.store && Replayable(s.store[q.key].value)
      && var e := s.store[q.key].value;
        && states[i + 1].requests[r].phase.Answered?
        && states[i + 1].requests[r].phase.answer
          == (if e.fingerprint.value == q.fingerprint then Replayed(e.status.value, e.body.value) else Conflict)
        && Completion(q.key, e.fingerprint.value, e.status.value, e.body.value) in s.completed
  {
    AtMostOneRun(states, steps, i);
    ReplayIsGenuine(states, steps, i);
  }

  /** The time limit is needed: whenever a holder outlives its lock, one more request is enough for
      two handlers to run at once. */
  lemma OverrunAdmitsSecondRun(s: State, r: nat, q: nat)
    requires r in s.requests && s.requests[r].phase.Running? && q !in s.requests
    requires s.requests[r].key !in Live(s.store, s.now)
    ensures var key := s.requests[r].key;
      var arrived := Next(s, Arrive(q, key, s.requests[r].fingerprint, s.requests[r].status));
      Enabled(arrived, Read(q, Worked))
      && var read := Next(arrived, Read(q, Worked));
        Enabled(read, Acquire(q, Worked))
        && var both := Next(read, Acquire(q, Worked));
          both.requests[r].phase.Running? && both.requests[q].phase.Running? && both.requests[q].key == key
  {
  }

  // ----- the key in the store -----

  predicate IsHex(ch: char) {
    '0' <= ch <= '9' || 'a' <= ch <= 'f' || 'A' <= ch <= 'F'
  }

  /** The text form of a UUID: hexadecimal digits, with hyphens at four fixed places. */
  predicate IsUuid(s: string) {
    |s| == 36 && forall i :: 0 <= i < 36 ==> if i in {8, 13, 18, 23} then s[i] == '-' else IsHex(s[i])
  }

  function LowerChar(ch: char): char {
    if 'A' <= ch <= 'F' then ch - 'A' + 'a' else ch
  }

  function Lower(s: string): string {
    seq(|s|, i requires 0 <= i < |s| => LowerChar(s[i]))
  }

  datatype Intercepted = PassThrough | BadRequest | Protected(storeKey: string)

  function User(userId: Option<string>): string {
    if userId.Some? then userId.value else "anon"
  }

  /** What the header makes of a request. */
  function Intercept(userId: Option<string>, header: Option<string>): Intercepted {
    if header.None? then PassThrough
    else if !IsUuid(header.value) then BadRequest
    else Protected("idempotency:" + User(userId) + ":" + Lower(header.value))
  }

  /** Two requests share a store key exactly when they share the user name (an anonymous one counts
      as "anon") and, letter case aside, the UUID, whatever characters the user name has. */
  lemma StoreKeysMeet(user1: Option<string>, key1: string, user2: Option<string>, key2: string)
    requires IsUuid(key1) && IsUuid(key2)
    ensures Intercept(user1, Some(key1)).Protected? && Intercept(user1, None) == PassThrough
    ensures forall text :: Intercept(user1, Some(text)) == BadRequest <==> !IsUuid(text)
    ensures Intercept(user1, Some(key1)) == Intercept(user2, Some(key2))
      <==> User(user1) == User(user2) && Lower(key1) == Lower(key2)
  {
    var k1, k2 := Intercept(user1, Some(key1)).storeKey, Intercept(user2, Some(key2)).storeKey;
    if k1 == k2 {
      assert k1[|k1| - 36..] == Lower(key1) && k2[|k2| - 36..] == Lower(key2);
      assert k1[12..|k1| - 37] == User(user1) && k2[12..|k2| - 37] == User(user2);
    }
  }
}
