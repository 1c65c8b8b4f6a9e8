/** The at-least-once consumer loop (kafka-consumer.ts): what happens to one message when its
    handler ends, and the accounts kept per partition while it is retried. */
module KafkaConsumer {
  import opened Wrappers
  import Backoff

  /** How the handler ended: done, or the class of error it threw. */
  datatype HandlerEnd = Resolved | Backpressure | Permanent | Failed

  /** One delivery of a message: how its handler ended, and whether a dead-letter send (if the
      runner makes one) is acknowledged. */
  datatype Delivery = Delivery(end: HandlerEnd, sendOk: bool)

  datatype Attempt = Attempt(offset: nat, failed: nat, stuck: bool)

  /** What the runner remembers about a partition. */
  datatype Tracker = Tracker(failures: nat, attempt: Option<Attempt>)

  const FRESH := Tracker(0, None)

  datatype Config = Config(maxRetries: nat, canPark: bool)

  datatype Verdict = Done | Parked(attempts: nat) | Retry | Stuck | StillStuck

  predicate Moves(verdict: Verdict) {
    verdict.Done? || verdict.Parked?
  }

  /** The attempts entry after one more counted failure of this message. */
  function Counted(attempt: Option<Attempt>, offset: nat): Attempt {
    if attempt.Some? && attempt.value.offset == offset
    then Attempt(offset, attempt.value.failed + 1, attempt.value.stuck)
    else Attempt(offset, 1, false)
  }

  function GivesUp(c: Config, end: HandlerEnd, failed: nat): bool {
    end.Permanent? || (end.Failed? && failed > c.maxRetries)
  }

  /** The verdict on one delivery, and the accounts after it. */
  function Judge(c: Config, t: Tracker, offset: nat, d: Delivery): (Verdict, Tracker) {
    match d.end
    case Resolved => (Done, FRESH)
    case Backpressure => (Retry, t.(failures := t.failures + 1))
    case _ =>
      var entry := Counted(t.attempt, offset);
      if !GivesUp(c, d.end, entry.failed) then (Retry, Tracker(t.failures + 1, Some(entry)))
      else if c.canPark && d.sendOk then (Parked(entry.failed), FRESH)
      else (if entry.stuck then StillStuck else Stuck, Tracker(t.failures + 1, Some(entry.(stuck := true))))
  }

  // ----- the runner -----

  const RETRY_BASE_MS: nat := 1_000
  const RETRY_MAX_MS: nat := 60_000
  const BACKPRESSURE_MAX_MS: nat := 5_000

  /** The final outcomes kafka_consumer_records_total counts: "ok", "retried", "dead_lettered", "failed". */
  datatype Label = Plain | Retried | DeadLettered | GivenUp

  datatype DeadLetter = DeadLetter(partition: nat, offset: nat, permanent: bool, attempts: nat)

  datatype GiveUpOutcome = ParkedIt | RetryIt | StuckNow | StuckStill

  class KafkaConsumerRunner {
    const config: Config
    var failures: map<nat, nat>
    var attempts: map<nat, Attempt>
    var records: multiset<Label>
    /** On the broker: the group's offsets, and the dead-letter topic. */
    var committed: map<nat, nat>
    var deadLetters: seq<DeadLetter>
    /** The delay each paused partition was last paused for. */
    var paused: map<nat, nat>

    constructor (config: Config)
      ensures this.config == config && forall p :: TrackerOf(p) == FRESH
    {
      this.config := config;
      failures, attempts, records, committed, deadLetters, paused := map[], map[], multiset{}, map[], [], map[];
    }

    function TrackerOf(partition: nat): Tracker
      reads this
    {
      Tracker(if partition in failures then failures[partition] else 0,
              if partition in attempts then Some(attempts[partition]) else None)
    }

    method Commit(partition: nat, offset: nat, commitOk: bool)
      modifies this`failures, this`attempts, this`committed
      ensures failures == old(failures) - {partition} && attempts == old(attempts) - {partition}
      ensures committed == if commitOk then old(committed)[partition := offset + 1] else old(committed)
    {
      failures := failures - {partition};
      attempts := attempts - {partition};
      if commitOk {
        committed := committed[partition := offset + 1];
      }
    }

    method MarkStuck(partition: nat) returns (outcome: GiveUpOutcome)
      modifies this`attempts
      ensures outcome == if partition !in old(attempts) || old(attempts)[partition].stuck then StuckStill else StuckNow
      ensures attempts == if partition in old(attempts)
        then old(attempts)[partition := old(attempts)[partition].(stuck := true)] else old(attempts)
    {
      if partition !in attempts || attempts[partition].stuck {
        assert partition in attempts ==> attempts[partition].(stuck := true) == attempts[partition];
        return StuckStill;
      }
      attempts := attempts[partition := attempts[partition].(stuck := true)];
      return StuckNow;
    }

    method GiveUp(partition: nat, offset: nat, d: Delivery, commitOk: bool) returns (outcome: GiveUpOutcome)
      requires !d.end.Resolved?
      modifies this`failures, this`attempts, this`committed, this`deadLetters
      ensures var (verdict, after) := Judge(config, old(TrackerOf(partition)), offset, d);
        && outcome == (match verdict
            case Parked(_) => ParkedIt
            case Stuck => StuckNow
            case StillStuck => StuckStill
            case _ => RetryIt)
        && TrackerOf(partition).attempt == after.attempt
        && (verdict.Parked? ==> failures == old(failures) - {partition})
        && (!verdict.Parked? ==> failures == old(failures))
        && committed == (if verdict.Parked? && commitOk
            then old(committed)[partition := offset + 1]
            else old(committed))
        && deadLetters == (if verdict.Parked?
            then old(deadLetters) + [DeadLetter(partition, offset, d.end.Permanent?, verdict.attempts)]
            else old(deadLetters))
      ensures forall p :: p != partition ==> TrackerOf(p) == old(TrackerOf(p))
    {
      if d.end.Backpressure? { return RetryIt; }
      var previous := if partition in attempts then Some(attempts[partition]) else None;
      var same := if previous.Some? && previous.value.offset == offset then previous else None;
      var failed := (if same.Some? then same.value.failed else 0) + 1;
      attempts := attempts[partition := Attempt(offset, failed, same.Some? && same.value.stuck)];
      if !d.end.Permanent? && failed <= config.maxRetries { return RetryIt; }
      if !config.canPark || !d.sendOk {
        outcome := MarkStuck(partition);
        return;
      }
      deadLetters := deadLetters + [DeadLetter(partition, offset, d.end.Permanent?, failed)];
      Commit(partition, offset, commitOk);
      return ParkedIt;
    }

    method RetryLater(partition: nat, end: HandlerEnd)
      modifies this`failures, this`paused
      ensures failures == old(failures)[partition := old(TrackerOf(partition)).failures + 1]
      ensures paused == old(paused)[partition := Backoff.Capped(RETRY_BASE_MS, old(TrackerOf(partition)).failures,
        if end.Backpressure? then BACKPRESSURE_MAX_MS else RETRY_MAX_MS)]
    {
      var before := if partition in failures then failures[partition] else 0;
      failures := failures[partition := before + 1];
      var cap := if end.Backpressure? then BACKPRESSURE_MAX_MS else RETRY_MAX_MS;
      paused := paused[partition := Backoff.Capped(RETRY_BASE_MS, before, cap)];
    }

    /** One record through the loop; `threw` makes the same message come again. */
    method HandleMessage(partition: nat, offset: nat, d: Delivery, commitOk: bool) returns (threw: bool)
      modifies this
      ensures var (verdict, after) := Judge(config, old(TrackerOf(partition)), offset, d);
        && threw == !Moves(verdict)
        && TrackerOf(partition) == after
        && committed == (if !threw && commitOk then old(committed)[partition := offset + 1] else old(committed))
        && deadLetters == (if verdict.Parked?
            then old(deadLetters) + [DeadLetter(partition, offset, d.end.Permanent?, verdict.attempts)]
            else old(deadLetters))
        && records == old(records) + (match verdict
            case Done => multiset{if partition in old(failures) then Retried else Plain}
            case Parked(_) => multiset{DeadLettered}
            case Stuck => multiset{GivenUp}
            case _ => multiset{})
        && (threw ==>
              partition in paused && paused[partition]
                == Backoff.Capped(RETRY_BASE_MS, old(TrackerOf(partition)).failures,
                                  if d.end.Backpressure? then BACKPRESSURE_MAX_MS else RETRY_MAX_MS))
      // a handler that resolves is never delivered again for it, one that does not is never passed by unless
      // the dead-letter topic has the message
      ensures d.end.Resolved? ==> !threw && deadLetters == old(deadLetters)
      ensures !d.end.Resolved? && !threw ==> config.canPark && d.sendOk && |deadLetters| == |old(deadLetters)| + 1
      ensures d.end.Backpressure? ==> threw && TrackerOf(partition).attempt == old(TrackerOf(partition)).attempt
      // it comes again after a second, doubled for each failure before, up to a minute, or to five seconds
      // where the fault is not the message's
      ensures threw ==> partition in paused && paused[partition] == Backoff.Capped(
        1_000, old(TrackerOf(partition)).failures, if d.end.Backpressure? then 5_000 else 60_000)
      ensures forall p :: p != partition ==> TrackerOf(p) == old(TrackerOf(p))
    {
      if !d.end.Resolved? {
        var outcome := GiveUp(partition, offset, d, commitOk);
        if outcome.ParkedIt? {
          records := records + multiset{DeadLettered};
          return false;
        }
        if outcome.StuckNow? {
          records := records + multiset{GivenUp};
        }
        RetryLater(partition, d.end);
        return true;
      }
      var retried := partition in failures;
      records := records + multiset{if retried then Retried else Plain};
      Commit(partition, offset, commitOk);
      return false;
    }
  }

  // ----- the accounts of one message, over all its deliveries -----

  predicate Counts(end: HandlerEnd) {
    end.Permanent? || end.Failed?
  }

  /** The counted failures among the deliveries. */
  function Failures(ds: seq<Delivery>): nat {
    if ds == [] then 0 else Failures(ds[..|ds| - 1]) + if Counts(ds[|ds| - 1].end) then 1 else 0
  }

  /** By the n-th delivery the message is given up on: at a permanent failure, or at a counted one
      past the retries. */
  predicate GivenUpAt(c: Config, ds: seq<Delivery>, n: nat)
    requires n < |ds|
  {
    GivesUp(c, ds[n].end, Failures(ds[..n + 1]))
  }

  predicate GivenUpBefore(c: Config, ds: seq<Delivery>, n: nat)
    requires n <= |ds|
  {
    exists k :: 0 <= k < n && GivenUpAt(c, ds, k)
  }

  /** The accounts after these deliveries of the message at `offset`. */
  function After(c: Config, t: Tracker, offset: nat, ds: seq<Delivery>): Tracker {
    if ds == [] then t else Judge(c, After(c, t, offset, ds[..|ds| - 1]), offset, ds[|ds| - 1]).1
  }

  function VerdictOn(c: Config, t: Tracker, offset: nat, ds: seq<Delivery>, n: nat): Verdict
    requires n < |ds|
  {
    Judge(c, After(c, t, offset, ds[..n]), offset, ds[n]).0
  }

  /** The message has not moved on before its n-th delivery. */
  predicate StillHere(c: Config, t: Tracker, offset: nat, ds: seq<Delivery>, n: nat)
    requires n <= |ds|
  {
    forall k :: 0 <= k < n ==> !Moves(VerdictOn(c, t, offset, ds, k))
  }

  /** The accounts start with nothing about this message. */
  predicate NewMessage(t: Tracker, offset: nat) {
    t.attempt.Some? ==> t.attempt.value.offset != offset
  }

  /** The verdict by the history alone: the class of the failure, how many counted ones there were,
      and whether the message was given up on before. */
  function Expected(c: Config, ds: seq<Delivery>, n: nat): Verdict
    requires n < |ds|
  {
    var d := ds[n];
    if d.end.Resolved? then Done
    else if d.end.Backpressure? || !GivenUpAt(c, ds, n) then Retry
    else if c.canPark && d.sendOk then Parked(Failures(ds[..n + 1]))
    else if GivenUpBefore(c, ds, n) then StillStuck
    else Stuck
  }

  lemma FailuresOfPrefix(ds: seq<Delivery>, n: nat)
    requires n < |ds|
    ensures Failures(ds[..n + 1]) == Failures(ds[..n]) + if Counts(ds[n].end) then 1 else 0
  {
    assert ds[..n + 1][..n] == ds[..n];
  }

  /** The attempts entry of a message with `counted` failures, given up on before or not. */
  function EntryFor(t: Tracker, offset: nat, counted: nat, givenUp: bool): Option<Attempt> {
    if counted == 0 then t.attempt else Some(Attempt(offset, counted, givenUp))
  }

  lemma OneMoreAccount(c: Config, t: Tracker, now: Tracker, offset: nat, d: Delivery, counted: nat, givenUp: bool)
    requires NewMessage(t, offset) && (counted == 0 ==> !givenUp)
    requires now.attempt == EntryFor(t, offset, counted, givenUp)
    requires !Moves(Judge(c, now, offset, d).0)
    ensures var (after, counted') := (Judge(c, now, offset, d).1, counted + if Counts(d.end) then 1 else 0);
      && after.failures == now.failures + 1
      && after.attempt == EntryFor(t, offset, counted', givenUp || GivesUp(c, d.end, counted'))
  {}

  lemma {:induction false} AccountsMatchHistory(c: Config, t: Tracker, offset: nat, ds: seq<Delivery>, n: nat)
    requires n <= |ds| && NewMessage(t, offset) && StillHere(c, t, offset, ds, n)
    ensures After(c, t, offset, ds[..n]).failures == t.failures + n
    ensures After(c, t, offset, ds[..n]).attempt == EntryFor(t, offset, Failures(ds[..n]), GivenUpBefore(c, ds, n))
  {
    if n > 0 {
      AccountsMatchHistory(c, t, offset, ds, n - 1);
      FailuresOfPrefix(ds, n - 1);
      assert ds[..n][..n - 1] == ds[..n - 1];
      assert !Moves(VerdictOn(c, t, offset, ds, n - 1));
      assert GivenUpBefore(c, ds, n) <==> GivenUpBefore(c, ds, n - 1) || GivenUpAt(c, ds, n - 1);
      if Failures(ds[..n - 1]) == 0 {
        NothingCountedNothingGivenUp(c, ds, n - 1);
      }
      OneMoreAccount(c, t, After(c, t, offset, ds[..n - 1]), offset, ds[n - 1],
                     Failures(ds[..n - 1]), GivenUpBefore(c, ds, n - 1));
    }
  }

  lemma {:induction false} NothingCountedNothingGivenUp(c: Config, ds: seq<Delivery>, n: nat)
    requires n <= |ds| && Failures(ds[..n]) == 0
    ensures !GivenUpBefore(c, ds, n)
  {
    if n > 0 {
      FailuresOfPrefix(ds, n - 1);
      NothingCountedNothingGivenUp(c, ds, n - 1);
    }
  }

  /** While a message is being retried, each verdict is the one its history calls for; a dead
      letter carries the number of counted failures. */
  lemma VerdictMatchesHistory(c: Config, t: Tracker, offset: nat, ds: seq<Delivery>, n: nat)
    requires n < |ds| && NewMessage(t, offset) && StillHere(c, t, offset, ds, n)
    ensures VerdictOn(c, t, offset, ds, n) == Expected(c, ds, n)
  {
    AccountsMatchHistory(c, t, offset, ds, n);
    FailuresOfPrefix(ds, n);
    if Failures(ds[..n]) == 0 {
      NothingCountedNothingGivenUp(c, ds, n);
    }
  }

  lemma GiveUpAfterNone(c: Config, ds: seq<Delivery>, n: nat)
    requires n < |ds| && !GivenUpBefore(c, ds, n)
    ensures GivenUpAt(c, ds, n) <==> Trigger(c, ds, n)
  {
    FailuresOfPrefix(ds, n);
    FewBeforeGiveUp(c, ds, n);
  }

  /** A permanent failure, or counted failure number maxRetries + 1. */
  predicate Trigger(c: Config, ds: seq<Delivery>, n: nat)
    requires n < |ds|
  {
    ds[n].end.Permanent? || (ds[n].end.Failed? && Failures(ds[..n + 1]) == c.maxRetries + 1)
  }

  lemma {:induction false} NoTriggerNoGiveUp(c: Config, ds: seq<Delivery>, n: nat)
    requires n <= |ds|
    ensures GivenUpBefore(c, ds, n) <==> exists k :: 0 <= k < n && Trigger(c, ds, k)
  {
    if n > 0 {
      NoTriggerNoGiveUp(c, ds, n - 1);
      assert GivenUpBefore(c, ds, n) <==> GivenUpBefore(c, ds, n - 1) || GivenUpAt(c, ds, n - 1);
      if !GivenUpBefore(c, ds, n - 1) {
        GiveUpAfterNone(c, ds, n - 1);
      } else {
        var k :| 0 <= k < n - 1 && Trigger(c, ds, k);
      }
    }
  }

  /** The runner has given the message up: parked it, or found that it cannot. */
  predicate GivesItUp(verdict: Verdict) {
    verdict.Parked? || verdict.Stuck? || verdict.StillStuck?
  }

  predicate FirstGivenUpAt(c: Config, t: Tracker, offset: nat, ds: seq<Delivery>, n: nat)
    requires n < |ds|
  {
    GivesItUp(VerdictOn(c, t, offset, ds, n)) && forall k :: 0 <= k < n ==> !GivesItUp(VerdictOn(c, t, offset, ds, k))
  }

  predicate FirstTriggerAt(c: Config, ds: seq<Delivery>, n: nat)
    requires n < |ds|
  {
    Trigger(c, ds, n) && forall k :: 0 <= k < n ==> !Trigger(c, ds, k)
  }

  /** The runner gives a message up for the first time exactly at its first permanent failure or counted
      failure number maxRetries + 1: it then sends the first dead letter, with the number of counted
      failures, or finds the message stuck. */
  lemma FirstGiveUp(c: Config, t: Tracker, offset: nat, ds: seq<Delivery>, n: nat)
    requires n < |ds| && NewMessage(t, offset) && StillHere(c, t, offset, ds, n)
    ensures FirstGivenUpAt(c, t, offset, ds, n) <==> FirstTriggerAt(c, ds, n)
    ensures FirstTriggerAt(c, ds, n) ==>
      VerdictOn(c, t, offset, ds, n) == if c.canPark && ds[n].sendOk then Parked(Failures(ds[..n + 1])) else Stuck
  {
    forall k | 0 <= k <= n ensures VerdictOn(c, t, offset, ds, k) == Expected(c, ds, k) {
      VerdictMatchesHistory(c, t, offset, ds, k);
    }
    forall k | 0 <= k <= n ensures GivesItUp(VerdictOn(c, t, offset, ds, k)) <==> GivenUpAt(c, ds, k) {}
    NoTriggerNoGiveUp(c, ds, n);
    if !GivenUpBefore(c, ds, n) {
      GiveUpAfterNone(c, ds, n);
    } else {
      var k :| 0 <= k < n && GivenUpAt(c, ds, k);
      assert GivesItUp(VerdictOn(c, t, offset, ds, k));
    }
  }

  lemma {:induction false} FewBeforeGiveUp(c: Config, ds: seq<Delivery>, n: nat)
    requires n <= |ds| && !GivenUpBefore(c, ds, n)
    ensures Failures(ds[..n]) <= c.maxRetries
  {
    if n > 0 {
      FewBeforeGiveUp(c, ds, n - 1);
      FailuresOfPrefix(ds, n - 1);
      assert !GivenUpAt(c, ds, n - 1);
    }
  }

  /** A message is reported as stuck at most once until it moves on. */
  lemma StuckReportedOnce(c: Config, t: Tracker, offset: nat, ds: seq<Delivery>, i: nat, j: nat)
    requires i < j < |ds| && NewMessage(t, offset) && StillHere(c, t, offset, ds, j)
    ensures !(VerdictOn(c, t, offset, ds, i).Stuck? && VerdictOn(c, t, offset, ds, j).Stuck?)
  {
    VerdictMatchesHistory(c, t, offset, ds, i);
    VerdictMatchesHistory(c, t, offset, ds, j);
  }

  /** The deliveries without the back-pressure among them. */
  function Pressing(ds: seq<Delivery>): seq<Delivery> {
    if ds == [] then []
    else if ds[|ds| - 1].end.Backpressure? then Pressing(ds[..|ds| - 1])
    else Pressing(ds[..|ds| - 1]) + [ds[|ds| - 1]]
  }

  lemma GivenUpInPrefix(c: Config, ds: seq<Delivery>, n: nat)
    requires n <= |ds|
    ensures GivenUpBefore(c, ds[..n], n) <==> GivenUpBefore(c, ds, n)
  {
    forall k {:trigger GivenUpAt(c, ds, k)} {:trigger GivenUpAt(c, ds[..n], k)} | 0 <= k < n
      ensures GivenUpAt(c, ds[..n], k) <==> GivenUpAt(c, ds, k)
    {
      assert ds[..n][..k + 1] == ds[..k + 1];
    }
  }

  lemma {:induction false} PressingKeepsCounts(c: Config, ds: seq<Delivery>)
    ensures Failures(Pressing(ds)) == Failures(ds)
    ensures GivenUpBefore(c, Pressing(ds), |Pressing(ds)|) <==> GivenUpBefore(c, ds, |ds|)
    decreases |ds|
  {
    if ds != [] {
      var n := |ds| - 1;
      PressingKeepsCounts(c, ds[..n]);
      OneMoreDelivery(c, ds);
      if !ds[n].end.Backpressure? {
        var m := |Pressing(ds)| - 1;
        assert Pressing(ds)[..m] == Pressing(ds[..n]);
        OneMoreDelivery(c, Pressing(ds));
      }
    }
  }

  lemma OneMoreDelivery(c: Config, ds: seq<Delivery>)
    requires ds != []
    ensures var n := |ds| - 1;
      GivenUpBefore(c, ds, |ds|) <==> GivenUpBefore(c, ds[..n], n) || GivesUp(c, ds[n].end, Failures(ds))
  {
    var n := |ds| - 1;
    GivenUpInPrefix(c, ds, n);
    assert ds[..n + 1] == ds;
    assert GivenUpBefore(c, ds, |ds|) <==> GivenUpBefore(c, ds, n) || GivenUpAt(c, ds, n);
  }

  lemma ExpectedWithoutBackpressure(c: Config, ds: seq<Delivery>)
    requires ds != [] && !ds[|ds| - 1].end.Backpressure?
    ensures Pressing(ds) != []
    ensures Expected(c, ds, |ds| - 1) == Expected(c, Pressing(ds), |Pressing(ds)| - 1)
  {
    var n, m := |ds| - 1, |Pressing(ds)| - 1;
    assert Pressing(ds)[..m] == Pressing(ds[..n]);
    PressingKeepsCounts(c, ds[..n]);
    PressingKeepsCounts(c, ds);
    GivenUpInPrefix(c, ds, n);
    GivenUpInPrefix(c, Pressing(ds), m);
    assert ds[..n + 1] == ds && Pressing(ds)[..m + 1] == Pressing(ds);
  }

  lemma VerdictInPrefix(c: Config, t: Tracker, offset: nat, ds: seq<Delivery>, n: nat, k: nat)
    requires k < n <= |ds|
    ensures VerdictOn(c, t, offset, ds[..n], k) == VerdictOn(c, t, offset, ds, k)
  {
    assert ds[..n][..k] == ds[..k];
  }

  lemma StillHereInPrefix(c: Config, t: Tracker, offset: nat, ds: seq<Delivery>, n: nat)
    requires n <= |ds|
    ensures StillHere(c, t, offset, ds[..n], n) <==> StillHere(c, t, offset, ds, n)
  {
    forall k | 0 <= k < n ensures VerdictOn(c, t, offset, ds[..n], k) == VerdictOn(c, t, offset, ds, k) {
      VerdictInPrefix(c, t, offset, ds, n, k);
    }
  }

  /** A message that is still there with the back-pressure is still there without. */
  lemma {:induction false} PressingStays(c: Config, t: Tracker, offset: nat, ds: seq<Delivery>)
    requires NewMessage(t, offset) && StillHere(c, t, offset, ds, |ds|)
    ensures StillHere(c, t, offset, Pressing(ds), |Pressing(ds)|)
    decreases |ds|
  {
    if ds != [] {
      var n := |ds| - 1;
      StillHereInPrefix(c, t, offset, ds, n);
      PressingStays(c, t, offset, ds[..n]);
      if !ds[n].end.Backpressure? {
        var m := |Pressing(ds)| - 1;
        assert Pressing(ds)[..m] == Pressing(ds[..n]);
        StillHereInPrefix(c, t, offset, Pressing(ds), m);
        ExpectedWithoutBackpressure(c, ds);
        VerdictMatchesHistory(c, t, offset, ds, n);
        VerdictMatchesHistory(c, t, offset, Pressing(ds), m);
        assert !Moves(VerdictOn(c, t, offset, ds, n));
      }
    }
  }

  /** Back-pressure changes no decision: the runner's verdict on the last delivery is the one it gives when
      there was no back-pressure before it. */
  lemma BackpressureChangesNothing(c: Config, t: Tracker, offset: nat, ds: seq<Delivery>)
    requires ds != [] && !ds[|ds| - 1].end.Backpressure?
    requires NewMessage(t, offset) && StillHere(c, t, offset, ds, |ds| - 1)
    ensures Pressing(ds) != [] && StillHere(c, t, offset, Pressing(ds), |Pressing(ds)| - 1)
    ensures VerdictOn(c, t, offset, ds, |ds| - 1) == VerdictOn(c, t, offset, Pressing(ds), |Pressing(ds)| - 1)
  {
    var n, m := |ds| - 1, |Pressing(ds)| - 1;
    assert Pressing(ds)[..m] == Pressing(ds[..n]);
    StillHereInPrefix(c, t, offset, ds, n);
    PressingStays(c, t, offset, ds[..n]);
    StillHereInPrefix(c, t, offset, Pressing(ds), m);
    ExpectedWithoutBackpressure(c, ds);
    VerdictMatchesHistory(c, t, offset, ds, n);
    VerdictMatchesHistory(c, t, offset, Pressing(ds), m);
  }
}
