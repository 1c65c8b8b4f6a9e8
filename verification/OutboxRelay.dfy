/** One pass of the outbox relay, and its backoff (outbox.relay.ts). */
module OutboxRelay {
  import opened Wrappers
  import opened Events
  import KafkaErrors
  import Backoff

  datatype Row = Row(event: Event, attempts: nat)

  /** The committed rows of the outbox, by id. */
  type Table = map<nat, Row>

  /** How the send of one row ended. */
  datatype SendResult = Acked | Refused(error: KafkaErrors.Thrown)

  /** The row itself is what Kafka refuses. */
  predicate AtFault(result: SendResult) {
    result.Refused? && KafkaErrors.RecordAtFault(result.error)
  }

  predicate Poison(result: SendResult) {
    result.Refused? && !KafkaErrors.Retryable(result.error)
  }

  /** What SELECT ... WHERE attempts < max ORDER BY id LIMIT size FOR UPDATE SKIP LOCKED may answer
      while other transactions hold `locked`. */
  ghost predicate IsBatch(rows: Table, locked: set<nat>, size: nat, maxAttempts: nat, batch: seq<nat>) {
    && |batch| <= size
    && (forall i, j :: 0 <= i < j < |batch| ==> batch[i] < batch[j])
    && (forall id :: id in batch ==> id in rows && id !in locked && rows[id].attempts < maxAttempts)
    && (forall id :: id in rows && id !in locked && rows[id].attempts < maxAttempts && id !in batch ==>
          |batch| == size && forall taken :: taken in batch ==> taken < id)
  }

  // ----- what a pass does to the table -----

  function SentOf(batch: seq<nat>, results: seq<SendResult>): set<nat>
    requires |results| == |batch|
  {
    set i | 0 <= i < |batch| && results[i].Acked? :: batch[i]
  }

  function PoisonOf(batch: seq<nat>, results: seq<SendResult>): set<nat>
    requires |results| == |batch|
  {
    set i | 0 <= i < |batch| && Poison(results[i]) :: batch[i]
  }

  /** Sent rows are deleted, poison rows counted, every other row is left alone. */
  function AfterPass(rows: Table, sent: set<nat>, poison: set<nat>): Table {
    map id | id in rows && id !in sent ::
      if id in poison then rows[id].(attempts := rows[id].attempts + 1) else rows[id]
  }

  function PassTable(rows: Table, batch: seq<nat>, results: seq<SendResult>): Table
    requires |results| == |batch|
  {
    AfterPass(rows, SentOf(batch, results), PoisonOf(batch, results))
  }

  /** Something failed, nothing went out, and no failure is a row's own fault. */
  predicate Outage(results: seq<SendResult>) {
    results != [] && forall i :: 0 <= i < |results| ==> results[i].Refused? && !Poison(results[i])
  }

  /** What became of one row of the batch. */
  predicate RowAfter(before: Table, after: Table, id: nat, result: SendResult) {
    && id in before
    && if result.Acked? then id !in after
       else id in after && after[id].event == before[id].event
            && after[id].attempts == before[id].attempts + if AtFault(result) then 1 else 0
  }

  predicate SameRow(before: Table, after: Table, id: nat) {
    (id in after <==> id in before) && (id in after ==> after[id] == before[id])
  }

  /** What became of the table. */
  ghost predicate Delivered(before: Table, after: Table, batch: seq<nat>, results: seq<SendResult>)
    requires |results| == |batch|
  {
    && (forall i :: 0 <= i < |batch| ==> RowAfter(before, after, batch[i], results[i]))
    && (forall id :: id !in batch ==> SameRow(before, after, id))
  }

  lemma PassByRow(rows: Table, batch: seq<nat>, results: seq<SendResult>)
    requires |results| == |batch|
    requires forall i, j :: 0 <= i < j < |batch| ==> batch[i] < batch[j]
    requires forall id :: id in batch ==> id in rows
    ensures Delivered(rows, PassTable(rows, batch, results), batch, results)
  {
    var after, sent, poison := PassTable(rows, batch, results), SentOf(batch, results), PoisonOf(batch, results);
    forall i | 0 <= i < |batch| ensures RowAfter(rows, after, batch[i], results[i]) {
      PoisonIsAtFault(results[i]);
      assert batch[i] in batch;
      assert batch[i] in sent <==> results[i].Acked?;
      assert batch[i] in poison <==> Poison(results[i]);
    }
  }

  lemma PoisonIsAtFault(result: SendResult)
    ensures Poison(result) <==> AtFault(result)
  {
    if result.Refused? { KafkaErrors.PoisonExactlyWhenRejected(result.error); }
  }

  lemma OutageExactly(results: seq<SendResult>)
    ensures Outage(results) <==>
      results != [] && forall i :: 0 <= i < |results| ==> results[i].Refused? && !AtFault(results[i])
  {
    forall i | 0 <= i < |results| ensures Poison(results[i]) <==> AtFault(results[i]) {
      PoisonIsAtFault(results[i]);
    }
  }

  datatype Statement = Begin | Select | Delete | Update(id: nat) | Rollback

  /** How COMMIT ended, as the server knows it: an answer can be lost after it took effect. */
  datatype CommitAnswer = Committed | RolledBack | AnswerLost

  /** The connection a pass borrows: what is committed, and what its open transaction sees. */
  class Connection {
    var rows: Table
    var work: Table
    var released: nat
    var broken: bool

    constructor (rows: Table)
      ensures this.rows == rows && released == 0 && !broken
    {
      this.rows, work, released, broken := rows, rows, 0, false;
    }
  }

  datatype Pass = Published(count: nat) | Threw

  predicate AnyRefused(results: seq<SendResult>) {
    exists i :: 0 <= i < |results| && results[i].Refused?
  }

  /** Every statement the pass sends before COMMIT is answered. */
  predicate StatementsAnswered(fails: set<Statement>, batch: seq<nat>, results: seq<SendResult>)
    requires |results| == |batch|
  {
    Begin !in fails && Select !in fails && (SentOf(batch, results) == {} || Delete !in fails)
    && forall i :: 0 <= i < |batch| && Poison(results[i]) ==> Update(batch[i]) !in fails
  }

  lemma StatementsNeeded(fails: set<Statement>, batch: seq<nat>, results: seq<SendResult>)
    requires |results| == |batch|
    ensures StatementsAnswered(fails, batch, results) <==>
      && Begin !in fails && Select !in fails
      && (Delete in fails ==> forall i :: 0 <= i < |batch| ==> !results[i].Acked?)
      && (forall i :: 0 <= i < |batch| && Update(batch[i]) in fails ==> !AtFault(results[i]))
  {
    assert forall i :: 0 <= i < |batch| && results[i].Acked? ==> batch[i] in SentOf(batch, results);
    forall i | 0 <= i < |batch| ensures Poison(results[i]) <==> AtFault(results[i]) {
      PoisonIsAtFault(results[i]);
    }
  }

  const MAX_BACKOFF_MS: nat := 30_000

  class OutboxRelay {
    const intervalMs: nat
    const batchSize: nat
    const maxAttempts: nat
    var stopping: bool
    var failures: nat
    var partial: bool
    /** The delay the timer was last armed with. */
    var timer: Option<nat>

    constructor (intervalMs: nat, batchSize: nat, maxAttempts: nat)
      ensures failures == 0 && !partial && !stopping && timer == None
      ensures this.intervalMs == intervalMs && this.batchSize == batchSize && this.maxAttempts == maxAttempts
    {
      this.intervalMs, this.batchSize, this.maxAttempts := intervalMs, batchSize, maxAttempts;
      stopping, failures, partial, timer := false, 0, false, None;
    }

    /** The loop over the poison rows; it stops at the first UPDATE that fails. */
    method CountPoison(client: Connection, batch: seq<nat>, results: seq<SendResult>, fails: set<Statement>)
        returns (ok: bool)
      requires |results| == |batch|
      requires forall i, j :: 0 <= i < j < |batch| ==> batch[i] < batch[j]
      requires forall id :: id in batch ==> id in client.rows
      requires client.work == AfterPass(client.rows, SentOf(batch, results), {})
      modifies client`work
      ensures ok <==> forall i :: 0 <= i < |batch| && Poison(results[i]) ==> Update(batch[i]) !in fails
      ensures ok ==> client.work == PassTable(client.rows, batch, results)
    {
      for i := 0 to |batch|
        invariant client.work == AfterPass(client.rows, SentOf(batch, results), PoisonOf(batch[..i], results[..i]))
        invariant forall j :: 0 <= j < i && Poison(results[j]) ==> Update(batch[j]) !in fails
      {
        CountOneMore(client.rows, batch, results, i);
        if Poison(results[i]) {
          if Update(batch[i]) in fails { return false; }
          var row := client.work[batch[i]];
          client.work := client.work[batch[i] := row.(attempts := row.attempts + 1)];
        }
      }
      assert batch[..|batch|] == batch && results[..|batch|] == results;
      return true;
    }

    /** From BEGIN to COMMIT: delete what went out, count what is poison. `fails` are the statements the
        server does not carry out. */
    method Transact(client: Connection, batch: seq<nat>, results: seq<SendResult>, fails: set<Statement>,
                    commit: CommitAnswer)
        returns (ok: bool)
      requires |results| == |batch|
      requires forall i, j :: 0 <= i < j < |batch| ==> batch[i] < batch[j]
      requires forall id :: id in batch ==> id in client.rows
      modifies client`work, client`rows
      ensures ok <==> commit == Committed && !Outage(results) && StatementsAnswered(fails, batch, results)
      ensures ok ==> client.rows == PassTable(old(client.rows), batch, results)
      ensures !ok && commit != AnswerLost ==> client.rows == old(client.rows)
      ensures client.rows == old(client.rows) || client.rows == PassTable(old(client.rows), batch, results)
    {
      var sent := SentOf(batch, results);
      ok := Begin !in fails && Select !in fails && !Outage(results);
      if ok {
        client.work := client.rows;
        if sent != {} {
          ok := Delete !in fails;
          client.work := client.work - sent;
        }
        if ok {
          ok := CountPoison(client, batch, results, fails);
        }
        if ok && commit != RolledBack {
          client.rows := client.work;
        }
        ok := ok && commit == Committed;
      }
    }

    /** One transaction over `batch`, whose sends ended with `results`. */
    method RelayBatch(client: Connection, batch: seq<nat>, results: seq<SendResult>, fails: set<Statement>,
                      commit: CommitAnswer)
        returns (pass: Pass)
      requires exists locked :: IsBatch(client.rows, locked, batchSize, maxAttempts, batch)
      requires |results| == |batch|
      modifies client, this`partial
      ensures pass.Published? <==> commit == Committed && !Outage(results) && StatementsAnswered(fails, batch, results)
      // it counts as done only when every statement it took was answered
      ensures pass.Published? ==>
        && commit == Committed && Begin !in fails && Select !in fails
        && (Delete in fails ==> forall i :: 0 <= i < |batch| ==> !results[i].Acked?)
        && (forall i :: 0 <= i < |batch| && Update(batch[i]) in fails ==> !AtFault(results[i]))
      // with every statement answered it gives up exactly when something failed, nothing went out, and no
      // failure is a row's own
      ensures fails == {} && commit == Committed ==>
        (pass.Threw? <==>
          results != [] &&
          forall i :: 0 <= i < |results| ==> results[i].Refused? && !KafkaErrors.RecordAtFault(results[i].error))
      // what went out is deleted, a row at fault has one attempt more, and no other row is touched
      ensures pass.Published? ==> client.rows == PassTable(old(client.rows), batch, results)
      ensures pass.Published? ==> Delivered(old(client.rows), client.rows, batch, results)
      ensures pass.Published? ==> pass.count == |SentOf(batch, results)| && partial == AnyRefused(results)
      ensures pass.Threw? ==> partial == old(partial)
      ensures pass.Threw? && commit != AnswerLost ==> client.rows == old(client.rows)
      ensures client.rows == old(client.rows) || client.rows == PassTable(old(client.rows), batch, results)
      ensures client.released == old(client.released) + 1
      ensures client.broken == (old(client.broken) || (pass.Threw? && Rollback in fails))
    {
      PassByRow(client.rows, batch, results);
      OutageExactly(results);
      StatementsNeeded(fails, batch, results);
      var ok := Transact(client, batch, results, fails, commit);
      client.released := client.released + 1;
      if ok {
        partial := AnyRefused(results);
        return Published(|SentOf(batch, results)|);
      }
      client.broken := client.broken || Rollback in fails;
      return Threw;
    }

    method Schedule(delayMs: nat)
      modifies this`timer
      ensures timer == if stopping then old(timer) else Some(delayMs)
    {
      if stopping { return; }
      timer := Some(delayMs);
    }

    /** What the timer runs: a pass, then the next delay. */
    method Tick(client: Connection, batch: seq<nat>, results: seq<SendResult>, fails: set<Statement>,
                commit: CommitAnswer)
        returns (outcome: Outcome)
      requires exists locked :: IsBatch(client.rows, locked, batchSize, maxAttempts, batch)
      requires |results| == |batch|
      modifies client, this
      ensures stopping == old(stopping)
      ensures failures == NextFailures(old(failures), outcome)
      ensures timer == if stopping then old(timer) else Some(NextDelay(intervalMs, failures, outcome))
      // a pass without a refusal starts over, at once when its batch was full; any other waits longer each time
      ensures outcome.Clean? ==> failures == 0
      ensures outcome.Clean? && !stopping ==>
        timer == Some(if |SentOf(batch, results)| == batchSize then 0 else intervalMs)
      ensures !outcome.Clean? ==> failures == old(failures) + 1
      ensures !outcome.Clean? && !stopping ==> timer == Some(Backoff.Capped(intervalMs, failures, 30_000))
      ensures stopping ==> timer == old(timer)
      ensures outcome.Failed? ==> client.rows == old(client.rows) || commit == AnswerLost
      ensures !outcome.Failed? ==> client.rows == PassTable(old(client.rows), batch, results)
      ensures outcome == Partial ==> AnyRefused(results)
      ensures outcome.Clean? ==> !AnyRefused(results) && (outcome.full <==> |SentOf(batch, results)| == batchSize)
    {
      var delay := intervalMs;
      var pass := RelayBatch(client, batch, results, fails, commit);
      if pass.Published? {
        if partial {
          failures := failures + 1;
          delay := Backoff.Capped(intervalMs, failures, MAX_BACKOFF_MS);
          outcome := Partial;
        } else {
          failures := 0;
          if pass.count == batchSize { delay := 0; }
          outcome := Clean(pass.count == batchSize);
        }
      } else {
        failures := failures + 1;
        delay := Backoff.Capped(intervalMs, failures, MAX_BACKOFF_MS);
        outcome := Failed;
      }
      Schedule(delay);
    }
  }

  lemma CountOneMore(rows: Table, batch: seq<nat>, results: seq<SendResult>, i: nat)
    requires |results| == |batch| && i < |batch|
    requires forall j, k :: 0 <= j < k < |batch| ==> batch[j] < batch[k]
    requires forall id :: id in batch ==> id in rows
    ensures var sent := SentOf(batch, results);
      var work := AfterPass(rows, sent, PoisonOf(batch[..i], results[..i]));
      var next := AfterPass(rows, sent, PoisonOf(batch[..i + 1], results[..i + 1]));
      if Poison(results[i]) then
        batch[i] in work && next == work[batch[i] := work[batch[i]].(attempts := work[batch[i]].attempts + 1)]
      else next == work
  {
    var id, now, next := batch[i], PoisonOf(batch[..i], results[..i]), PoisonOf(batch[..i + 1], results[..i + 1]);
    assert next == if Poison(results[i]) then now + {id} else now;
    assert id !in now && id in rows;
    if Poison(results[i]) {
      assert id !in SentOf(batch, results);
    }
  }

  // ----- backoff over a run of passes -----

  /** A pass with nothing refused, filling its batch or not; one with refused rows that still made
      progress; one that failed. */
  datatype Outcome = Clean(full: bool) | Partial | Failed

  function NextFailures(failures: nat, outcome: Outcome): nat {
    if outcome.Clean? then 0 else failures + 1
  }

  function NextDelay(intervalMs: nat, failures: nat, outcome: Outcome): nat {
    match outcome
    case Clean(full) => if full then 0 else intervalMs
    case _ => Backoff.Capped(intervalMs, failures, MAX_BACKOFF_MS)
  }

  /** The counter after a run of passes, from a fresh relay. */
  function FailuresAfter(passes: seq<Outcome>): nat {
    if passes == [] then 0 else NextFailures(FailuresAfter(passes[..|passes| - 1]), passes[|passes| - 1])
  }

  /** The last k passes failed or were partial, and the one before them did neither. */
  ghost predicate TrailingStreak(passes: seq<Outcome>, k: nat) {
    && k <= |passes|
    && (forall i :: |passes| - k <= i < |passes| ==> !passes[i].Clean?)
    && (k < |passes| ==> passes[|passes| - k - 1].Clean?)
  }

  /** The counter is the length of the current streak, so k bad passes in a row wait
      min(interval * 2^k, 30 s), whatever came before them. */
  lemma {:induction false} FailuresCountTheStreak(passes: seq<Outcome>, k: nat, intervalMs: nat)
    requires TrailingStreak(passes, k)
    ensures FailuresAfter(passes) == k
    ensures k > 0 ==>
      NextDelay(intervalMs, FailuresAfter(passes), passes[|passes| - 1])
        == Backoff.Capped(intervalMs, k, MAX_BACKOFF_MS)
    decreases |passes|
  {
    if k > 0 {
      FailuresCountTheStreak(passes[..|passes| - 1], k - 1, intervalMs);
    }
  }

  // ----- progress -----

  function Budget(row: Row, maxAttempts: nat): nat {
    if row.attempts < maxAttempts then maxAttempts - row.attempts else 0
  }

  /** How many more rejections the rows with these ids can take, in all. */
  ghost function Measure(rows: Table, ids: set<nat>, maxAttempts: nat): nat
    requires ids <= rows.Keys
  {
    if ids == {} then 0
    else
      var id :| id in ids;
      Budget(rows[id], maxAttempts) + Measure(rows, ids - {id}, maxAttempts)
  }

  lemma {:induction false} MeasureSplit(rows: Table, ids: set<nat>, maxAttempts: nat, id: nat)
    requires ids <= rows.Keys && id in ids
    ensures Measure(rows, ids, maxAttempts) == Budget(rows[id], maxAttempts) + Measure(rows, ids - {id}, maxAttempts)
    decreases |ids|
  {
    var first :| first in ids && Measure(rows, ids, maxAttempts)
      == Budget(rows[first], maxAttempts) + Measure(rows, ids - {first}, maxAttempts);
    if first != id {
      MeasureSplit(rows, ids - {first}, maxAttempts, id);
      MeasureSplit(rows, ids - {id}, maxAttempts, first);
      assert ids - {first} - {id} == ids - {id} - {first};
    }
  }

  /** The live rows the pass deletes or counts. */
  ghost function UsedUp(rows: Table, sent: set<nat>, poison: set<nat>, maxAttempts: nat): set<nat> {
    set id | id in rows && id in sent + poison && rows[id].attempts < maxAttempts
  }

  lemma {:induction false} PassNeverAdds(rows: Table, sent: set<nat>, poison: set<nat>, maxAttempts: nat, ids: set<nat>)
    requires ids <= rows.Keys
    ensures Measure(AfterPass(rows, sent, poison), ids - sent, maxAttempts) <= Measure(rows, ids, maxAttempts)
    ensures !(ids !! UsedUp(rows, sent, poison, maxAttempts)) ==>
              Measure(AfterPass(rows, sent, poison), ids - sent, maxAttempts) < Measure(rows, ids, maxAttempts)
    decreases |ids|
  {
    var after := AfterPass(rows, sent, poison);
    if ids != {} {
      var id :| id in ids;
      MeasureSplit(rows, ids, maxAttempts, id);
      PassNeverAdds(rows, sent, poison, maxAttempts, ids - {id});
      if id in sent {
        assert ids - {id} - sent == ids - sent;
      } else {
        MeasureSplit(after, ids - sent, maxAttempts, id);
        assert ids - sent - {id} == ids - {id} - sent;
      }
    }
  }

  /** A committed pass over a non-empty batch uses up part of what the live rows have left: without
      new inserts only boundedly many such passes commit. */
  lemma CommittedPassProgresses(rows: Table, maxAttempts: nat, batch: seq<nat>, results: seq<SendResult>)
    requires batch != [] && forall id :: id in batch ==> id in rows && rows[id].attempts < maxAttempts
    requires |results| == |batch| && !Outage(results)
    ensures var after := PassTable(rows, batch, results);
      Measure(after, after.Keys, maxAttempts) < Measure(rows, rows.Keys, maxAttempts)
  {
    var sent, poison := SentOf(batch, results), PoisonOf(batch, results);
    var i :| 0 <= i < |results| && (results[i].Acked? || Poison(results[i]));
    assert batch[i] in batch && batch[i] in UsedUp(rows, sent, poison, maxAttempts);
    PassNeverAdds(rows, sent, poison, maxAttempts, rows.Keys);
    assert AfterPass(rows, sent, poison).Keys == rows.Keys - sent;
  }

  /** A pass that sent nothing and rejected nothing changes nothing. */
  lemma IdlePassChangesNothing(rows: Table, batch: seq<nat>, results: seq<SendResult>)
    requires |results| == |batch|
    requires forall i :: 0 <= i < |results| ==> results[i].Refused? && !Poison(results[i])
    ensures PassTable(rows, batch, results) == rows
  {
    assert SentOf(batch, results) == {} && PoisonOf(batch, results) == {};
  }
}
