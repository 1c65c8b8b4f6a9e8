/** Any number of relay replicas over one outbox and one topic (outbox.relay.ts), step by step:
    takes, acknowledgements in any order, commits, and transactions that come to nothing because
    of an outage, a failed statement or a crash. */
module RelayFleet {
  import opened Wrappers
  import opened Events
  import opened OutboxRelay

  /** A replica is between passes, or holds the rows of its open transaction and what the sends
      have answered so far. */
  datatype Relay = Idle | Open(batch: seq<nat>, answers: seq<Option<SendResult>>)

  datatype Config = Config(batchSize: nat, maxAttempts: nat)

  /** `adrift` are sends still outstanding whose transaction is gone: their session was lost, or their
      process crashed. `acked`, `undone` and `countedPasses` are the history: acknowledgements per row,
      rolled-back transactions that had sent the row, and committed passes that found it rejected. */
  datatype Fleet = Fleet(
    rows: Table,
    inserted: map<nat, Event>,
    relays: seq<Relay>,
    topic: seq<seq<Event>>,
    adrift: multiset<nat>,
    acked: multiset<nat>,
    undone: multiset<nat>,
    countedPasses: multiset<nat>)

  datatype Step =
    /** A creator's transaction committed a row. */
    | Insert(id: nat, event: Event)
    /** BEGIN; SELECT ... FOR UPDATE SKIP LOCKED. */
    | Take(r: nat, batch: seq<nat>)
    /** One send ended; a send that is not acknowledged may still have reached the log. */
    | Settle(r: nat, i: nat, result: SendResult, appended: Option<nat>)
    /** DELETE, UPDATEs and COMMIT took effect, whether or not the relay heard so. */
    | Commit(r: nat)
    /** The transaction rolled back: an outage, a failed statement or COMMIT, a lost session, a crash.
        The sends that were not answered yet go on without it. */
    | GiveBack(r: nat)
    /** A send whose transaction is gone ends, acknowledged or not. */
    | Land(id: nat, ack: bool, appended: Option<nat>)
    /** Another producer wrote to the topic. */
    | Produce(partition: nat, event: Event)

  function Ids(relay: Relay): set<nat> {
    if relay.Idle? then {} else set id | id in relay.batch
  }

  ghost function Locked(relays: seq<Relay>): set<nat> {
    set r, id | 0 <= r < |relays| && id in Ids(relays[r]) :: id
  }

  /** The rows a replica's open transaction has sent. */
  function SentBy(relay: Relay): set<nat>
    requires relay.Open? ==> |relay.answers| == |relay.batch|
  {
    if relay.Idle? then {} else set i | 0 <= i < |relay.batch| && relay.answers[i] == Some(Acked) :: relay.batch[i]
  }

  /** The rows whose sends are still outstanding. */
  function Unanswered(relay: Relay): set<nat>
    requires relay.Open? ==> |relay.answers| == |relay.batch|
  {
    if relay.Idle? then {} else set i | 0 <= i < |relay.batch| && relay.answers[i].None? :: relay.batch[i]
  }

  function Results(relay: Relay): (results: seq<SendResult>)
    requires relay.Open? && AllSettled(relay)
    ensures |results| == |relay.answers|
  {
    seq(|relay.answers|, i requires 0 <= i < |relay.answers| => relay.answers[i].value)
  }

  predicate AllSettled(relay: Relay)
    requires relay.Open?
  {
    forall i :: 0 <= i < |relay.answers| ==> relay.answers[i].Some?
  }

  ghost predicate Enabled(c: Config, s: Fleet, step: Step) {
    match step
    case Insert(id, event) => id !in s.inserted
    case Take(r, batch) =>
      && r < |s.relays| && s.relays[r].Idle?
      && IsBatch(s.rows, Locked(s.relays), c.batchSize, c.maxAttempts, batch)
    case Settle(r, i, result, partition) =>
      && r < |s.relays| && s.relays[r].Open?
      && i < |s.relays[r].answers| == |s.relays[r].batch| && s.relays[r].answers[i].None?
      && s.relays[r].batch[i] in s.rows
      && (partition.Some? ==> partition.value < |s.topic|)
      && (result.Acked? ==> partition.Some?)
      && (Poison(result) ==> partition.None?)
    case Commit(r) =>
      && r < |s.relays| && s.relays[r].Open? && AllSettled(s.relays[r])
      && |s.relays[r].answers| == |s.relays[r].batch|
      && !Outage(Results(s.relays[r]))
    case GiveBack(r) =>
      && r < |s.relays| && s.relays[r].Open? && |s.relays[r].answers| == |s.relays[r].batch|
    case Land(id, ack, partition) =>
      && id in s.adrift && id in s.inserted
      && (partition.Some? ==> partition.value < |s.topic|) && (ack ==> partition.Some?)
    case Produce(partition, event) => partition < |s.topic|
  }

  function Append(topic: seq<seq<Event>>, partition: Option<nat>, event: Event): seq<seq<Event>>
    requires partition.Some? ==> partition.value < |topic|
  {
    if partition.None? then topic else topic[partition.value := topic[partition.value] + [event]]
  }

  ghost function Next(c: Config, s: Fleet, step: Step): Fleet
    requires Enabled(c, s, step)
  {
    match step
    case Insert(id, event) =>
      s.(rows := s.rows[id := Row(event, 0)], inserted := s.inserted[id := event])
    case Take(r, batch) =>
      s.(relays := s.relays[r := Open(batch, seq(|batch|, i => None))])
    case Settle(r, i, result, partition) =>
      var relay := s.relays[r];
      s.(relays := s.relays[r := relay.(answers := relay.answers[i := Some(result)])],
         topic := Append(s.topic, partition, s.rows[relay.batch[i]].event),
         acked := if result.Acked? then s.acked + multiset{relay.batch[i]} else s.acked)
    case Commit(r) =>
      var relay := s.relays[r];
      s.(rows := PassTable(s.rows, relay.batch, Results(relay)),
         relays := s.relays[r := Idle],
         countedPasses := s.countedPasses + multiset(PoisonOf(relay.batch, Results(relay))))
    case GiveBack(r) =>
      s.(relays := s.relays[r := Idle],
         adrift := s.adrift + multiset(Unanswered(s.relays[r])),
         undone := s.undone + multiset(Ids(s.relays[r])))
    case Land(id, ack, partition) =>
      s.(adrift := s.adrift - multiset{id},
         topic := Append(s.topic, partition, s.inserted[id]),
         acked := if ack then s.acked + multiset{id} else s.acked)
    case Produce(partition, event) => s.(topic := Append(s.topic, Some(partition), event))
  }

  ghost predicate Init(s: Fleet) {
    && s.rows == map[] && s.inserted == map[]
    && (forall r :: 0 <= r < |s.relays| ==> s.relays[r].Idle?)
    && s.adrift == s.acked == s.undone == s.countedPasses == multiset{}
  }

  // ----- what every step keeps -----

  /** An open batch: ascending ids of rows that are still there and still live. */
  ghost predicate Holds(c: Config, rows: Table, relay: Relay) {
    relay.Open? ==>
      && |relay.answers| == |relay.batch|
      && (forall i, j :: 0 <= i < j < |relay.batch| ==> relay.batch[i] < relay.batch[j])
      && (forall id :: id in relay.batch ==> id in rows && rows[id].attempts < c.maxAttempts)
  }

  ghost predicate Disjoint(relays: seq<Relay>) {
    forall r, q :: 0 <= r < q < |relays| ==> Ids(relays[r]) !! Ids(relays[q])
  }

  ghost predicate OnTopic(topic: seq<seq<Event>>, event: Event) {
    exists p, o :: 0 <= p < |topic| && 0 <= o < |topic[p]| && topic[p][o] == event
  }

  ghost predicate HasAck(relay: Relay, id: nat) {
    relay.Open? && |relay.answers| == |relay.batch| && id in SentBy(relay)
  }

  /** Some open transaction has an acknowledgement for the row. */
  ghost predicate AckedInOpen(relays: seq<Relay>, id: nat) {
    exists r :: 0 <= r < |relays| && HasAck(relays[r], id)
  }

  function One(b: bool): nat {
    if b then 1 else 0
  }

  ghost predicate Deleted(s: Fleet, id: nat) {
    id in s.inserted && id !in s.rows
  }

  /** The books of one row: every acknowledgement there is, or may still come, belongs to a transaction
      that rolled back, to one still open, or to the one that deleted the row; and the last two have one. */
  ghost predicate Balanced(s: Fleet, id: nat) {
    && s.acked[id] + s.adrift[id] <= s.undone[id] + One(AckedInOpen(s.relays, id)) + One(Deleted(s, id))
    && (AckedInOpen(s.relays, id) || Deleted(s, id) ==> id in s.acked)
  }

  ghost predicate RowsStem(c: Config, s: Fleet) {
    forall id :: id in s.rows ==>
      && id in s.inserted && s.rows[id].event == s.inserted[id]
      && s.rows[id].attempts == s.countedPasses[id] <= c.maxAttempts
  }

  ghost predicate HistoryStems(s: Fleet) {
    && (forall id :: id in s.acked ==> id in s.inserted && OnTopic(s.topic, s.inserted[id]))
    && (forall id :: id !in s.inserted ==> id !in s.undone && id !in s.countedPasses && id !in s.adrift)
  }

  ghost predicate Orderly(c: Config, s: Fleet) {
    (forall r :: 0 <= r < |s.relays| ==> Holds(c, s.rows, s.relays[r])) && Disjoint(s.relays)
  }

  ghost predicate Inv(c: Config, s: Fleet) {
    && Orderly(c, s)
    && RowsStem(c, s)
    && HistoryStems(s)
    && (forall id :: Balanced(s, id))
  }

  lemma InitInv(c: Config, s: Fleet)
    requires Init(s)
    ensures Inv(c, s)
  {
  }

  lemma InsertBooks(c: Config, s: Fleet, step: Step, id: nat)
    requires step.Insert? && HistoryStems(s) && Balanced(s, id) && Enabled(c, s, step)
    ensures Balanced(Next(c, s, step), id)
  {
    assert Next(c, s, step).relays == s.relays;
    assert Deleted(Next(c, s, step), id) <==> Deleted(s, id);
  }

  /** A new row is held by no one. */
  lemma InsertOrderly(c: Config, s: Fleet, step: Step)
    requires step.Insert? && Orderly(c, s) && RowsStem(c, s) && Enabled(c, s, step)
    ensures Orderly(c, Next(c, s, step))
  {
    assert step.id !in s.rows;
    forall r | 0 <= r < |s.relays| ensures Holds(c, Next(c, s, step).rows, s.relays[r]) {
      assert Holds(c, s.rows, s.relays[r]);
    }
  }

  lemma InsertStems(c: Config, s: Fleet, step: Step)
    requires step.Insert? && RowsStem(c, s) && HistoryStems(s) && Enabled(c, s, step)
    ensures RowsStem(c, Next(c, s, step)) && HistoryStems(Next(c, s, step))
  {}

  lemma InsertKeeps(c: Config, s: Fleet, step: Step)
    requires step.Insert? && Inv(c, s) && Enabled(c, s, step)
    ensures Inv(c, Next(c, s, step))
  {
    InsertOrderly(c, s, step);
    InsertStems(c, s, step);
    forall id ensures Balanced(Next(c, s, step), id) {
      InsertBooks(c, s, step, id);
    }
  }

  lemma TakeOrderly(c: Config, s: Fleet, r: nat, batch: seq<nat>)
    requires Orderly(c, s) && Enabled(c, s, Take(r, batch))
    ensures Orderly(c, Next(c, s, Take(r, batch)))
  {
    var s' := Next(c, s, Take(r, batch));
    assert forall k :: 0 <= k < |s.relays| ==> Ids(s.relays[k]) <= Locked(s.relays);
    forall p, q | 0 <= p < q < |s'.relays| ensures Ids(s'.relays[p]) !! Ids(s'.relays[q]) {
      assert Ids(s.relays[p]) !! Ids(s.relays[q]);
    }
  }

  lemma TakeBooks(c: Config, s: Fleet, r: nat, batch: seq<nat>, id: nat)
    requires Orderly(c, s) && Balanced(s, id) && Enabled(c, s, Take(r, batch))
    ensures Balanced(Next(c, s, Take(r, batch)), id)
  {
    var s' := Next(c, s, Take(r, batch));
    assert SentBy(s'.relays[r]) == {} == SentBy(s.relays[r]);
    SameAcks(s.relays, s'.relays, r, id);
  }

  lemma TakeKeeps(c: Config, s: Fleet, r: nat, batch: seq<nat>)
    requires Inv(c, s) && Enabled(c, s, Take(r, batch))
    ensures Inv(c, Next(c, s, Take(r, batch)))
  {
    TakeOrderly(c, s, r, batch);
    forall id ensures Balanced(Next(c, s, Take(r, batch)), id) {
      TakeBooks(c, s, r, batch, id);
    }
  }

  /** Changing one replica without touching what it has sent changes no row's books. */
  lemma SameAcks(relays: seq<Relay>, relays': seq<Relay>, r: nat, id: nat)
    requires r < |relays| == |relays'| && relays' == relays[r := relays'[r]]
    requires forall k :: 0 <= k < |relays| && relays[k].Open? ==> |relays[k].answers| == |relays[k].batch|
    requires relays'[r].Open? ==> |relays'[r].answers| == |relays'[r].batch|
    requires id in SentBy(relays[r]) <==> id in SentBy(relays'[r])
    ensures AckedInOpen(relays, id) <==> AckedInOpen(relays', id)
  {
    if AckedInOpen(relays, id) {
      var k :| 0 <= k < |relays| && HasAck(relays[k], id);
      assert HasAck(relays'[k], id);
    }
    if AckedInOpen(relays', id) {
      var k :| 0 <= k < |relays'| && HasAck(relays'[k], id);
      assert HasAck(relays[k], id);
    }
  }

  /** Only the replica that holds a row can have an acknowledgement for it. */
  lemma AckedOnlyByHolder(c: Config, s: Fleet, r: nat, id: nat)
    requires Orderly(c, s) && r < |s.relays| && id in Ids(s.relays[r])
    ensures AckedInOpen(s.relays, id) <==> id in SentBy(s.relays[r])
  {
    forall k | 0 <= k < |s.relays| && s.relays[k].Open? && id in SentBy(s.relays[k]) ensures k == r {
      assert id in Ids(s.relays[k]);
    }
  }

  lemma OnTopicAfterAppend(topic: seq<seq<Event>>, partition: Option<nat>, event: Event)
    requires partition.Some? ==> partition.value < |topic|
    ensures forall e :: OnTopic(topic, e) ==> OnTopic(Append(topic, partition, event), e)
    ensures partition.Some? ==> OnTopic(Append(topic, partition, event), event)
  {
    var topic' := Append(topic, partition, event);
    forall e | OnTopic(topic, e) ensures OnTopic(topic', e) {
      var p, o :| 0 <= p < |topic| && 0 <= o < |topic[p]| && topic[p][o] == e;
      assert topic'[p][o] == e;
    }
    if partition.Some? {
      assert topic'[partition.value][|topic[partition.value]|] == event;
    }
  }

  lemma SettleOrderly(c: Config, s: Fleet, step: Step)
    requires step.Settle? && Orderly(c, s) && Enabled(c, s, step)
    ensures Orderly(c, Next(c, s, step))
  {
    var s' := Next(c, s, step);
    assert Ids(s'.relays[step.r]) == Ids(s.relays[step.r]);
    forall p, q | 0 <= p < q < |s'.relays| ensures Ids(s'.relays[p]) !! Ids(s'.relays[q]) {
      assert Ids(s.relays[p]) !! Ids(s.relays[q]);
    }
  }

  lemma SettleBooks(c: Config, s: Fleet, step: Step, id: nat)
    requires step.Settle? && Orderly(c, s) && Balanced(s, id) && Enabled(c, s, step)
    ensures Balanced(Next(c, s, step), id)
  {
    var relay, relay' := s.relays[step.r], Next(c, s, step).relays[step.r];
    var settled := relay.batch[step.i];
    assert SentBy(relay') == if step.result.Acked? then SentBy(relay) + {settled} else SentBy(relay);
    if id == settled && step.result.Acked? {
      assert id !in SentBy(relay) && id in Ids(relay);
      AckedOnlyByHolder(c, s, step.r, id);
      assert id in SentBy(relay');
    } else {
      SameAcks(s.relays, Next(c, s, step).relays, step.r, id);
    }
  }

  lemma SettleKeeps(c: Config, s: Fleet, step: Step)
    requires step.Settle? && Inv(c, s) && Enabled(c, s, step)
    ensures Inv(c, Next(c, s, step))
  {
    OnTopicAfterAppend(s.topic, step.appended, s.rows[s.relays[step.r].batch[step.i]].event);
    SettleOrderly(c, s, step);
    forall id ensures Balanced(Next(c, s, step), id) {
      SettleBooks(c, s, step, id);
    }
  }

  lemma CommitBooks(c: Config, s: Fleet, r: nat, id: nat)
    requires Orderly(c, s) && RowsStem(c, s) && Balanced(s, id) && Enabled(c, s, Commit(r))
    ensures Balanced(Next(c, s, Commit(r)), id)
  {
    var relay := s.relays[r];
    assert SentOf(relay.batch, Results(relay)) == SentBy(relay);
    ClosingClears(c, s, r, id);
    if id in SentBy(relay) {
      assert id in Ids(relay);
      AckedOnlyByHolder(c, s, r, id);
    }
  }

  lemma CommitRowsStem(c: Config, s: Fleet, r: nat)
    requires Inv(c, s) && Enabled(c, s, Commit(r))
    ensures RowsStem(c, Next(c, s, Commit(r)))
  {
    var relay, s' := s.relays[r], Next(c, s, Commit(r));
    var poison := PoisonOf(relay.batch, Results(relay));
    forall id | id in s'.rows ensures s'.rows[id].attempts == s'.countedPasses[id] <= c.maxAttempts {
      assert id in poison ==> id in relay.batch;
    }
  }

  lemma CommitKeeps(c: Config, s: Fleet, r: nat)
    requires Inv(c, s) && Enabled(c, s, Commit(r))
    ensures Inv(c, Next(c, s, Commit(r)))
  {
    CommitRowsStem(c, s, r);
    CommitLeavesOthers(c, s, r);
    assert PoisonOf(s.relays[r].batch, Results(s.relays[r])) <= s.inserted.Keys;
    forall id ensures Balanced(Next(c, s, Commit(r)), id) {
      CommitBooks(c, s, r, id);
    }
  }

  /** A commit changes no row another replica holds. */
  lemma CommitLeavesOthers(c: Config, s: Fleet, r: nat)
    requires Inv(c, s) && Enabled(c, s, Commit(r))
    ensures Orderly(c, Next(c, s, Commit(r)))
  {
    var s' := Next(c, s, Commit(r));
    forall k | 0 <= k < |s'.relays| ensures Holds(c, s'.rows, s'.relays[k]) {
      if k != r && s.relays[k].Open? {
        assert Ids(s.relays[k]) !! Ids(s.relays[r]);
        forall id | id in s.relays[k].batch ensures id in s'.rows && s'.rows[id] == s.rows[id] {
          assert id in Ids(s.relays[k]);
        }
      }
    }
  }

  /** Ending a transaction takes exactly its own acknowledgements out of the open ones. */
  lemma ClosingClears(c: Config, s: Fleet, r: nat, id: nat)
    requires Orderly(c, s) && r < |s.relays| && s.relays[r].Open?
    ensures AckedInOpen(s.relays[r := Idle], id) <==> AckedInOpen(s.relays, id) && id !in SentBy(s.relays[r])
  {
    if id in SentBy(s.relays[r]) {
      AckedOnlyByHolder(c, s, r, id);
      forall k | 0 <= k < |s.relays| && k != r ensures id !in Ids(s.relays[k]) {
        assert Ids(s.relays[k]) !! Ids(s.relays[r]);
      }
    } else {
      SameAcks(s.relays, s.relays[r := Idle], r, id);
    }
  }

  /** A rolled-back transaction answers for what it sent: acknowledged already, or still outstanding. */
  lemma GiveBackBooks(c: Config, s: Fleet, r: nat, id: nat)
    requires Orderly(c, s) && Balanced(s, id) && Enabled(c, s, GiveBack(r))
    ensures Balanced(Next(c, s, GiveBack(r)), id)
  {
    var s', relay := Next(c, s, GiveBack(r)), s.relays[r];
    ClosingClears(c, s, r, id);
    assert s'.undone[id] == s.undone[id] + One(id in Ids(relay));
    assert s'.adrift[id] == s.adrift[id] + One(id in Unanswered(relay));
    if id in Ids(relay) {
      AckedOnlyByHolder(c, s, r, id);
      assert id in SentBy(relay) ==> id !in Unanswered(relay);
    }
  }

  lemma GiveBackOrderly(c: Config, s: Fleet, r: nat)
    requires Orderly(c, s) && Enabled(c, s, GiveBack(r))
    ensures Orderly(c, Next(c, s, GiveBack(r)))
  {
    var s' := Next(c, s, GiveBack(r));
    forall p, q | 0 <= p < q < |s'.relays| ensures Ids(s'.relays[p]) !! Ids(s'.relays[q]) {
      assert Ids(s.relays[p]) !! Ids(s.relays[q]);
    }
  }

  lemma GiveBackKeeps(c: Config, s: Fleet, r: nat)
    requires Inv(c, s) && Enabled(c, s, GiveBack(r))
    ensures Inv(c, Next(c, s, GiveBack(r)))
  {
    GiveBackOrderly(c, s, r);
    assert Ids(s.relays[r]) <= s.inserted.Keys && Unanswered(s.relays[r]) <= s.inserted.Keys;
    forall id ensures Balanced(Next(c, s, GiveBack(r)), id) {
      GiveBackBooks(c, s, r, id);
    }
  }

  lemma LandKeeps(c: Config, s: Fleet, step: Step)
    requires step.Land? && Inv(c, s) && Enabled(c, s, step)
    ensures Inv(c, Next(c, s, step))
  {
    var s' := Next(c, s, step);
    OnTopicAfterAppend(s.topic, step.appended, s.inserted[step.id]);
    forall id ensures Balanced(s', id) {
      assert Balanced(s, id);
    }
  }

  lemma ProduceKeeps(c: Config, s: Fleet, partition: nat, event: Event)
    requires Inv(c, s) && Enabled(c, s, Produce(partition, event))
    ensures Inv(c, Next(c, s, Produce(partition, event)))
  {
    var s' := Next(c, s, Produce(partition, event));
    OnTopicAfterAppend(s.topic, Some(partition), event);
    forall id ensures Balanced(s', id) {
      assert Balanced(s, id);
    }
  }

  lemma StepKeeps(c: Config, s: Fleet, step: Step)
    requires Inv(c, s) && Enabled(c, s, step)
    ensures Inv(c, Next(c, s, step))
  {
    match step
    case Insert(_, _) => InsertKeeps(c, s, step);
    case Take(r, batch) => TakeKeeps(c, s, r, batch);
    case Settle(_, _, _, _) => SettleKeeps(c, s, step);
    case Commit(r) => CommitKeeps(c, s, r);
    case GiveBack(r) => GiveBackKeeps(c, s, r);
    case Land(_, _, _) => LandKeeps(c, s, step);
    case Produce(partition, event) => ProduceKeeps(c, s, partition, event);
  }

  // ----- over whole runs -----

  ghost predicate Run(c: Config, states: seq<Fleet>, steps: seq<Step>) {
    && |states| == |steps| + 1 && Init(states[0])
    && forall i :: 0 <= i < |steps| ==> Enabled(c, states[i], steps[i]) && states[i + 1] == Next(c, states[i], steps[i])
  }

  lemma {:induction false} RunKeeps(c: Config, states: seq<Fleet>, steps: seq<Step>, i: nat)
    requires Run(c, states, steps) && i < |states|
    ensures Inv(c, states[i])
  {
    if i == 0 {
      InitInv(c, states[0]);
    } else {
      RunKeeps(c, states, steps, i - 1);
      StepKeeps(c, states[i - 1], steps[i - 1]);
    }
  }

  /** What the replicas guarantee together, at every point of every run. */
  lemma FleetIsSafe(c: Config, states: seq<Fleet>, steps: seq<Step>, i: nat)
    requires Run(c, states, steps) && i < |states|
    ensures var s := states[i];
      // no two open transactions hold the same row
      && (forall r, q :: 0 <= r < q < |s.relays| ==> Ids(s.relays[r]) !! Ids(s.relays[q]))
      // a row that left the table was acknowledged, and its event is on the topic
      && (forall id :: id in s.inserted && id !in s.rows ==> id in s.acked && OnTopic(s.topic, s.inserted[id]))
      // attempts counts the committed passes that found the row rejected, up to the limit
      && (forall id :: id in s.rows ==> s.rows[id].attempts == s.countedPasses[id] <= c.maxAttempts)
      // more than one acknowledgement, now or still to come, takes rollbacks of transactions that had sent it
      && (forall id :: s.acked[id] + s.adrift[id] <= 1 + s.undone[id])
  {
    var s := states[i];
    RunKeeps(c, states, steps, i);
    forall id
      ensures s.acked[id] + s.adrift[id] <= 1 + s.undone[id] && (id in s.inserted && id !in s.rows ==> id in s.acked)
    {
      assert Balanced(s, id);
      if AckedInOpen(s.relays, id) {
        var r :| 0 <= r < |s.relays| && HasAck(s.relays[r], id);
        assert id in s.relays[r].batch;
      }
    }
  }

  /** A transaction whose sends have all ended can commit exactly when it has nothing to send, or something
      went out, or a row is at fault; then those rows leave the table, or have one attempt more. */
  lemma CommitsWhatItCan(c: Config, s: Fleet, r: nat)
    requires r < |s.relays| && s.relays[r].Open? && AllSettled(s.relays[r]) && Holds(c, s.rows, s.relays[r])
    ensures var relay := s.relays[r];
      && (Enabled(c, s, Commit(r)) <==>
            relay.batch == [] || exists i :: 0 <= i < |relay.answers| && Counts(relay.answers[i].value))
      && (Enabled(c, s, Commit(r)) ==> Delivered(s.rows, Next(c, s, Commit(r)).rows, relay.batch, Results(relay)))
  {
    var relay := s.relays[r];
    var results := Results(relay);
    OutageExactly(results);
    PassByRow(s.rows, relay.batch, results);
    assert forall i :: 0 <= i < |results| ==> results[i] == relay.answers[i].value;
  }

  /** A send that the table has to remember. */
  predicate Counts(result: SendResult) {
    result.Acked? || AtFault(result)
  }

  // ----- progress -----

  /** How many more rejections the rows can take: what non-empty commits use up. */
  ghost function Left(c: Config, s: Fleet): nat {
    Measure(s.rows, s.rows.Keys, c.maxAttempts)
  }

  ghost predicate CommitsRows(s: Fleet, step: Step) {
    step.Commit? && step.r < |s.relays| && s.relays[step.r].Open? && s.relays[step.r].batch != []
  }

  ghost function NonEmptyCommits(states: seq<Fleet>, steps: seq<Step>, from: nat): nat
    requires |states| == |steps| + 1 && from <= |steps|
    decreases |steps| - from
  {
    if from == |steps| then 0
    else One(CommitsRows(states[from], steps[from])) + NonEmptyCommits(states, steps, from + 1)
  }

  lemma CommitUsesUp(c: Config, s: Fleet, step: Step)
    requires Inv(c, s) && Enabled(c, s, step) && !step.Insert?
    ensures Left(c, Next(c, s, step)) + One(CommitsRows(s, step)) <= Left(c, s)
  {
    if step.Commit? {
      var relay := s.relays[step.r];
      if relay.batch != [] {
        CommittedPassProgresses(s.rows, c.maxAttempts, relay.batch, Results(relay));
      } else {
        assert SentOf(relay.batch, Results(relay)) == {} == PoisonOf(relay.batch, Results(relay));
        assert Next(c, s, step).rows == s.rows;
      }
    }
  }

  /** However the replicas interleave, after the last insert no more non-empty passes commit than
      the rows then had rejections left. */
  lemma {:induction false} CommitsAreBounded(c: Config, states: seq<Fleet>, steps: seq<Step>, from: nat)
    requires Run(c, states, steps) && from <= |steps|
    requires forall i :: from <= i < |steps| ==> !steps[i].Insert?
    ensures NonEmptyCommits(states, steps, from) <= Left(c, states[from])
    decreases |steps| - from
  {
    if from < |steps| {
      RunKeeps(c, states, steps, from);
      CommitUsesUp(c, states[from], steps[from]);
      CommitsAreBounded(c, states, steps, from + 1);
    }
  }
}
