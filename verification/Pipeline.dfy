/** From a created task to its job: creators, relay replicas, the topic, the consumer group and the
    job queue together (task.use-case.ts, outbox.relay.ts, kafka-consumer.ts,
    task-events.consumer.ts). Nothing is lost, nothing is made up. */
module Pipeline {
  import opened Wrappers
  import opened Events
  import opened TaskEventsConsumer
  import KafkaConsumer
  import Fleet = RelayFleet
  import Group = ConsumerGroup

  datatype Config = Config(relay: Fleet.Config, consumer: KafkaConsumer.Config)

  /** `jobs` are all jobs ever accepted, `held` the keys the queue still remembers, `forgotten` the
      keys it has dropped again. */
  datatype State = State(
    tasks: set<nat>,
    fleet: Fleet.Fleet,
    group: Group.Group,
    held: set<nat>,
    jobs: multiset<nat>,
    forgotten: multiset<nat>,
    deadLetters: seq<Event>)

  datatype Step =
    /** TaskUseCase.create commits: the task row and its outbox row, in one transaction. */
    | Create(task: nat, id: nat)
    | Relay(step: Fleet.Step)
    /** A record of another producer, which writes no task.created events. */
    | Produce(partition: nat, event: Event)
    | Consume(move: Group.Step)
    /** A member calls the handler; `room` and `answer` are what the job queue says. The send of a dead
        letter is acknowledged, or fails, its record on the dead-letter topic all the same or not. */
    | Handle(m: nat, t: Group.Tenure, room: Room, answer: QueueAnswer, sendOk: bool, landed: bool)
    /** The queue no longer remembers the key: the job is done and past its retention. */
    | Forget(task: nat)

  function Ends(topic: seq<seq<Event>>): seq<nat> {
    seq(|topic|, p requires 0 <= p < |topic| => |topic[p]|)
  }

  predicate AtMessage(s: State, m: nat, t: Group.Tenure) {
    && Group.Holds(s.group, m, t) && t.p < |s.fleet.topic|
    && s.group.members[m].places[t].at < |s.fleet.topic[t.p]|
  }

  function MessageAt(s: State, m: nat, t: Group.Tenure): Event
    requires AtMessage(s, m, t)
  {
    s.fleet.topic[t.p][s.group.members[m].places[t].at]
  }

  /** The group's view of one handler call. */
  function HandleMove(s: State, step: Step): Group.Step
    requires step.Handle? && AtMessage(s, step.m, step.t)
  {
    var end := EndOf(MessageAt(s, step.m, step.t), step.room, step.answer);
    Group.Step.Handle(step.m, step.t, KafkaConsumer.Delivery(end, step.sendOk))
  }

  ghost predicate Enabled(c: Config, s: State, step: Step) {
    match step
    case Create(task, id) => task !in s.tasks && Fleet.Enabled(c.relay, s.fleet, Fleet.Insert(id, TaskCreated(task)))
    case Relay(step) => !step.Insert? && !step.Produce? && Fleet.Enabled(c.relay, s.fleet, step)
    case Produce(partition, event) => !event.TaskCreated? && partition < |s.fleet.topic|
    case Consume(move) => !move.Handle? && Group.Enabled(Ends(s.fleet.topic), s.group, move)
    case Handle(m, t, room, answer, sendOk, landed) =>
      AtMessage(s, m, t) && Group.Enabled(Ends(s.fleet.topic), s.group, HandleMove(s, step))
    case Forget(task) => task in s.held
  }

  ghost function Next(c: Config, s: State, step: Step): State
    requires Enabled(c, s, step)
  {
    match step
    case Create(task, id) =>
      s.(tasks := s.tasks + {task}, fleet := Fleet.Next(c.relay, s.fleet, Fleet.Insert(id, TaskCreated(task))))
    case Relay(step) => s.(fleet := Fleet.Next(c.relay, s.fleet, step))
    case Produce(partition, event) => s.(fleet := Fleet.Next(c.relay, s.fleet, Fleet.Produce(partition, event)))
    case Consume(move) => s.(group := Group.Next(c.consumer, Ends(s.fleet.topic), s.group, move))
    case Handle(m, t, room, answer, sendOk, landed) =>
      var event := MessageAt(s, m, t);
      var group := Group.Next(c.consumer, Ends(s.fleet.topic), s.group, HandleMove(s, step));
      var key := AsSet(Enqueues(event, room, answer));
      s.(group := group,
         held := s.held + key,
         jobs := s.jobs + multiset(key - s.held),
         deadLetters := if Parks(c, s, step) then s.deadLetters + [event] else s.deadLetters)
    case Forget(task) => s.(held := s.held - {task}, forgotten := s.forgotten + multiset{task})
  }

  /** The message of this call gets on the dead-letter topic: the runner sends it there, and the send is
      acknowledged or lands without that. */
  predicate Parks(c: Config, s: State, step: Step)
    requires step.Handle? && AtMessage(s, step.m, step.t)
  {
    && (step.sendOk || step.landed)
    && KafkaConsumer.Judge(c.consumer, Group.TrackerIn(s.group.members[step.m], step.t.p),
                           s.group.members[step.m].places[step.t].at,
                           HandleMove(s, step).delivery.(sendOk := true)).0.Parked?
  }

  ghost predicate Init(s: State) {
    && Fleet.Init(s.fleet) && Group.Init(s.group)
    && (forall p :: 0 <= p < |s.fleet.topic| ==> s.fleet.topic[p] == [])
    && s.tasks == {} == s.held && s.jobs == multiset{} == s.forgotten && s.deadLetters == []
  }

  // ----- what every step keeps -----

  /** The event of a committed task. */
  predicate OfTask(s: State, event: Event) {
    event.TaskCreated? && event.task in s.tasks
  }

  /** Outbox rows and topic records of tasks stem from committed tasks, each of which has its row. */
  ghost predicate EventsStem(s: State) {
    && (forall id :: id in s.fleet.inserted ==> OfTask(s, s.fleet.inserted[id]))
    && (forall task :: task in s.tasks ==> HasRow(s, task))
    && (forall task :: Fleet.OnTopic(s.fleet.topic, TaskCreated(task)) ==> task in s.tasks)
  }

  ghost predicate HasRow(s: State, task: nat) {
    exists id :: id in s.fleet.inserted && s.fleet.inserted[id] == TaskCreated(task)
  }

  /** An event that can never be handled. */
  predicate Hopeless(event: Event) {
    event.Undecodable? || event.BrokenTaskCreated?
  }

  /** A message the group is done with: its job exists, it is of another type, or it could never be handled and
      is on the dead-letter topic. */
  ghost predicate Discharged(s: State, p: nat, o: nat) {
    && p < |s.fleet.topic| && o < |s.fleet.topic[p]|
    && ((p, o) in s.group.resolved ==> ResolvedWell(s, s.fleet.topic[p][o]))
    && ((p, o) in s.group.parked ==> Hopeless(s.fleet.topic[p][o]) && s.fleet.topic[p][o] in s.deadLetters)
  }

  predicate ResolvedWell(s: State, event: Event) {
    event.OtherType? || (event.TaskCreated? && event.task in s.jobs)
  }

  ghost predicate GroupDischarges(s: State) {
    forall p, o :: (p, o) in s.group.resolved + s.group.parked ==> Discharged(s, p, o)
  }

  /** At most one job per task while the queue remembers the key; one more each time it forgot. */
  ghost predicate JobsOnce(s: State) {
    && (forall task :: task in s.jobs ==> task in s.tasks)
    && (forall task :: task in s.held ==> task in s.jobs)
    && (forall task :: s.jobs[task] == s.forgotten[task] + if task in s.held then 1 else 0)
  }

  ghost predicate Inv(c: Config, s: State) {
    Fleet.Inv(c.relay, s.fleet) && Group.Inv(s.group) && Joint(s)
  }

  /** What holds between the four stores. */
  ghost predicate Joint(s: State) {
    EventsStem(s) && GroupDischarges(s) && JobsOnce(s) && DeadLettersStem(s)
  }

  /** Every dead letter is a record of the topic that can never be handled. */
  ghost predicate DeadLettersStem(s: State) {
    forall event :: event in s.deadLetters ==> Hopeless(event) && Fleet.OnTopic(s.fleet.topic, event)
  }

  lemma InitInv(c: Config, s: State)
    requires Init(s)
    ensures Inv(c, s)
  {
    Fleet.InitInv(c.relay, s.fleet);
  }

  /** A longer topic keeps its old records in place. */
  ghost predicate Extends(topic: seq<seq<Event>>, topic': seq<seq<Event>>) {
    |topic| == |topic'| && forall p :: 0 <= p < |topic| ==> topic[p] <= topic'[p]
  }

  lemma DischargesKeep(s: State, s': State)
    requires GroupDischarges(s) && s'.jobs == s.jobs && s'.deadLetters == s.deadLetters
    requires s'.group.resolved == s.group.resolved && s'.group.parked == s.group.parked
    requires Extends(s.fleet.topic, s'.fleet.topic)
    ensures GroupDischarges(s')
  {
    forall p, o | (p, o) in s'.group.resolved + s'.group.parked ensures Discharged(s', p, o) {
      assert Discharged(s, p, o);
      assert s.fleet.topic[p] <= s'.fleet.topic[p];
    }
  }

  lemma OnlyOneAppended(topic: seq<seq<Event>>, partition: Option<nat>, event: Event)
    requires partition.Some? ==> partition.value < |topic|
    ensures Extends(topic, Fleet.Append(topic, partition, event))
    ensures forall e :: Fleet.OnTopic(topic, e) ==> Fleet.OnTopic(Fleet.Append(topic, partition, event), e)
    ensures forall e :: Fleet.OnTopic(Fleet.Append(topic, partition, event), e) ==>
      Fleet.OnTopic(topic, e) || e == event
  {
    var topic' := Fleet.Append(topic, partition, event);
    Fleet.OnTopicAfterAppend(topic, partition, event);
    forall e | Fleet.OnTopic(topic', e) && e != event ensures Fleet.OnTopic(topic, e) {
      var p, o :| 0 <= p < |topic'| && 0 <= o < |topic'[p]| && topic'[p][o] == e;
      assert o < |topic[p]| && topic[p][o] == e;
    }
  }

  lemma RowAdded(s: State, s': State, task: nat, id: nat)
    requires Joint(s) && id !in s.fleet.inserted
    requires s' == s.(tasks := s.tasks + {task}, fleet := s'.fleet)
    requires s'.fleet.topic == s.fleet.topic && s'.fleet.inserted == s.fleet.inserted[id := TaskCreated(task)]
    ensures Joint(s')
  {
    DischargesKeep(s, s');
    forall t | t in s'.tasks ensures HasRow(s', t) {
      if t == task {
        assert s'.fleet.inserted[id] == TaskCreated(t);
      } else {
        assert HasRow(s, t);
        var k :| k in s.fleet.inserted && s.fleet.inserted[k] == TaskCreated(t);
        assert s'.fleet.inserted[k] == TaskCreated(t);
      }
    }
  }

  /** A record of a committed task, or of none, on the topic. */
  lemma RecordAdded(s: State, s': State, partition: Option<nat>, event: Event)
    requires Joint(s) && s' == s.(fleet := s'.fleet) && s'.fleet.inserted == s.fleet.inserted
    requires partition.Some? ==> partition.value < |s.fleet.topic|
    requires s'.fleet.topic == Fleet.Append(s.fleet.topic, partition, event)
    requires event.TaskCreated? ==> event.task in s.tasks
    ensures Joint(s')
  {
    OnlyOneAppended(s.fleet.topic, partition, event);
    DischargesKeep(s, s');
    forall t | t in s'.tasks ensures HasRow(s', t) {
      assert HasRow(s, t);
    }
  }

  lemma CreateKeeps(c: Config, s: State, task: nat, id: nat)
    requires Inv(c, s) && Enabled(c, s, Create(task, id))
    ensures Inv(c, Next(c, s, Create(task, id)))
  {
    Fleet.StepKeeps(c.relay, s.fleet, Fleet.Insert(id, TaskCreated(task)));
    RowAdded(s, Next(c, s, Create(task, id)), task, id);
  }

  /** What a step of a replica appends to the topic, if anything. */
  lemma RelayAppends(c: Config, s: State, step: Fleet.Step) returns (partition: Option<nat>, event: Event)
    requires Fleet.RowsStem(c.relay, s.fleet) && EventsStem(s) && Enabled(c, s, Relay(step))
    ensures partition.Some? ==> partition.value < |s.fleet.topic|
    ensures Fleet.Next(c.relay, s.fleet, step).topic == Fleet.Append(s.fleet.topic, partition, event)
    ensures Fleet.Next(c.relay, s.fleet, step).inserted == s.fleet.inserted
    ensures event.TaskCreated? ==> event.task in s.tasks
  {
    match step
    case Settle(r, i, _, appended) =>
      partition, event := appended, s.fleet.rows[s.fleet.relays[r].batch[i]].event;
    case Land(id, _, appended) => partition, event := appended, s.fleet.inserted[id];
    case _ => partition, event := None, OtherType("");
  }

  lemma RelayKeeps(c: Config, s: State, step: Fleet.Step)
    requires Inv(c, s) && Enabled(c, s, Relay(step))
    ensures Inv(c, Next(c, s, Relay(step)))
  {
    Fleet.StepKeeps(c.relay, s.fleet, step);
    var partition, event := RelayAppends(c, s, step);
    RecordAdded(s, Next(c, s, Relay(step)), partition, event);
  }

  lemma ProduceKeeps(c: Config, s: State, partition: nat, event: Event)
    requires Inv(c, s) && Enabled(c, s, Produce(partition, event))
    ensures Inv(c, Next(c, s, Produce(partition, event)))
  {
    Fleet.StepKeeps(c.relay, s.fleet, Fleet.Produce(partition, event));
    RecordAdded(s, Next(c, s, Produce(partition, event)), Some(partition), event);
  }

  lemma ConsumeKeeps(c: Config, s: State, move: Group.Step)
    requires Inv(c, s) && Enabled(c, s, Consume(move))
    ensures Inv(c, Next(c, s, Consume(move)))
  {
    var s' := Next(c, s, Consume(move));
    Group.StepKeeps(c.consumer, Ends(s.fleet.topic), s.group, move);
    OnlyHandlingSettles(c.consumer, Ends(s.fleet.topic), s.group, move);
    DischargesKeep(s, s');
    SameTasks(s, s');
  }

  lemma OnlyHandlingSettles(c: KafkaConsumer.Config, ends: seq<nat>, g: Group.Group, move: Group.Step)
    requires !move.Handle? && Group.Enabled(ends, g, move)
    ensures Group.Next(c, ends, g, move).resolved == g.resolved && Group.Next(c, ends, g, move).parked == g.parked
  {}

  /** What a handler call does about the message at (p, o). Only what can never be handled is parked, and it
      never resolves; one of ours resolves only once the queue holds its job. */
  ghost predicate Handled(s: State, s': State, p: nat, o: nat)
    requires p < |s.fleet.topic| && o < |s.fleet.topic[p]|
  {
    var event := s.fleet.topic[p][o];
    && s.group.resolved <= s'.group.resolved <= s.group.resolved + {(p, o)}
    && s.group.parked <= s'.group.parked <= s.group.parked + {(p, o)}
    && (!Hopeless(event) ==> s'.group.parked == s.group.parked && s'.deadLetters == s.deadLetters)
    && (s'.group.resolved != s.group.resolved ==> ResolvedWell(s', event))
    && (s'.group.parked != s.group.parked ==> event in s'.deadLetters)
    && s.jobs <= s'.jobs && s.deadLetters <= s'.deadLetters <= s.deadLetters + [event]
  }

  /** The runner's verdict on the message, by what the queue says. */
  lemma VerdictOnEvent(c: KafkaConsumer.Config, t: KafkaConsumer.Tracker, offset: nat, event: Event, room: Room,
                       answer: QueueAnswer, sendOk: bool)
    ensures var delivery := KafkaConsumer.Delivery(EndOf(event, room, answer), sendOk);
      var verdict := KafkaConsumer.Judge(c, t, offset, delivery).0;
      && (!Hopeless(event) ==> !verdict.Parked?)
      && (Hopeless(event) ==> !verdict.Done?)
      && (event.TaskCreated? && verdict.Done? ==> Enqueues(event, room, answer) == Some(event.task))
  {}

  /** What the verdict makes of the group's books. */
  lemma HandleSettles(c: KafkaConsumer.Config, ends: seq<nat>, g: Group.Group, move: Group.Step)
    requires move.Handle? && Group.Enabled(ends, g, move)
    ensures var member := g.members[move.m];
      var at := member.places[move.t].at;
      var verdict := KafkaConsumer.Judge(c, Group.TrackerIn(member, move.t.p), at, move.delivery).0;
      && Group.Next(c, ends, g, move).resolved == g.resolved + (if verdict.Done? then {(move.t.p, at)} else {})
      && Group.Next(c, ends, g, move).parked == g.parked + (if verdict.Parked? then {(move.t.p, at)} else {})
  {}

  /** And what the call makes of the queue. */
  lemma HandleQueues(c: Config, s: State, step: Step)
    requires step.Handle? && JobsOnce(s) && Enabled(c, s, step)
    ensures s.jobs <= Next(c, s, step).jobs
    ensures var key := Enqueues(MessageAt(s, step.m, step.t), step.room, step.answer);
      key.Some? ==> key.value in Next(c, s, step).jobs
  {}

  lemma HandleHandles(c: Config, s: State, step: Step)
    requires step.Handle? && JobsOnce(s) && Enabled(c, s, step)
    ensures Handled(s, Next(c, s, step), step.t.p, s.group.members[step.m].places[step.t].at)
  {
    var s' := Next(c, s, step);
    var member, event := s.group.members[step.m], MessageAt(s, step.m, step.t);
    var at, tracker := member.places[step.t].at, Group.TrackerIn(member, step.t.p);
    VerdictOnEvent(c.consumer, tracker, at, event, step.room, step.answer, step.sendOk);
    VerdictOnEvent(c.consumer, tracker, at, event, step.room, step.answer, true);
    HandleSettles(c.consumer, Ends(s.fleet.topic), s.group, HandleMove(s, step));
    HandleQueues(c, s, step);
    assert s'.deadLetters == if Parks(c, s, step) then s.deadLetters + [event] else s.deadLetters;
  }

  lemma HandledDischarges(s: State, s': State, p: nat, o: nat)
    requires p < |s.fleet.topic| && o < |s.fleet.topic[p]|
    requires Handled(s, s', p, o) && s'.fleet == s.fleet && GroupDischarges(s)
    ensures GroupDischarges(s')
  {
    forall q, r | (q, r) in s'.group.resolved + s'.group.parked ensures Discharged(s', q, r) {
      assert (q, r) in s.group.resolved + s.group.parked ==> Discharged(s, q, r);
    }
  }

  lemma HandledLetters(s: State, s': State, p: nat, o: nat)
    requires p < |s.fleet.topic| && o < |s.fleet.topic[p]|
    requires Handled(s, s', p, o) && s'.fleet == s.fleet && DeadLettersStem(s)
    ensures DeadLettersStem(s')
  {
    var event := s.fleet.topic[p][o];
    assert Fleet.OnTopic(s.fleet.topic, event);
    forall letter | letter in s'.deadLetters ensures Hopeless(letter) && Fleet.OnTopic(s.fleet.topic, letter) {
      assert letter in s.deadLetters + [event];
      if letter !in s.deadLetters {
        assert letter == event && s'.deadLetters != s.deadLetters;
      }
    }
  }

  lemma SameTasks(s: State, s': State)
    requires EventsStem(s) && s'.fleet == s.fleet && s'.tasks == s.tasks
    ensures EventsStem(s')
  {
    forall task | task in s'.tasks ensures HasRow(s', task) {
      assert HasRow(s, task);
    }
  }

  lemma JobAdded(s: State, s': State, key: Option<nat>)
    requires JobsOnce(s) && s'.tasks == s.tasks && s'.forgotten == s.forgotten && (key.Some? ==> key.value in s.tasks)
    requires s'.held == s.held + AsSet(key) && s'.jobs == s.jobs + multiset(AsSet(key) - s.held)
    ensures JobsOnce(s')
  {}

  lemma HandleJobsOnce(c: Config, s: State, step: Step)
    requires step.Handle? && Inv(c, s) && Enabled(c, s, step)
    ensures JobsOnce(Next(c, s, step))
  {
    var event := MessageAt(s, step.m, step.t);
    assert Fleet.OnTopic(s.fleet.topic, event);
    JobAdded(s, Next(c, s, step), Enqueues(event, step.room, step.answer));
  }

  lemma HandleKeeps(c: Config, s: State, step: Step)
    requires step.Handle? && Inv(c, s) && Enabled(c, s, step)
    ensures Inv(c, Next(c, s, step))
  {
    var s' := Next(c, s, step);
    Group.StepKeeps(c.consumer, Ends(s.fleet.topic), s.group, HandleMove(s, step));
    HandleHandles(c, s, step);
    var at := s.group.members[step.m].places[step.t].at;
    HandledDischarges(s, s', step.t.p, at);
    HandledLetters(s, s', step.t.p, at);
    HandleJobsOnce(c, s, step);
    SameTasks(s, s');
  }

  lemma ForgetKeeps(c: Config, s: State, step: Step)
    requires step.Forget? && Inv(c, s) && Enabled(c, s, step)
    ensures Inv(c, Next(c, s, step))
  {
    DischargesKeep(s, Next(c, s, step));
    SameTasks(s, Next(c, s, step));
  }

  lemma StepKeeps(c: Config, s: State, step: Step)
    requires Inv(c, s) && Enabled(c, s, step)
    ensures Inv(c, Next(c, s, step))
  {
    match step
    case Create(task, id) => CreateKeeps(c, s, task, id);
    case Relay(step) => RelayKeeps(c, s, step);
    case Produce(partition, event) => ProduceKeeps(c, s, partition, event);
    case Consume(move) => ConsumeKeeps(c, s, move);
    case Handle(_, _, _, _, _, _) => HandleKeeps(c, s, step);
    case Forget(_) => ForgetKeeps(c, s, step);
  }

  // ----- over whole runs -----

  ghost predicate Run(c: Config, states: seq<State>, steps: seq<Step>) {
    && |states| == |steps| + 1 && Init(states[0])
    && forall i :: 0 <= i < |steps| ==> Enabled(c, states[i], steps[i]) && states[i + 1] == Next(c, states[i], steps[i])
  }

  lemma {:induction false} RunKeeps(c: Config, states: seq<State>, steps: seq<Step>, i: nat)
    requires Run(c, states, steps) && i < |states|
    ensures Inv(c, states[i])
  {
    if i == 0 {
      InitInv(c, states[0]);
    } else {
      RunKeeps(c, states, steps, i - 1);
      StepKeeps(c, states[i - 1], steps[i - 1]);
    }
  }

  ghost predicate InOutbox(s: State, task: nat) {
    exists id :: id in s.fleet.rows && s.fleet.rows[id].event == TaskCreated(task)
  }

  /** The event is on the topic, where the group has still to come past. */
  ghost predicate AheadOfGroup(s: State, task: nat) {
    exists p: nat, o: nat ::
      && p < |s.fleet.topic| && o < |s.fleet.topic[p]| && s.fleet.topic[p][o] == TaskCreated(task)
      && Group.CommittedOf(s.group, p) <= o
  }

  /** Nothing is lost: at every point of every run, the event of every committed task is in the
      outbox, or on the topic at or past the committed offset, or has become a job. It is never
      on the dead-letter topic. */
  lemma NothingLost(c: Config, states: seq<State>, steps: seq<Step>, i: nat, task: nat)
    requires Run(c, states, steps) && i < |states| && task in states[i].tasks
    ensures InOutbox(states[i], task) || AheadOfGroup(states[i], task) || task in states[i].jobs
    ensures TaskCreated(task) !in states[i].deadLetters
  {
    RunKeeps(c, states, steps, i);
    var s := states[i];
    assert HasRow(s, task);
    var id :| id in s.fleet.inserted && s.fleet.inserted[id] == TaskCreated(task);
    if id !in s.fleet.rows {
      assert Fleet.Balanced(s.fleet, id);
      assert Fleet.OnTopic(s.fleet.topic, TaskCreated(task));
      var p: nat, o: nat :| p < |s.fleet.topic| && o < |s.fleet.topic[p]| && s.fleet.topic[p][o] == TaskCreated(task);
      if o < Group.CommittedOf(s.group, p) {
        assert Group.SettledBelow(s.group, p, s.group.committed[p]);
        assert Discharged(s, p, o);
      }
    }
  }

  /** Nothing is skipped in silence: below a committed offset, every message that can never be handled is on
      the dead-letter topic, and nothing else ever gets there. */
  lemma HopelessAreParked(c: Config, states: seq<State>, steps: seq<Step>, i: nat)
    requires Run(c, states, steps) && i < |states|
    ensures var s := states[i];
      && (forall p: nat, o: nat ::
            p < |s.fleet.topic| && o < |s.fleet.topic[p]| && o < Group.CommittedOf(s.group, p)
            && (s.fleet.topic[p][o].Undecodable? || s.fleet.topic[p][o].BrokenTaskCreated?) ==>
              s.fleet.topic[p][o] in s.deadLetters)
      && (forall event :: event in s.deadLetters ==> event.Undecodable? || event.BrokenTaskCreated?)
  {
    RunKeeps(c, states, steps, i);
    var s := states[i];
    forall p: nat, o: nat |
      && p < |s.fleet.topic| && o < |s.fleet.topic[p]| && o < Group.CommittedOf(s.group, p)
      && Hopeless(s.fleet.topic[p][o])
      ensures s.fleet.topic[p][o] in s.deadLetters
    {
      assert Group.SettledBelow(s.group, p, s.group.committed[p]);
      assert Discharged(s, p, o);
    }
  }

  /** Nothing is made up: every outbox row, every task.created record and every job belongs to a
      committed task, no task has a second job until the queue has forgotten the first, and every dead
      letter is a record of the topic. */
  lemma NothingMadeUp(c: Config, states: seq<State>, steps: seq<Step>, i: nat)
    requires Run(c, states, steps) && i < |states|
    ensures var s := states[i];
      && (forall id :: id in s.fleet.rows ==> OfTask(s, s.fleet.rows[id].event))
      && (forall task :: Fleet.OnTopic(s.fleet.topic, TaskCreated(task)) ==> task in s.tasks)
      && (forall task :: task in s.jobs ==> task in s.tasks)
      && (forall task :: s.jobs[task] <= 1 + s.forgotten[task])
      && (forall event :: event in s.deadLetters ==> Fleet.OnTopic(s.fleet.topic, event))
  {
    RunKeeps(c, states, steps, i);
    var s := states[i];
    forall id | id in s.fleet.rows ensures OfTask(s, s.fleet.rows[id].event) {
      assert s.fleet.rows[id].event == s.fleet.inserted[id];
    }
  }
}
