/** The worker's handler (task-events.consumer.ts): decode one event, and hand it to the job queue
    once per task. */
module TaskEventsConsumer {
  import opened Wrappers
  import opened Events
  import opened KafkaConsumer

  /** How the job queue answers: its depth, and a send. A send that fails may have been stored. */
  datatype QueueAnswer = Accepted | Unavailable(stored: bool)

  /** A queue that drops a send whose key it still holds (job-queue.ts). */
  class JobQueue {
    var held: set<nat>
    var jobs: multiset<nat>

    constructor ()
      ensures held == {} && jobs == multiset{}
    {
      held, jobs := {}, multiset{};
    }

    method Send(key: nat, answer: QueueAnswer) returns (ok: bool)
      modifies this
      ensures ok == answer.Accepted?
      ensures held == if Stored(answer) then old(held) + {key} else old(held)
      ensures jobs == if Stored(answer) && key !in old(held) then old(jobs) + multiset{key} else old(jobs)
    {
      if Stored(answer) {
        if key !in held {
          jobs := jobs + multiset{key};
        }
        held := held + {key};
      }
      return answer.Accepted?;
    }
  }

  predicate Stored(answer: QueueAnswer) {
    answer.Accepted? || answer.stored
  }

  /** The queue's cached depth, and when it was read. */
  datatype Depth = Depth(waiting: nat, at: nat)

  const QUEUE_DEPTH_TTL_MS: nat := 1_000

  /** What bounds the queue for one event: room, a full queue, or a depth that cannot be read. */
  datatype Room = HasRoom | Full | Unknown

  /** How the handler ends, by the event and what the queue answers. */
  function EndOf(event: Event, room: Room, answer: QueueAnswer): HandlerEnd {
    match event
    case Undecodable(_) => Permanent
    case OtherType(_) => Resolved
    case BrokenTaskCreated(_) => Permanent
    case TaskCreated(_) => if room.HasRoom? && answer.Accepted? then Resolved else Backpressure
  }

  /** The task whose job this delivery put into the queue, if it did. */
  function Enqueues(event: Event, room: Room, answer: QueueAnswer): Option<nat> {
    if event.TaskCreated? && room.HasRoom? && Stored(answer) then Some(event.task) else None
  }

  function AsSet(key: Option<nat>): set<nat> {
    if key.Some? then {key.value} else {}
  }

  class TaskEventsConsumer {
    const maxWaiting: nat
    const queue: JobQueue
    var queueDepth: Option<Depth>

    constructor (maxWaiting: nat, queue: JobQueue)
      ensures this.maxWaiting == maxWaiting && this.queue == queue && queueDepth == None
    {
      this.maxWaiting, this.queue, queueDepth := maxWaiting, queue, None;
    }

    /** The depth the check goes by: the cached one while it is fresh, else what the queue answers. */
    function Effective(now: nat, waiting: Option<nat>): Option<Depth>
      reads this
    {
      if queueDepth.None? || now - queueDepth.value.at > QUEUE_DEPTH_TTL_MS
      then (if waiting.Some? then Some(Depth(waiting.value, now)) else None)
      else queueDepth
    }

    function RoomFor(now: nat, waiting: Option<nat>): Room
      reads this
    {
      var depth := Effective(now, waiting);
      if depth.None? then Unknown else if depth.value.waiting >= maxWaiting then Full else HasRoom
    }

    method EnsureQueueRoom(now: nat, waiting: Option<nat>) returns (room: Room)
      modifies this`queueDepth
      ensures room == old(RoomFor(now, waiting))
      // a fresh depth is not asked for again; another is the queue's to say
      ensures var recent := old(queueDepth).Some? && now - old(queueDepth).value.at <= 1_000;
        && (room.Unknown? <==> !recent && waiting.None?)
        && (recent ==> queueDepth == old(queueDepth))
        && (!recent && waiting.Some? ==> queueDepth == Some(Depth(waiting.value, now)))
      ensures !room.Unknown? ==> queueDepth.Some? && (room.HasRoom? <==> queueDepth.value.waiting < maxWaiting)
      ensures queueDepth == if room.Unknown? then old(queueDepth) else old(Effective(now, waiting))
    {
      if queueDepth.None? || now - queueDepth.value.at > QUEUE_DEPTH_TTL_MS {
        if waiting.None? { return Unknown; }
        queueDepth := Some(Depth(waiting.value, now));
      }
      return if queueDepth.value.waiting >= maxWaiting then Full else HasRoom;
    }

    /** `waiting` and `answer` are what the queue says if it is asked. */
    method Handle(event: Event, now: nat, waiting: Option<nat>, answer: QueueAnswer) returns (end: HandlerEnd)
      modifies this`queueDepth, queue
      ensures end == EndOf(event, old(RoomFor(now, waiting)), answer)
      // another type is skipped, what can never be handled is for the dead-letter topic
      ensures event.OtherType? ==> end.Resolved?
      ensures event.Undecodable? || event.BrokenTaskCreated? ==> end.Permanent?
      // one of ours is done with its job accepted, and otherwise it is the queue's fault
      ensures event.TaskCreated? ==> end.Resolved? || end.Backpressure?
      ensures event.TaskCreated? ==>
        (end.Resolved? <==> old(RoomFor(now, waiting)).HasRoom? && answer.Accepted?)
      ensures queue.held == old(queue.held) + AsSet(Enqueues(event, old(RoomFor(now, waiting)), answer))
      ensures queue.jobs == old(queue.jobs)
        + multiset(AsSet(Enqueues(event, old(RoomFor(now, waiting)), answer)) - old(queue.held))
      // a job goes in for one of ours alone, with room, unless its key is held
      ensures event.TaskCreated? && old(RoomFor(now, waiting)).HasRoom? && (answer.Accepted? || answer.stored) ==>
        && queue.held == old(queue.held) + {event.task}
        && queue.jobs
          == if event.task in old(queue.held) then old(queue.jobs) else old(queue.jobs) + multiset{event.task}
      ensures !(event.TaskCreated? && old(RoomFor(now, waiting)).HasRoom? && (answer.Accepted? || answer.stored)) ==>
        queue.held == old(queue.held) && queue.jobs == old(queue.jobs)
      // every job of ours counts against the cached depth, so a burst inside one window stops at the limit
      ensures end.Resolved? && event.TaskCreated? ==>
        && old(Effective(now, waiting)).Some? && queueDepth.Some?
        && queueDepth.value.waiting == old(Effective(now, waiting)).value.waiting + 1
        && queueDepth.value.at == old(Effective(now, waiting)).value.at
        && queueDepth.value.waiting <= maxWaiting
      // nothing else does
      ensures !event.TaskCreated? ==> queueDepth == old(queueDepth)
      ensures event.TaskCreated? && !end.Resolved? ==>
        queueDepth == if old(RoomFor(now, waiting)).Unknown? then old(queueDepth) else old(Effective(now, waiting))
    {
      match event
      case Undecodable(_) => return Permanent;
      case OtherType(_) => return Resolved;
      case BrokenTaskCreated(_) => return Permanent;
      case TaskCreated(task) =>
        var room := EnsureQueueRoom(now, waiting);
        if !room.HasRoom? { return Backpressure; }
        var ok := queue.Send(task, answer);
        if !ok { return Backpressure; }
        if queueDepth.Some? {
          queueDepth := Some(queueDepth.value.(waiting := queueDepth.value.waiting + 1));
        }
        return Resolved;
    }
  }
}
