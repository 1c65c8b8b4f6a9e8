/** What travels on the tasks.events topic: the decoded value of a record (events.gen.ts,
    task-events.consumer.ts). */
module Events {
  /** A task.created event that keeps the contract; one that breaks it; an event of another
      type, which is not the worker's; bytes that are not JSON. */
  datatype Event =
    | TaskCreated(task: nat)
    | BrokenTaskCreated(text: string)
    | OtherType(text: string)
    | Undecodable(text: string)
}
