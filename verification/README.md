# Verified model of the service template's protocols

A Dafny 4.11 model of the parts of the service template (TypeScript, NestJS) whose correctness depends
on the order in which things happen or fail, with proofs of what they promise. Kafka, Postgres, Valkey
and the job queue are abstract state machines: a send is acknowledged, refused for a reason that passes,
or rejected; an acknowledgement may be followed by a COMMIT that is lost; a commit of an offset may fail
and be swallowed; any process may crash between any two steps.

`dafny verify dfyconfig.toml` checks the whole project.

## How it is laid out

| file | what it holds |
|---|---|
| `Pipeline.dfy` | creators, relay replicas, topic, consumer group and job queue together |
| `OutboxRelay.dfy`, `RelayFleet.dfy`, `Backoff.dfy`, `KafkaErrors.dfy` | one relay pass with its backoff; any number of replicas; which send errors count |
| `KafkaConsumer.dfy`, `ConsumerGroup.dfy`, `TaskEventsConsumer.dfy`, `QueueDepth.dfy`, `Events.dfy` | retry accounts of one partition; any number of members; the worker's handler; how far its calls together fill the job queue |
| `Idempotency.dfy`, `IdempotencyStore.dfy`, `PgIdempotencyStore.dfy` | the Idempotency-Key protocol; the abstract TTL map; the table that refines it |
| `UnitOfWork.dfy`, `WholeScripts.dfy`, `TaskRepository.dfy` | transactions under a deadline; which scripts such a deadline cannot break; optimistic locking |
| `Limiter.dfy`, `RetryLoop.dfy`, `LimitRuns.dfy`, `Selector.dfy` | the outbound client: adaptive semaphore, retry loop, which configurations keep the limit within its bounds, routing |
| `Migrate.dfy`, `MigrateFleet.dfy`, `MigrationOrder.dfy`, `MigrationFiles.dfy` | one migration run; any number of runners; in which order they record; the files and their names |
| `ConfigFile.dfy`, `ConfigLoader.dfy`, `UnknownKeys.dfy`, `EditDistance.dfy` | the YAML file and paths; the merge; the unknown-key check; the hint |
| `Duration.dfy`, `Text.dfy`, `Wrappers.dfy` | durations and their two grammars; characters; Option and Result |

Code that changes state in place is a class whose methods are proved against a function or state the
result outright. Protocols between processes are machines: a `State`, a `Step`, `Enabled(state, step)`,
`Next(state, step)` and `Run(states, steps)`; invariants are proved step by step and then for every point
of every run. An environment assumption is a guard of `Enabled` or a named predicate in a `requires`.

## What came out

Places where the code does not do what its documentation, or a natural reading of it, promises, each with
what was proved about it.

* A target name used twice routes a URL to the client of the last target of that name
  (`Selector.OwnClientIffNameNotReused`).
* Work that nobody awaited and that issues a statement while COMMIT or ROLLBACK is under way still gets
  the client, and its write is committed on its own: a unit of work that rejects can leave a write behind
  (`UnitOfWork.RunInTransaction`, `UnitOfWork.RejectedYetWritten`).
* A unit of work can resolve without all of its writes: a statement that the deadline guard held back in a
  narrower scope does not abort the transaction, so when its error is caught the rest is committed. It does
  all that was intended exactly when no such statement was held back (`UnitOfWork.WholeUnlessScopeRefused`,
  `UnitOfWork.ResolvedYetIncomplete`). Which scripts are safe by every clock can be read off the script:
  those in which no scope that can run out before the budget around it leaves the script ending well
  (`WholeScripts.WholeExactly`); save a in a scope of its own, caught, then b, is safe exactly when a's scope
  is no shorter than the one around both (`WholeScripts.WholeUnlessShorter`).
* A task can be archived twice, exactly by a request whose expected version is past an archival that is past
  the version it read; a caller that expects no later version than that is safe, and for any later one it
  can happen (`TaskRepository.SecondArchivalExactly`, `TaskRepository.SecondArchivalHappens`).
* The limit of the adaptive limiter stays within its bounds in every run exactly when it starts there and
  a decrease from the ceiling does not lead above it: with a factor that is not negative, a start within the
  bounds and, unless the start is so low that no request ever gets a slot, a factor of at most 1
  (`LimitRuns.BoundsHoldExactly`, `LimitRuns.SafeFactor`). Nothing checks either. A ceiling of 5 with the
  default start of 10 leaves it at 9 while the upstream fails (`Limiter.OutOfBounds`,
  `Limiter.CeilingOverrun`).
* A send goes on after its session was lost, so an acknowledgement of a row can still come when another
  replica has deleted it; there is at most one for each rolled-back transaction that had sent the row, and
  one more (`RelayFleet.FleetIsSafe`).
* The job queue stays within its limit in every run exactly when at most one partition is consumed at once
  (`QueueDepth.LimitHoldsForOneOnly`). With n at once, calls that were told of an empty queue and get the
  answer late let a whole limit of jobs in each: the queue reaches n times the limit and n (n - 1) / 2 more,
  and no more than that (`QueueDepth.LeastBound`). Jobs that came in without an accepted send of the process
  count on top.
* Migration files are applied in string order, which is version order while all versions have the same
  number of digits; 10000 goes before 9999 (`MigrationFiles.FileOrder`, `MigrationFiles.WiderGoesFirst`).
* A file that is put before an applied one is applied after it, and nothing says so. A run leaves the records
  in the order of its files exactly when it found them in it with no unrecorded file before a recorded one
  (`MigrationOrder.OrderExactly`, `MigrationOrder.AppliedOutOfOrder`).
* A YAML key with a dot in it, such as `database.url:` at the top, or what stands below an empty key, can be
  read by nothing and not reported: exactly when the keys together spell a registered path or key
  (`UnknownKeys.MissedExactly`, `UnknownKeys.DottedKeyIsMissed`, `UnknownKeys.EmptyKeyIsMissed`).
* A handler that outlives the 30 s lock lets a second run of the same key start
  (`Idempotency.OverrunAdmitsSecondRun`).
* With the default factor 0.9 the adaptive limit settles at 9 and never reaches its floor of 1
  (`Limiter.DefaultSettlesAtNine`).
* An anonymous request and one of a user named "anon" share idempotency keys (`Idempotency.StoreKeysMeet`).
* `formatDuration` prints "0s" for zero, which `parseDuration` refuses (`Duration.RoundTrip`).

## Model

| member | source | states |
|---|---|---|
| `Pipeline.NothingLost` | apps/api/src/modules/tasks/application/task.use-case.ts:61-75 | at every point of every run the event of every committed task is in the outbox, on the topic at or past the group's committed offset, or a job; and it is never on the dead-letter topic |
| `Pipeline.NothingMadeUp` | packages/outbox/src/outbox.relay.ts:176-253 | every outbox row, every task.created record and every job belongs to a committed task; no task gets another job unless the queue had forgotten its key, once for each; every dead letter is a record of the topic |
| `Pipeline.StepKeeps` | packages/kafka/src/kafka-consumer.ts:229-259 | every step of any creator, relay, member, producer or queue keeps the joint invariant of the four stores |
| `Pipeline.HandleHandles` | apps/worker/src/tasks/task-events.consumer.ts:106-129 | one handler call under the runner: only what can never be handled is parked, and that never resolves; a well-formed task event resolves only once its job is in the queue |
| `Pipeline.HopelessAreParked` | packages/kafka/src/kafka-consumer.ts:300-361 | at every point of every run each undecodable or broken record below a committed offset is on the dead-letter topic, and nothing else is: no task and no event of another type |
| `RelayFleet.FleetIsSafe` | packages/outbox/src/outbox.relay.ts:176-253 | for any number of replicas, sends that outlive their session or their process included: open batches are disjoint; a row leaves the table only after an acknowledgement and its event is on the topic; attempts equals the committed passes that found the row rejected and stays within the limit; acknowledgements, those still to come included, exceed one only by rolled-back transactions that had sent the row |
| `RelayFleet.StepKeeps` | packages/outbox/src/outbox.relay.ts:180-253 | every take, answer, commit, rollback and crash, and every send that ends after its transaction is gone, keeps the books of every row balanced |
| `RelayFleet.CommitsAreBounded` | packages/outbox/src/outbox.relay.ts:204-226 | after the last insert, at most as many non-empty passes commit, over all replicas, as the rows then had rejections left |
| `RelayFleet.CommitsWhatItCan` | packages/outbox/src/outbox.relay.ts:204-226 | an open transaction whose sends have ended can commit exactly when its batch is empty or some row was acknowledged or rejected, and then deletes the one and counts the other |
| `OutboxRelay.OutboxRelay.RelayBatch` | packages/outbox/src/outbox.relay.ts:176-253 | with all statements and COMMIT answered a pass throws exactly when every send of a non-empty batch failed without a rejection of the record itself, by kind or by one of the seven codes; otherwise acknowledged rows are gone, rejected ones have one attempt more, the rest are as they were; a pass that threw changed nothing unless only the answer to COMMIT was lost; the connection is released once, broken when ROLLBACK failed |
| `OutboxRelay.OutboxRelay.CountPoison` | packages/outbox/src/outbox.relay.ts:220-225 | the loop counts every poison row once, and only those |
| `OutboxRelay.OutboxRelay.Tick` | packages/outbox/src/outbox.relay.ts:263-286 | a pass without a refusal resets the counter and goes again at once after a full batch, else after the interval; any other raises it by one and waits the doubled interval up to 30 s |
| `OutboxRelay.FailuresCountTheStreak` | packages/outbox/src/outbox.relay.ts:263-286 | after k failed or partial passes in a row, and whatever came before, the delay is min(interval * 2^k, 30000) |
| `OutboxRelay.CommittedPassProgresses` | packages/outbox/src/outbox.relay.ts:204-226 | a committed pass over a non-empty batch strictly lowers the sum of the attempts the live rows have left |
| `OutboxRelay.IdlePassChangesNothing` | packages/outbox/src/outbox.relay.ts:204-226 | a pass that sent nothing and rejected nothing leaves the table as it was |
| `Backoff.DoublesToTheCap` | packages/outbox/src/outbox.relay.ts:270-278 | the delay starts at the base, doubles with each failure until it reaches the cap, and stays there |
| `KafkaErrors.PoisonExactlyWhenRejected` | packages/kafka/src/kafka-errors.ts:175-182 | an error is not retryable exactly when it is a rejection of the record itself, by kind or by one of the seven codes; a fatal flag wins over the code |
| `KafkaErrors.CodesAreDisjoint` | packages/kafka/src/kafka-errors.ts:144-149 | no code stands under two kinds, so the lookup map gives each registered code its own kind |
| `KafkaConsumer.KafkaConsumerRunner.HandleMessage` | packages/kafka/src/kafka-consumer.ts:229-259 | one delivery: it comes again unless the handler resolved or the dead-letter topic has it; the accounts of its partition, the committed offset, the dead letter, the outcome counted, and the pause from a second up to a minute, five seconds under back-pressure; other partitions untouched |
| `KafkaConsumer.KafkaConsumerRunner.GiveUp` | packages/kafka/src/kafka-consumer.ts:300-361 | parked, retried, stuck or still stuck, with the attempts entry, the dead letter and its attempts number |
| `KafkaConsumer.KafkaConsumerRunner.MarkStuck` | packages/kafka/src/kafka-consumer.ts:364-369 | stuck once, then still stuck |
| `KafkaConsumer.KafkaConsumerRunner.RetryLater` | packages/kafka/src/kafka-consumer.ts:262-291 | the partition's failures and its pause, capped lower under back-pressure |
| `KafkaConsumer.KafkaConsumerRunner.Commit` | packages/kafka/src/kafka-consumer.ts:371-384 | the accounts of the partition are cleared even when the commit fails |
| `KafkaConsumer.VerdictMatchesHistory` | packages/kafka/src/kafka-consumer.ts:238-258 | every verdict is the one the history of deliveries calls for, and a dead letter carries the number of counted failures |
| `KafkaConsumer.FirstGiveUp` | packages/kafka/src/kafka-consumer.ts:309-314 | the runner gives a message up for the first time exactly at its first permanent failure or counted failure number maxRetries + 1; its verdict there is the dead letter with the number of counted failures, or stuck |
| `KafkaConsumer.StuckReportedOnce` | packages/kafka/src/kafka-consumer.ts:364-369 | stuck is reported at most once until the message moves on |
| `KafkaConsumer.BackpressureChangesNothing` | packages/kafka/src/kafka-consumer.ts:304-313 | the runner's verdict on the last delivery is the one it gives with all earlier back-pressure deliveries taken out, and the message is still there without them |
| `ConsumerGroup.NothingSkipped` | packages/kafka/src/kafka-consumer.ts:371-384 | over all runs with crashes, rebalances, swallowed commit errors and members that go on, in a handler or a commit, after losing a partition or getting it back: every message below a committed offset was resolved or parked |
| `ConsumerGroup.StepKeeps` | packages/kafka/src/kafka-consumer.ts:229-259 | each step keeps that, for committed offsets and for every member's position |
| `ConsumerGroup.MovesOn` | packages/kafka/src/kafka-consumer.ts:229-259 | a resolved or parked message is moved past and its commit names the next offset; any other keeps its place with nothing committed |
| `TaskEventsConsumer.JobQueue.Send` | packages/jobs/src/job-queue.ts:7-13 | a send whose key is still held adds no job; a failed one may have been stored |
| `TaskEventsConsumer.TaskEventsConsumer.EnsureQueueRoom` | apps/worker/src/tasks/task-events.consumer.ts:132-143 | a cached depth of at most a second decides unasked, otherwise the queue's answer does and is kept; there is room exactly below the limit; an unanswered question changes nothing |
| `TaskEventsConsumer.TaskEventsConsumer.Handle` | apps/worker/src/tasks/task-events.consumer.ts:106-129 | one call on its own: another type is skipped, an undecodable or broken event is permanent, one of ours resolves exactly with room and an accepted send and is back-pressure otherwise; what the queue then holds, and the cached depth counting our own job and staying within the limit |
| `QueueDepth.LimitHoldsForOneOnly` | apps/worker/src/tasks/task-events.consumer.ts:120-143 | in every run the queue holds no more jobs than its limit, those from elsewhere aside, exactly when at most one partition is consumed at once |
| `QueueDepth.LeastBound` | apps/worker/src/tasks/task-events.consumer.ts:131-143 | with calls that take turns at their awaits and answers that overtake each other: the least bound that every run keeps is calls at once times the limit, and half of calls times calls less one |
| `QueueDepth.QueueIsBounded` | packages/jobs/src/pgboss-job-queue.ts:77-87 | no run takes the queue past that, whoever else sends to it or takes from it |
| `QueueDepth.StepKeeps` | apps/worker/src/tasks/task-events.consumer.ts:120-143 | each turn keeps jobs waiting, jobs that may still pass on the cached depth and what unanswered counts will let in within that bound |
| `QueueDepth.UndisturbedCall` | apps/worker/src/tasks/task-events.consumer.ts:132-143 | a call that nothing comes between decides by and leaves the depth as `EnsureQueueRoom` does |
| `Idempotency.Execute` | packages/idempotency/src/idempotency.interceptor.ts:114-201 | with any store call failing with or without effect and any pruning: a live entry of the same request is replayed with its status and body, one of another request or under way is a conflict, neither with a run or a change; a failed read or lock runs without it; otherwise the lock decides, and what the run leaves is its result for its time, nothing after a failure, or the lock for 30 s |
| `Idempotency.Repeat` | packages/idempotency/src/idempotency.interceptor.ts:128-201 | round trip: after a run that stored its result, the same request before its expiry gets that status and body, another one a conflict, and neither runs |
| `Idempotency.StoredResultAnswers` | packages/idempotency/src/idempotency.interceptor.ts:128-161 | in every dependable run, until a stored result expires each request of its key that reads is answered from it, the same one with the status and body of a completed run |
| `Idempotency.RequestLeaves` | packages/idempotency/src/idempotency.interceptor.ts:164-201 | after a run under the lock: a result that was stored is the entry, a failed handler whose lock was removed leaves nothing, and live entries of other keys are untouched |
| `Idempotency.ReplayIsGenuine` | packages/idempotency/src/idempotency.interceptor.ts:125-161 | over all interleavings, failures, crashes and foreign writes that forge no entry: a replayed status and body come from a completed run of a request with the same key and fingerprint |
| `Idempotency.AtMostOneRun` | packages/idempotency/src/idempotency.interceptor.ts:163-201 | if store calls work, entries come only from the interceptor and the lock is not outlived: at most one handler per key at a time, and none starts before a stored entry expires |
| `Idempotency.ExclusiveKept` | packages/idempotency/src/idempotency.interceptor.ts:163-201 | each step keeps one lock holder per key, its lock in place, and stored entries until they expire |
| `Idempotency.OverrunAdmitsSecondRun` | packages/idempotency/src/idempotency.interceptor.ts:49-49 | in any state where a running handler's lock has expired, one more request runs at the same time |
| `Idempotency.StoreKeysMeet` | packages/idempotency/src/idempotency.interceptor.ts:90-111 | two requests share a store key exactly when user name (anonymous counts as "anon") and UUID agree, letter case aside, whatever the user name contains |
| `PgIdempotencyStore.TableRefinesMap` | packages/idempotency/src/pg-idempotency.store.ts:22-65 | every sequence of operations gets the replies of the abstract map, whatever expired rows linger or are pruned |
| `PgIdempotencyStore.StepRefines` | packages/idempotency/src/pg-idempotency.store.ts:43-59 | one operation gives the same reply and leaves the same live entries from then on |
| `PgIdempotencyStore.PgIdempotencyStore.SetNx` | packages/idempotency/src/pg-idempotency.store.ts:43-59 | inserted or replaced an expired row, or refused by a live one; pruning takes only expired rows of other keys |
| `PgIdempotencyStore.PgIdempotencyStore.Perform` | packages/idempotency/src/idempotency.store.ts:18-30 | any operation of the interface is one step of the table's specification |
| `UnitOfWork.RunInTransaction` | packages/database/src/pg-unit-of-work.service.ts:35-64 | for any script with nested calls, caught errors and scopes with a budget of their own, and any clock: resolving means that exactly what the script came to by the clock is committed, which is all it intended exactly when no statement was held back by a spent budget; rejecting (the server answering) means none is; plus only what un-awaited work strayed; it opens with BEGIN and the rest of the budget; ROLLBACK is sent exactly when it rejects, and the client is released once, destroyed exactly when that was not carried out and otherwise outside of a transaction; the ambient accessor yields no client afterwards; while the server carries out what it is sent, it resolves exactly when the script ends well with budget left |
| `UnitOfWork.Execute` | packages/database/src/pg-unit-of-work.service.ts:49-49 | running a script leaves the transaction with exactly the writes and outcome that the script has by the clock, or doomed: aborted or cut |
| `UnitOfWork.WholeUnlessScopeRefused` | packages/database/src/pg-deadline.ts:41-64 | with time going forward, a unit of work whose script ends well with budget left for COMMIT does all that was intended exactly when no statement of a narrower scope was held back |
| `UnitOfWork.RefusalsAreMissing` | packages/database/src/pg-deadline.ts:46-53 | a statement that is held back is missing from the writes, and without one the script does just what was intended |
| `UnitOfWork.CandidScriptsAreWhole` | packages/common/src/utils/deadline.ts:31-39 | a script that catches no error around or inside a scope with its own budget does all that was intended whenever it ends well with budget left |
| `WholeScripts.WholeExactly` | packages/database/src/pg-deadline.ts:41-64 | a script does all that was intended whenever it ends well with budget left, by every clock that does not go back and under every deadline, exactly when no scope in it can run out before the budget around it and the script still end well |
| `WholeScripts.WholeUnlessShorter` | packages/common/src/utils/deadline.ts:31-39 | a write in a scope of its own, its error caught, followed by one that is needed: always whole exactly when the inner scope is no shorter than the outer one |
| `WholeScripts.SpentFromStart` | packages/database/src/pg-deadline.ts:41-64 | under a spent budget a script ends well, and has statements held back, exactly as its shape says, whatever the clock |
| `UnitOfWork.ResolvedYetIncomplete` | packages/common/src/utils/deadline.ts:31-39 | a resolving unit of work under a clock that goes forward, with a write missing: its refusal within a narrower scope was caught |
| `UnitOfWork.Join` | packages/database/src/pg-unit-of-work.service.ts:37-37 | a nested call works in the outer transaction, under the budget in force, with no savepoint and no connection of its own; after its end it is refused |
| `UnitOfWork.CommitLoudly` | packages/database/src/pg-unit-of-work.service.ts:83-86 | resolves only when the writes are committed; the silent ROLLBACK of an aborted transaction is an error; with the budget spent nothing is committed |
| `UnitOfWork.RollBack` | packages/database/src/pg-unit-of-work.service.ts:52-58 | ROLLBACK goes out whatever the budget; if it does not fail the connection is outside of a transaction |
| `UnitOfWork.Straggle` | packages/database/src/transaction.storage.ts:39-44 | which late writes take effect outside of any transaction while the ambient transaction is still open |
| `UnitOfWork.RejectedYetWritten` | packages/database/src/pg-unit-of-work.service.ts:59-63 | a rejecting unit of work that leaves an un-awaited write committed |
| `UnitOfWork.PoolClient.Query` | packages/database/src/pg-deadline.ts:41-64 | once the budget is spent only ROLLBACK is sent, and a refused statement changes nothing on the server |
| `UnitOfWork.LimitTransaction` | packages/database/src/pg-deadline.ts:78-84 | with a budget the time limit that reaches the server is the deadline less the time at the look at the clock, without one or with none left nothing is sent; the transaction stays open and empty, or the call fails |
| `UnitOfWork.Add` | packages/outbox/src/outbox.writer.ts:49-62 | an event joins the caller's open transaction under the budget in force; outside of one, or after its end, it is refused |
| `UnitOfWork.CreateTask` | apps/api/src/modules/tasks/application/task.use-case.ts:61-75 | the task row and the event row are committed together or not at all; resolving means both are there |
| `TaskRepository.SqlTaskRepository.Update` | apps/api/src/modules/tasks/infrastructure/sql-task.repository.ts:142-186 | for every shape of patch the statement and its numbered parameters change exactly the fields given, and the version by one, on the expected version, with the right error otherwise |
| `TaskRepository.SqlTaskRepository.Archive` | apps/api/src/modules/tasks/infrastructure/sql-task.repository.ts:188-209 | the same for archiving |
| `TaskRepository.SqlTaskRepository.Create` | apps/api/src/modules/tasks/infrastructure/sql-task.repository.ts:126-140 | a new task is active, at version 0; a taken id is refused |
| `TaskRepository.NoLostUpdate` | apps/api/src/modules/tasks/infrastructure/sql-task.repository.ts:142-209 | for any interleaving: version equals the number of committed writes, the row is their fold in version order, the k-th expected version k, and a request that succeeded was given the row as its write left it |
| `TaskRepository.EachVersionOnce` | apps/api/src/modules/tasks/infrastructure/sql-task.repository.ts:163-169 | of two requests that succeed the later expected a later version: each version is written over at most once |
| `TaskRepository.ArchivedForGood` | apps/api/src/modules/tasks/application/task.use-case.ts:93-102 | an archived task is never active again |
| `TaskRepository.SecondArchivalExactly` | apps/api/src/modules/tasks/application/task.use-case.ts:93-102 | a request archives an archived task exactly when an archival was committed between the version it read and the version it expects |
| `TaskRepository.SecondArchivalNeedsForesight` | apps/api/src/modules/tasks/application/task.use-case.ts:93-102 | a caller that expects no later version than its request reads never archives an archived task |
| `TaskRepository.SecondArchivalHappens` | apps/api/src/modules/tasks/application/task.use-case.ts:93-102 | for every version read and every later one expected there is a run to such a second archival |
| `Limiter.AdaptiveConcurrencyLimiter.Acquire` | packages/resilient-client/src/resilient-client.ts:231-242 | a slot is granted exactly when one is free; otherwise the caller queues at the end |
| `Limiter.AdaptiveConcurrencyLimiter.Release` | packages/resilient-client/src/resilient-client.ts:244-258 | the slot is given back; a failure or a success slower than the target lowers the limit, a success within it raises it by one up to the ceiling; the best round trip so far; whom it wakes |
| `Limiter.AdaptiveConcurrencyLimiter.Cancel` | packages/resilient-client/src/resilient-client.ts:261-264 | a slot given back without an observation |
| `Limiter.AdaptiveConcurrencyLimiter.DrainWaiters` | packages/resilient-client/src/resilient-client.ts:270-275 | with a slot free it wakes every waiter, otherwise none |
| `Limiter.OperationsLeaveNobodyIdle` | packages/resilient-client/src/resilient-client.ts:231-275 | whatever the limit and its bounds, no operation leaves a waiter unwoken while a slot is free |
| `Limiter.OperationsKeepBounds` | packages/resilient-client/src/resilient-client.ts:244-268 | every operation keeps a limit within its bounds there |
| `Limiter.DecreaseStalls` | packages/resilient-client/src/resilient-client.ts:266-268 | up to the largest integer below 1 / (1 - factor) a decrease changes nothing; above it the limit falls, never past the floor |
| `Limiter.FailuresSettle` | packages/resilient-client/src/resilient-client.ts:266-268 | under repeated failures the limit reaches max(minLimit, that integer) in at most the initial difference of steps, and stays |
| `Limiter.OutOfBounds` | packages/resilient-client/src/resilient-client.ts:216-222 | how long a start out of bounds lasts: above the ceiling until one fast answer, or as many failures as it is above, the latter exactly when the stall point is not above the ceiling; below the floor until one decrease, or one fast answer per step |
| `Limiter.CeilingOverrun` | packages/resilient-client/src/resilient-client.ts:216-222 | with a ceiling of 5 and the default start of 10, failures leave the limit at 9 |
| `Limiter.DefaultSettlesAtNine` | packages/resilient-client/src/resilient-client.ts:217-221 | with the defaults it settles at 9 |
| `RetryLoop.ExecuteWithRetry` | packages/resilient-client/src/resilient-client.ts:508-578 | among other requests of the same limiter: it goes round again exactly while answers are retried statuses or errors with retries left, and the first other one, a spent budget or the last try has its own outcome; each dispatch is observed once, as a success exactly when it was a response that is not retried, a slot that came too late given back unobserved |
| `RetryLoop.Attempt` | packages/resilient-client/src/resilient-client.ts:509-575 | one time round the loop: which answers end it and how, its calls of the limiter and what they leave of it |
| `RetryLoop.SettleLeads` | packages/resilient-client/src/resilient-client.ts:529-575 | where each answer leads a request: to a backoff, or to its own outcome |
| `RetryLoop.TakenAndGivenBack` | packages/resilient-client/src/resilient-client.ts:508-578 | in those calls every slot taken is given back by the next call |
| `RetryLoop.SlotsAreConserved` | packages/resilient-client/src/resilient-client.ts:508-578 | for any number of requests, any limits, interleavings and late wakeups: slots in use equal live attempts, a free slot leaves nobody blocked but those already woken, and no request is sent more than maxRetries + 1 times, and one whose retries are exhausted exactly that often |
| `LimitRuns.BoundsHoldExactly` | packages/resilient-client/src/resilient-client.ts:216-268 | for any limits, factor and start: every run stays within the bounds exactly when the start is and one decrease from the ceiling, or two where two requests fit, do not lead above it |
| `LimitRuns.SafeFactor` | packages/resilient-client/src/resilient-client.ts:266-268 | for a factor that is not negative that means a start within the bounds and, from a start of 1 or more, a factor of at most 1 |
| `RetryLoop.BoundsHoldIfAtFirst` | packages/resilient-client/src/resilient-client.ts:216-222 | with a floor of at least 1 and a factor between 0 and 1: the limit is within its bounds up to any point of a run exactly when it started there |
| `RetryLoop.SomeSlotAlways` | packages/resilient-client/src/resilient-client.ts:231-275 | starting from 1 or more the limit stays there, so with no slot in use nobody is left waiting |
| `RetryLoop.NoSlotEver` | packages/resilient-client/src/resilient-client.ts:231-242 | starting from less no request ever gets a slot |
| `RetryLoop.GrantedOnlyWhenFree` | packages/resilient-client/src/resilient-client.ts:233-237 | no step gives a request a slot unless one was free |
| `RetryLoop.SlotsKept` | packages/resilient-client/src/resilient-client.ts:508-578 | every way into and out of an attempt keeps the count of slots and the queue exact |
| `RetryLoop.BudgetKept` | packages/resilient-client/src/resilient-client.ts:509-577 | every step keeps each request within the dispatches its attempt number allows |
| `Selector.MatchesSelector` | packages/resilient-client/src/resilient-client.pool.ts:362-372 | true exactly when the URL is gap, part, gap, part and so on for all literal parts in order |
| `Selector.FirstOccurrenceIsComplete` | packages/resilient-client/src/resilient-client.pool.ts:365-370 | taking the leftmost occurrence of a part loses no match |
| `Selector.MatchIsFilledSelector` | packages/resilient-client/src/resilient-client.pool.ts:356-361 | a match means that the selector stands somewhere in the URL with each placeholder replaced by some text |
| `Selector.SplitAtPlaceholders` | packages/resilient-client/src/resilient-client.pool.ts:363-363 | the parts and the placeholders between them spell the selector, and no part contains a placeholder |
| `Selector.ResilientPool.constructor` | packages/resilient-client/src/resilient-client.pool.ts:158-178 | each name leads to the client of the last target that has it |
| `Selector.BaseUrlIsExact` | packages/resilient-client/src/resilient-client.pool.ts:379-384 | the base URL is found exactly when the selector is a scheme, https if it is left out, and a host up to a slash, placeholder, query or fragment |
| `Selector.ResilientPool.ResolveTarget` | packages/resilient-client/src/resilient-client.pool.ts:297-305 | the first target in declaration order that matches, with the client stored under its name, or none when none matches |
| `Selector.OwnClientIffNameNotReused` | packages/resilient-client/src/resilient-client.pool.ts:166-175 | that client is the target's own exactly when no later target reuses the name |
| `Migrate.Database.Migrate` | apps/migrate/src/migrate.ts:71-134 | a changed or missing applied file stops the run before anything is done; otherwise the pending migrations are applied and recorded in list order up to the first that fails; the lock is released; records go on naming the transactional effects |
| `Migrate.Database.Verify` | apps/migrate/src/migrate.ts:89-96 | no complaint exactly when for every record a file of its version has its checksum; the complaint says whether the file is gone or changed |
| `Migrate.Database.ApplyPending` | apps/migrate/src/migrate.ts:98-130 | the loop, with what a failing migration leaves behind |
| `Migrate.CompletedRunIsFinal` | apps/migrate/src/migrate.ts:99-100 | after a completed run nothing is pending |
| `MigrateFleet.EffectsAreRecorded` | apps/migrate/src/migrate.ts:71-134 | for any interleaving of runners and crashes: records name exactly the transactional migrations in the schema, each once, in that order; any other effect is a no-transaction file cut off before its record, once for each time |
| `MigrateFleet.StepKeeps` | apps/migrate/src/migrate.ts:99-129 | every step and crash keeps the advisory lock exclusive and the books balanced |
| `MigrateFleet.RecordedInListOrder` | apps/migrate/src/migrate.ts:99-129 | while files are only added at the end of the list, the records are its first ones, in its order |
| `MigrationOrder.OrderExactly` | apps/migrate/src/migrate.ts:89-130 | a run that ends without an error, among any others and whatever its files: it records the pending ones in their order after what it found, and the records end up in the order of its files exactly when they were in it with no unrecorded file before a recorded one |
| `MigrationOrder.AppliedOutOfOrder` | apps/migrate/src/migrate.ts:89-130 | for any two files two runs without an error that record the one put in front second |
| `MigrateFleet.NextRunIsEmpty` | apps/migrate/src/migrate.ts:98-130 | once a run returned, a later run of the same files applies nothing |
| `MigrateFleet.EditedFileStops` | apps/migrate/src/migrate.ts:90-96 | an edited or missing applied file stops a run at its check, with the lock released and nothing changed |
| `MigrationFiles.LoadMigrations` | apps/migrate/src/migrate.ts:46-68 | succeeds exactly when every name parses and no version repeats, with the migrations in file order, each with its name, the hash of its text and whether it is marked to run without a transaction |
| `MigrationFiles.ParseIsExact` | apps/migrate/src/migrate.ts:41-54 | a file name is taken apart into version and name exactly when it has that form |
| `MigrationFiles.MarkIsExact` | apps/migrate/src/migrate.ts:42-42 | the mark is found exactly when the text starts with its parts, any white space between them and a word boundary after |
| `MigrationFiles.FileOrder` | apps/migrate/src/migrate.ts:48-50 | which of two files is applied first, for any two versions |
| `MigrationFiles.SameWidthIsNumeric` | apps/migrate/src/migrate.ts:7-8 | versions with the same number of digits are applied in numeric order |
| `MigrationFiles.SortedFilesLoadInOrder` | apps/migrate/src/migrate.ts:46-68 | sorted files whose versions have one width are loaded in numeric order |
| `MigrationFiles.WiderGoesFirst` | apps/migrate/src/migrate.ts:48-50 | versions of different widths need not be |
| `ConfigLoader.ConfigLoader.Load` | packages/config/src/config.loader.ts:209-276 | every registered key ends up with the first non-empty of environment, structured YAML, flat YAML, app default and registry default, and its source names the one used; other variables are untouched |
| `ConfigLoader.SourcesInOrder` | packages/config/src/config.loader.ts:209-276 | that effective setting by what stands at each place: each source counts only where none before it has a value |
| `ConfigLoader.ConfigLoader.DropEmptyValues` | packages/config/src/config.loader.ts:100-104 | empty registered variables are removed |
| `ConfigLoader.ConfigLoader.RecordEnvSources` | packages/config/src/config.loader.ts:106-110 | exactly the registered keys that are set are recorded, as from the environment |
| `ConfigLoader.ConfigLoader.ReadStructured` | packages/config/src/config.loader.ts:225-234 | unset keys take the value at their YAML path, if it is not null or empty |
| `ConfigLoader.ConfigLoader.ReadFlat` | packages/config/src/config.loader.ts:237-242 | unset keys take the top-level value of their own name |
| `ConfigLoader.ConfigLoader.ApplyDefaults` | packages/config/src/config.loader.ts:268-276 | unset keys take the app's default, else the registry's |
| `ConfigFile.GetNestedValue` | packages/config/src/config.loader.ts:54-63 | the loop finds what stands at the dotted path |
| `UnknownKeys.FindUnknown` | packages/config/src/config.loader.ts:349-365 | the walk reports exactly the leaves reached without passing a known path |
| `UnknownKeys.RemovalChangesNothing` | packages/config/src/config.loader.ts:342-348 | taking a reported leaf out of the file changes no key's value or source |
| `UnknownKeys.ReportedUnlessStopped` | packages/config/src/config.loader.ts:349-365 | whatever its keys look like, a leaf is reported exactly when no known path is spelt on the way to it |
| `UnknownKeys.MissedExactly` | packages/config/src/config.loader.ts:353-354 | a leaf that nothing reads goes unreported exactly when some of its keys together spell a registered path, or a registered key after nothing but empty ones |
| `UnknownKeys.EmptyKeyIsMissed` | packages/config/src/config.loader.ts:353-354 | a leaf below an empty key that nothing reads and that is not reported |
| `UnknownKeys.ReportedIffNotRead` | packages/config/src/config.loader.ts:342-348 | without dots and empty keys, a leaf is reported exactly when the merge reads neither it nor anything above it |
| `UnknownKeys.DottedKeyIsMissed` | packages/config/src/config.loader.ts:353-354 | any key that spells a registered path of two parts is read by nothing and not reported |
| `EditDistance.ComputeDistance` | packages/config/src/config.loader.ts:378-392 | the rolling row computes the recursive Levenshtein distance |
| `EditDistance.DistanceIsMetric` | packages/config/src/config.loader.ts:378-392 | symmetric, zero exactly on equal strings, triangle inequality |
| `EditDistance.DistanceIsLeastEdits` | packages/config/src/config.loader.ts:378-392 | it is the least number of single-character edits, and some edit script achieves it |
| `EditDistance.Nearest` | packages/config/src/config.loader.ts:367-376 | the first candidate at the least distance, if that is within two edits or a quarter of the word, else nothing |
| `Duration.ParseDuration` | packages/logger/src/log-level.ts:71-94 | refuses exactly what the boot grammar does not accept and what rounds to nothing; otherwise the rounded total |
| `Duration.OneUnit` | packages/logger/src/log-level.ts:58-64 | a whole number and a unit parse to that many of 1, 1000, 60 000, 3 600 000 or 86 400 000 milliseconds |
| `Duration.FractionDecimal` | packages/logger/src/log-level.ts:83-84 | a number with a point is its whole part and its fraction over the power of ten of its length |
| `Duration.SumTokens` | packages/logger/src/log-level.ts:80-86 | the loop over the matches sums up the tokens and finds what is left over |
| `Duration.FormatDuration` | packages/logger/src/log-level.ts:97-114 | hours, minutes, seconds and milliseconds, leaving out those that are zero |
| `Duration.RoundTrip` | packages/logger/src/log-level.ts:96-97 | what is printed for a whole number of milliseconds parses back to it exactly when it is at least 1 |
| `Duration.BootAcceptsWhatParses` | packages/config/src/config.values.ts:53-53 | the boot expression accepts exactly the bare numbers and the strings the tokeniser reads to the end |
| `Duration.LexOfText` | packages/logger/src/log-level.ts:80-80 | the tokeniser reads back any sequence of tokens, `ms` against `m` and `s` included |

## Left out

- Metrics, tracing, logging text, redaction, health checks, the admin server, NestJS wiring: no effect on the properties.
- Kafka, Postgres, Valkey and job-queue internals: abstract transitions. That a rejected record is not in the log, that row locks of a dead session are released, and that an advisory lock excludes others are assumptions of the machines.
- Delivery in the end: no liveness is proved beyond the relay's progress measure; a full batch of rows that cannot be sent can hold back later ones.
- Topic retention and log compaction: records stay. A group without a committed offset starts at the beginning, the registry's default for auto.offset.reset.
- Overflow to Infinity, rounding of doubles and clocks that run backwards: numbers are exact integers or reals, and where a result needs it time does not go back (`RunInTransaction` holds for any clock).
- String.prototype.toLowerCase in the hint, the file's hash, the reading of files and the text of a YAML value (JSON for mappings): function parameters, any function.
- JSON and sha256 of requests: an entry is its status, body and fingerprint, and fingerprints have equality.
- The order in which directory entries are listed: `LoadMigrations` is given the names as sorted; `FileOrder` is about that order.
- Value checks of the loader other than unknown keys (types, bounds, required keys, admin and integration rules): messages without effect on the merged values.
- Producer reconnect, `withRetry`, LogLevel timers, circuit breaker wrappers, response cache: smaller or library-bound machines.
- Pruning inside `setNx` is one atomic step with the insert, as the single statement is.
- TaskEventsConsumer.TaskEventsConsumer.Handle: one call at a time; calls that take turns at their awaits are the machine of `QueueDepth`.
- UnitOfWork.RunInTransaction: the callback form of a guarded query is not modelled apart from the promise form; both refuse and translate alike.
- TaskRepository.SqlTaskRepository.Update: created_at and updated_at are not modelled.
- UnknownKeys.ReportedIffNotRead: for keys without dots that are not empty; for all others `MissedExactly`.
- MigrateFleet.RecordedInListOrder: requires that files are only added at the end; for all other files `MigrationOrder.OrderExactly`.
- RetryLoop.BoundsHoldIfAtFirst: requires a floor of at least 1 and a factor that shrinks; for all configurations `LimitRuns.BoundsHoldExactly`.
