# Chicory, verified

A Dafny model of Chicory's task life cycle and of the parts it rests on: the worker, the Redis broker
with its delayed-task mover, retry policies and the task context, the RabbitMQ dead-letter scans and
reconnect loop, and the two result stores. `dafny verify dfyconfig.toml` checks everything.

## What is modelled

**The protocol** (`Protocol.dfy`, over `RedisServer.dfy`). One queue as the Redis server keeps it (a
stream with a group cursor, a pending list, a sorted set of delayed messages, a dead-letter stream), one
result store, a clock, and any number of workers. A worker's handling of one envelope is a *flight* with
a program counter at every `await` of `_process_envelope`, `_execute_task`,
`_handle_exception_with_policy`, `_handle_retry`, `_move_to_dlq` and `_finalize_failure`. Every awaited
call may succeed, fail without effect, take effect and be reported as failed, or take effect while the
envelope is cancelled; every flight may be cancelled at every counter, and a crash is the cancellation of
all flights of a worker. Clients, movers, claims by `XAUTOCLAIM`, dead-letter replays, cleanup passes and
the clock interleave freely with all of it. `Reachable(c, s)` says that some finite run of any length
leads to `s`; the main theorems hold of every reachable state, for all task tables, policies and settings.

The theorems that depend on settings come as equivalences, so that the conditions are known to be the
weakest ones:

- **No task is lost** (`NoLoss`, `Exactness`). With an at-least-once broker, no published task ever
  disappears, in either of two senses, *if and only if* every task is at-least-once, a consumer that a
  cleanup pass has once found idle never reads again, not even after it was deleted, and

  - for "its outcome is recorded, or the broker holds it": there is a result store;
  - for "its body has returned, or the broker holds it": dead letters are on and the dead-letter call is
    not refused.

  The broker holds a task that is delayed, undelivered, pending or dead-lettered. The invariant orders
  stream entries by position and not by retry count, because a replay may start again from zero.
- **No attempt is executed twice** (`AtMostOnce`): exactly when the broker is in at-most-once mode and
  dead letters, if there are any, are not replayed.
- **Work drains** (`Draining`): in a run without new publishes, claims and replays, however much time
  passes between its steps, there are no more working steps (promotions, deliveries, calls, decisions,
  cancellations) than a number computed from the state it starts in, even when calls fail. A task
  published while there is no other work takes at most 15 of them for its first attempt and 15 for each
  retry, delays included. And from every reachable state some such run ends with no work left
  (`WorkGetsDone`).
- **Delivered entries** (`DeliveredEntries`): an entry handed out is not claimed again before its idle time
  is over, and one that is settled is settled for good. At least once, every delivered entry is pending or its task
  does not depend on it, so a cancelled envelope loses nothing; at most once, every delivered entry is
  pending for ever, exactly if idle consumers stay away.
- **What becomes of an envelope** (`Fates`): at which points of the worker's code its way comes by, and how
  it is counted in the end, exactly, as conditions on the task, its policy's lists and budget, and the answers
  of the calls. So without trouble a task is retried if and only if a retry is left and its body asks for one,
  or raises an exception that the lists allow.
- **Retries** (`Retries`): what does not want a retry is never retried in any run. A retry built at time t
  with a wait of d is not in the stream before t + d; one without a wait is never scheduled.
- **Verdicts** (`Verdicts`): a recorded success is one of a body that has returned, a recorded failure one of a
  task that has failed or that the worker does not know.
- **Stopping** (`Stopping`): a stop that is carried out leaves no envelope of the worker running; what was
  cancelled took one step, and its entry is pending or its task does not depend on it.
- **Retry budget, etas** (`Invariants`), **identity** (`Messages`: every message held anywhere is a retry
  chain from the published one or its reset), **concurrency and counters** (`Accounting`).

**The code against the protocol.** `RedisBroker.Broker` and `Workers.Worker` are classes with the fields
and the statements of the source. Each broker method is proved equal to one command of the server model;
the promotion script's loop is a run of single promotions. `Workers.Worker.ProcessEnvelope` is the
worker's code for one envelope. It is given all answers that its surroundings will give: how each awaited
call comes back, how the body ends, where it is cancelled (`Paths.Answers`). Between any two awaits the
rest of the system may take any steps (`Interfere`). The contract says that the run of the whole system
is continued, that the concrete broker, result store, semaphore and counters are those of the run, and
that the envelope's own steps in it are, one by one, those the answers prescribe (`Paths.Obedient`): a
cancellation only where an answer is one, a publish exactly where the retry comes to it. What the answers
prescribe is unique (`Paths.AnswersDecide`). A body that swaps two calls, skips one or gives up takes a
step that is not prescribed. The RabbitMQ scans are given the server's answers in the same way.

**The rest.** `Policy` and `Context` (backoff arithmetic over reals, one random draw in [-1, 1] per
jitter), `Mover` (how late a delayed task can be), `Messages` (retry chains, the dead-letter round trip),
`RabbitDlq` (scan loops whose every call may fail or be the last of the process), `Reconnect`,
`Backends` and `Heartbeats` (Redis and SQL against each other).

## Where the code departs from its documentation or its intent

The model follows the code.

- In at-most-once mode `docs/user-guide/brokers/redis.md:240-244` has the worker call `XACK` at once.
  The broker's `ack` does nothing in that mode (`src/chicory/broker/redis.py:346-353`), so entries stay
  pending for ever, exactly if idle consumers stay away (`NeverSettledExactly`); then a consumer that was
  ever given one is never cleaned up (`ReadersAreNeverCleanedUp`). The at-most-once theorem holds because
  nothing is claimed, not because of acknowledgements.
- Retries and replays with a reset build a new message and drop `priority` (`ChainKeepsIdentity`).
- A worker that fails to dead-letter a message acknowledges it all the same
  (`src/chicory/worker.py:619-624`): what remains is the recorded failure (`DroppedFailureLoses`). This is
  why the strict notion of loss needs a dead-letter call that is not refused.
- `stop` does nothing on a worker whose consume loop has failed, as that loop has reset `_running`
  (`src/chicory/worker.py:136-137,371-376`): its envelopes run on, neither waited for nor cancelled. If the
  loop fails while `stop` waits for it, the exception ends `stop` with the same effect (`Stop`).
- RabbitMQ's replay means to answer no after an error. It does so exactly if there is one error only, the
  calls of its own exception handler included, and no scanned message had been requeued before the error.
  Otherwise it asks to requeue that message again, which the client library refuses, or a call of the
  handler fails, and it raises (`ReplayFromDlq`; `RaisesInsteadOfAnswering` and `RaisesOnLostConnection`
  for inputs).
- A RabbitMQ deletion that fails after the match was acknowledged answers no, or raises by the same rule,
  though the match is gone (`DeleteFromDlq`, and `AnswersNoThoughGone` for an input).
- A RabbitMQ reject that takes effect and is reported as failed makes a second dead letter
  (`Handover.MoveToDlq`, and `BuriedTwice` for the input).
- The reconnect loop's first wait after a success is the base even when that exceeds the maximum
  (`CappedForm`), and after an error while consuming the next setup failure waits twice the base, capped
  (`SetupAfterConsuming`).
- The listing of active workers reads the index before the keys. A worker whose first beat comes between
  is missed by that listing (`ListingInTwoSteps`).
- The Redis cleanup of the worker index asks for a key and drops the name in two commands. A beat in
  between makes a living worker invisible (`LateDropExactly`); the database has no such gap
  (`DatabaseListsTheLiving`).

## Model

| member | source | states |
|---|---|---|
| NoLoss.NoTaskLost | src/chicory/worker.py:396-461 | in every reachable state every published task is settled or held by the broker, if the settings protect it |
| NoLoss.CoveredKept | src/chicory/worker.py:554-589 | the order of effects at each program counter (result before ack, publish before ack, dead letter with ack) is an inductive invariant of all steps |
| Exactness.NoTaskLostExactly | src/chicory/worker.py:603-674 | no reachable state has lost a task if and only if the settings protect it, for both notions of loss |
| Exactness.EarlyAckLoses | src/chicory/worker.py:416-417 | any at-most-once task on an at-least-once broker can be lost |
| Exactness.NoBackendLoses | src/chicory/worker.py:626-630 | without a result store a finished task leaves no trace |
| Exactness.DroppedFailureLoses | src/chicory/worker.py:605-624 | a failed task is dropped when dead letters are off or the dead-letter call is refused |
| Exactness.LateCleanupLoses | src/chicory/broker/redis.py:658-669 | a consumer that reads after a cleanup pass found it idle loses what it read |
| AtMostOnce.NoAttemptTwice | src/chicory/worker.py:415-461 | at most once: no pair of id and retry count enters the execution block twice, whatever the interleaving, failures and crashes |
| AtMostOnce.ExecutionsBounded | src/chicory/worker.py:529-537 | at most once: a task is executed at most max_retries + 1 times over a whole run |
| AtMostOnce.NoAttemptTwiceExactly | src/chicory/broker/redis.py:297-304 | executions never repeat if and only if the broker is at-most-once and dead letters, if any, are not replayed |
| AtMostOnce.ClaimRepeats | src/chicory/broker/redis.py:241-278 | with claims, an attempt can be executed by two workers at once |
| AtMostOnce.ReplayRepeats | src/chicory/broker/redis.py:521-539 | a replay without reset executes the same attempt again |
| Invariants.RetryBudget | src/chicory/worker.py:529-537 | no message anywhere, in any reachable state, has more retries than its task allows |
| Invariants.IdentityKept | src/chicory/worker.py:565-578 | every message anywhere carries the payload of the published task of its id, and has a first failure time, in the past, exactly if it was retried |
| Invariants.NeverEarly | src/chicory/broker/redis.py:134-155 | every stream entry was appended at or after its eta, so nothing is delivered early |
| Invariants.ShapeKept | src/chicory/broker/redis.py:306-334 | every step keeps: only delivered entries are pending, flights carry the message of their entry, streams only grow |
| Invariants.MailKept | src/chicory/worker.py:565-589 | every step keeps budget, payload and due times of all stored messages, and the message a flight is about to publish was built from the flight's own by one retry |
| Accounting.ConcurrencyAndAccounting | src/chicory/worker.py:396-461 | at most `concurrency` envelopes are past the semaphore, and envelopes that entered the try block are running, processed, failed or cancelled, each counted once |
| Accounting.BooksKept | src/chicory/worker.py:427-455 | every step keeps semaphore and counters equal to counts over all flights |
| Accounting.NoDeadlock | src/chicory/worker.py:360-396 | while there is work, some step moves it forward, at once or when the clock reaches the next eta |
| Accounting.StopCancels | src/chicory/worker.py:180-187 | a worker's remaining envelopes can be cancelled in any reachable state: then none is running, and the broker and the result store are as they were |
| DeliveredEntries.PendingOrCovered | src/chicory/worker.py:587-589 | under the protecting settings, in every reachable state, every delivered entry is pending, or its task is settled or held beyond that entry |
| DeliveredEntries.EnvelopeIsCovered | src/chicory/worker.py:180-187 | so for every envelope, cancelled at any await or not: its entry is pending or its task is covered |
| DeliveredEntries.NotClaimedEarly | src/chicory/broker/redis.py:241-334 | an entry delivered or claimed belongs to its receiver, and in no run is it claimed again, by anybody, before it has been pending for the idle time; from then on it may be |
| DeliveredEntries.SettledForGood | src/chicory/broker/redis.py:346-413 | at least once, an ack, nack or dead-letter call that takes effect ends the pending state of its entry for all later states |
| DeliveredEntries.StoppedWorkerLosesNothing | src/chicory/worker.py:128-191 | once a worker's envelopes are over it has all permits and none running, and its cancelled ones are pending or covered then and in every later state |
| Stopping.Worker.Stop | src/chicory/worker.py:128-191 | for all that happens during its waits: ignored if the worker is not running, failed with the consume loop, its tasks left alone in both cases; otherwise no envelope of the worker is left, and each that the wait has left took exactly one more step, its cancellation |
| Stopping.Worker.StoppedLosesNothing | src/chicory/worker.py:168-191 | a worker left without tasks has all permits, and every envelope it ever had is pending or covered, then and in every later state of any run |
| Stopping.Worker.Consumed | src/chicory/worker.py:360-370 | an envelope that arrives becomes a task of a running worker and is dropped by one that is to stop, its entry staying pending |
| Stopping.Worker.CancelAll | src/chicory/worker.py:176-187 | every task left ends by its cancellation, which may still take effect at an awaited call, and by nothing else, in any order and whatever others do |
| Stopping.CancellationEnds | src/chicory/worker.py:180-187 | a cancellation ends the envelope, as cancelled if its body had begun; broker and records change exactly if it was waiting for a call that took effect all the same |
| Stopping.NoneEscapes | src/chicory/worker.py:364-370 | in a run in which the worker drops what it gets, all envelopes it has got since are over |
| DeliveredEntries.NeverSettledExactly | src/chicory/broker/redis.py:346-353 | at most once: every delivered entry is pending in every reachable state if and only if idle consumers stay away |
| DeliveredEntries.ReadersAreNeverCleanedUp | src/chicory/broker/redis.py:658-663 | at most once: a consumer that was ever given an entry is never found or deleted by a cleanup pass |
| DeliveredEntries.ReadersAreNotIdle | src/chicory/broker/redis.py:658-663 | a consumer that reads, even in vain, is not found idle by any cleanup pass within the stale time |
| DeliveredEntries.CleanupLosesNothing | src/chicory/broker/redis.py:658-669 | in every reachable state of a system in which consumers found idle never read again, the deletion of one changes nothing |
| Draining.StepDrains | src/chicory/worker.py:529-589 | every promotion, delivery, call, decision or cancellation lowers the worth of the state, a retry included |
| Draining.DrainingIsFinite | src/chicory/worker.py:554-589 | in a run without new work, time passing freely, the working steps and the worth left after them do not exceed the worth before |
| Draining.DrainingTerminates | src/chicory/broker/redis.py:157-178 | from every reachable state, the working steps of such runs are bounded by a number known in advance |
| Draining.OneTaskBound | src/chicory/worker.py:396-461 | a task published while there is no other work takes at most 15 * (max_retries + 1) working steps, its delays included |
| Draining.WorkGetsDone | src/chicory/worker.py:360-396 | from every reachable state with a permit and a reader, a run of progress leads to nothing delayed, undelivered or in a worker |
| Workers.Worker.constructor | src/chicory/worker.py:65-82 | a worker joining a reachable system has all permits and zero counters, and its state is the protocol's |
| Workers.Worker.ProcessEnvelope | src/chicory/worker.py:381-461 | the envelope's code continues the system's run; its own steps are exactly those its answers prescribe, to the end; it comes by exactly the points that are due and is counted accordingly; its permit is back |
| Workers.Worker.WithSemaphore | src/chicory/worker.py:396-397 | the wait ends with a permit, with the prescribed cancellation, or starved of permits; a permit taken is given back |
| Workers.Worker.Admitted | src/chicory/worker.py:397-417 | inside the semaphore: unknown task, STARTED, early ack, execution, every step as prescribed |
| Workers.Worker.TryExecute | src/chicory/worker.py:419-461 | the exception arms count and continue as prescribed |
| Workers.Worker.StoreAndAck | src/chicory/worker.py:420-427 | result before ack, each with its own answer; an exception of either is a failed envelope about to consult the retry policy |
| Workers.Worker.ExecuteTask | src/chicory/worker.py:463-504 | the outcome is the body's, passed through the context's retry with the task's policy, or a cancellation |
| Workers.Worker.HandleExceptionWithPolicy | src/chicory/worker.py:506-552 | from the exception on, the prescribed steps: failure if not retryable or out of budget, otherwise a retry after the policy's delay |
| Workers.Worker.HandleRetry | src/chicory/worker.py:554-578 | the message built is the next link at the time it is built, due after its wait, and the prescribed steps follow |
| Workers.Worker.Reschedule | src/chicory/worker.py:580-589 | RETRY state, then publish, then ack, each taken as prescribed, and ended where an answer ends it |
| Workers.Worker.MoveToDlq | src/chicory/worker.py:603-624 | dead letter or nack, and after an exception the finalizer, as prescribed |
| Workers.Worker.FinalizeFailure | src/chicory/worker.py:658-674 | the prescribed nack without requeue, whose own exception is final only when it already is the finalizer |
| Workers.Worker.StoreResult | src/chicory/worker.py:626-656 | with a store the task's result is the given verdict unless the answer is a failure or a cancellation without effect, and the run records the same |
| Workers.Worker.Publish | src/chicory/worker.py:584-585 | the next message is published with the clock read before the wait, unless its answer says otherwise |
| Paths.AnswersDecide | src/chicory/worker.py:396-461 | two finished ways of an envelope with the same answers are the same, step by step, but for clock readings |
| Paths.OwnStepsMove | src/chicory/worker.py:360-369 | in any run a flight is where its own steps have taken it: nobody else moves it |
| Fates.ComesByExactly | src/chicory/worker.py:396-674 | for all answers: an envelope comes by a point of the code if and only if the conditions of that point hold, each told by the task, its policy's lists and budget, and the answers |
| Fates.CountedExactly | src/chicory/worker.py:419-461 | it counts as processed, failed or neither exactly as these conditions say |
| Fates.RetriedExactly | src/chicory/worker.py:506-552 | if all calls answer, a known task is republished if and only if a retry is left and its body asked for one or raised what the lists allow; it is dead-lettered if and only if it failed otherwise |
| Retries.NeverRetried | src/chicory/types.py:108-127 | after a failure that is ignored, not listed, out of budget, a validation error or a request beyond the budget, no run whatsoever builds or publishes a retry of that envelope |
| Retries.AskedWait | src/chicory/context.py:22-64 | a request leads to a retry exactly if it is to be granted; the wait is as asked, or within a quarter of the capped delay of the next attempt |
| Retries.BuiltRetry | src/chicory/worker.py:545-578 | the next message is due at the time it is built plus its wait, or at once if that is none or 0; a policy's wait is within a quarter of the capped delay of the attempt; the error told is the exception's |
| Retries.RetryIsNeverEarly | src/chicory/worker.py:571-585 | over any run, a retry enters the stream no earlier than its wait after it was built, and one without a wait is never scheduled |
| Retries.RetryIsSent | src/chicory/broker/redis.py:134-155 | published with a time to come it is scheduled and may be promoted from that time on, otherwise it is the next stream entry |
| Verdicts.RecordsAreTrue | src/chicory/worker.py:626-656 | in every reachable state a recorded success is a body's that returned, and a recorded failure is a task's with a failed attempt or an unknown name |
| Verdicts.OutcomeIsRecorded | src/chicory/worker.py:626-656 | with a store, the call for a success records a success, the one for a failure a failure, and no other call changes a record |
| RedisBroker.Broker.Publish | src/chicory/broker/redis.py:134-155 | a message goes to the sorted set exactly if its eta lies ahead of the publisher's clock, else to the end of the stream |
| RedisBroker.Broker.MoveReadyDelayed | src/chicory/broker/redis.py:30-42 | the script removes exactly the members with 0 <= score <= now, appends them in score order and returns their number |
| RedisBroker.PromoteAllMoves | src/chicory/broker/redis.py:36-40 | the loop of single promotions equals the bulk move, for any batch |
| RedisBroker.BatchReachable | src/chicory/broker/redis.py:157-178 | a script run is a run of the protocol |
| RedisBroker.PromotedOnce | src/chicory/broker/redis.py:24-42 | with any number of movers and of equal inserts: promotions never exceed inserts, whatever was inserted is scheduled or promoted, and a message inserted once is promoted once at most |
| RedisBroker.Broker.ClaimStaleMessages | src/chicory/broker/redis.py:241-278 | the first `count` stale entries of those the server looks at, each idle for long enough and with its own message, are the claimer's from now on; every other entry is pending as before |
| RedisBroker.ClaimedAreTaken | src/chicory/broker/redis.py:249-258 | after a claim, each claimed entry is pending for the claimer since then, and all others for whom they were, since when they were |
| RedisBroker.Broker.Ack | src/chicory/broker/redis.py:346-353 | the entry stops being pending at least once; at most once nothing happens |
| RedisBroker.Broker.Nack | src/chicory/broker/redis.py:355-372 | requeue leaves the entry pending; otherwise it is an ack |
| RedisBroker.Broker.MoveToDlq | src/chicory/broker/redis.py:374-413 | the dead letter is added and the entry acknowledged in one step |
| RedisBroker.Broker.ReplayFromDlq | src/chicory/broker/redis.py:474-539 | read, then write, whatever others make of the server in between: yes exactly if the letter was there when read; then what was read, reset if asked, is appended to what the others have left and the letter deleted; nothing else changes |
| RedisBroker.Broker.CleanupStaleClients | src/chicory/broker/redis.py:644-671 | whatever others make of the server before each deletion: exactly the consumers that had nothing pending and were last seen more than `stale_seconds` before are counted and deleted, and the contents are those which these deletions leave |
| RedisBroker.CleanupLosesNothing | src/chicory/broker/redis.py:644-671 | if the consumers listed as idle get no entry from the others, such a pass leaves exactly what the others would have left without the deletions |
| RedisBroker.DeletedHasNothing | src/chicory/broker/redis.py:664-669 | right after its deletion a consumer has nothing pending, whatever others have done in between |
| RedisServer.DelConsumerSafe | src/chicory/broker/redis.py:660-669 | deleting a consumer loses its own pending entries and no others, so nothing at all if and only if it has none |
| Messages.ChainKeepsIdentity | src/chicory/worker.py:565-578 | along any retry chain the payload is constant, retries count the links and the first failure time is fixed by the first |
| Messages.EveryMessageIsChain | src/chicory/worker.py:565-578 | in every reachable state every message held anywhere is a retry chain from the published task or from its reset |
| Messages.NextMessageIsLink | src/chicory/worker.py:565-585 | the message about to be published is the next link: one retry more, same payload, first failure time carried over |
| Messages.DeadLetterRoundTrip | src/chicory/broker/redis.py:374-539 | a worker dead-letters its message, any run follows, the letter is replayed: the message comes back equal without reset and with cleared history with reset, and all else stays |
| Messages.LetterWaits | src/chicory/broker/redis.py:398-413 | over any run a dead letter stays unchanged until it is replayed |
| Messages.LetterMade | src/chicory/broker/redis.py:398-413 | the dead-letter call adds exactly this letter, with the message, the time and the entry, and at least once the entry stops being pending with it |
| Messages.ConcurrentReplaysDuplicate | src/chicory/broker/redis.py:486-539 | two operators read a letter and replay it later, anything happening before and between: both succeed, and the message stands twice in the stream |
| Context.RetryRequest | src/chicory/context.py:22-64 | with or without a policy: refused for budget exactly when no retry remains, turned down exactly for a cause the lists exclude; a granted wait is as asked or within a quarter of the capped delay of the next attempt |
| Context.OnlyRequestsAndExceptions | src/chicory/worker.py:429-461 | only a request within the budget is a retry, only a raised exception or a named cause goes to the policy, and a validation error or a return never does |
| Policy.ListsDecide | src/chicory/types.py:108-127 | an exception is retried if and only if it is not in the list to ignore and it is in the list to retry, if there is one |
| Policy.DelayBounds | src/chicory/types.py:85-106 | every delay lies within a quarter of the capped delay and in [0, 1.25 max_delay] |
| Policy.CapIsReached | src/chicory/types.py:88-106 | delays grow with the attempts up to the cap and then stay there; without jitter the delay is exactly the capped one |
| Policy.JitteredExponentialGrows | src/chicory/types.py:93-104 | every jittered delay of an attempt is below every one of the next if and only if the uncapped delay is positive and below 0.6 max_delay |
| Policy.TotalWaitBounded | src/chicory/worker.py:545-549 | N policy-driven retries wait at most 1.25 N max_delay in total |
| Policy.TotalWaitClosedForm | src/chicory/types.py:88-99 | without jitter or cap the total is d N, d N (N + 1) / 2 or d (2^N - 1) |
| Mover.DelayedMoverLoop | src/chicory/broker/redis.py:197-239 | given all that publishers insert and when: after any number of iterations the sorted set holds exactly what was inserted and is not due, the stream has gained exactly the due messages among the entries of others, and each was promoted in [eta, eta + max(min_sleep, max_sleep)], by eta + min_sleep if it was in the set at the iteration before; the clock gets ahead by at least the shorter sleep each time |
| Mover.DueIsPunctual | src/chicory/broker/redis.py:213-231 | in every run of the loop, a message that has become due was promoted by the first iteration at or after its eta, within those bounds |
| Mover.PromotedAtMostOnce | src/chicory/broker/redis.py:36-40 | no message is promoted by two iterations or twice by one, before its eta, or without having been inserted before |
| Mover.ChooseSleep | src/chicory/broker/redis.py:215-231 | the sleep ends exactly when the next message is due, unless that is too near or too far, and it is never late for a waiting task |
| Mover.Iterate | src/chicory/broker/redis.py:213-231 | an iteration moves exactly what is inserted and due by now to the stream, leaves exactly the rest, and chooses a sleep that is late for none of it |
| Mover.NextDelayedScore | src/chicory/broker/redis.py:180-195 | the smallest score, or nothing exactly when nothing is delayed |
| RabbitDlq.FindIsFirst | src/chicory/broker/rabbitmq.py:628-648 | the scan's answer is the first message of the id among the first max_dlq_scan_limit, or nothing if there is none |
| RabbitDlq.Channel.Scan | src/chicory/broker/rabbitmq.py:628-648 | the loop finds that message with exactly the calls needed, keeps the others aside in order, and loses none even when a call fails |
| RabbitDlq.Channel.ReplayFromDlq | src/chicory/broker/rabbitmq.py:610-701 | for all answers of the server: how it ends, whether the match was published and deleted, and that no other dead letter leaves; yes exactly if a decodable match is in reach and all calls answer |
| RabbitDlq.Channel.DeleteFromDlq | src/chicory/broker/rabbitmq.py:703-761 | for all answers of the server: how it ends, whether the match is gone, and that no other dead letter leaves; if all calls answer, yes exactly if a match is in reach |
| RabbitDlq.Channel.PublishThenAck | src/chicory/broker/rabbitmq.py:664-690 | the match is published by the first call and deleted by the second, if the first has answered; if it cannot be decoded nothing is called |
| RabbitDlq.Channel.RequeueAll | src/chicory/broker/rabbitmq.py:658-659 | the messages set aside are settled one call each, up to the first that fails; a list whose first message is settled already is refused without a call |
| RabbitDlq.Channel.Recover | src/chicory/broker/rabbitmq.py:692-701 | the error path loses nothing, and answers no exactly if all its calls answer and the requeueing had not begun before; otherwise it raises or the process has died |
| RabbitDlq.Channel.RaisesInsteadOfAnswering | src/chicory/broker/rabbitmq.py:658-701 | at two letters, the second to be replayed, and a publish that fails, the replay contract allows no ending but an exception |
| RabbitDlq.Channel.RaisesOnLostConnection | src/chicory/broker/rabbitmq.py:685-698 | at a single letter and a connection lost from the publish on, the replay contract allows no ending but an exception |
| RabbitDlq.Channel.AnswersNoThoughGone | src/chicory/broker/rabbitmq.py:735-761 | at two letters, the second to be deleted, and a requeue of the first that fails, the deletion contract forces the answer no and the deletion of the second |
| RabbitDlq.Handover.MoveToDlq | src/chicory/broker/rabbitmq.py:470-496 | for every answer of the server: the ending, and which dead letters are made; the message is always still in the main queue or among them |
| RabbitDlq.Handover.ManualMove | src/chicory/broker/rabbitmq.py:498-543 | the manual move publishes the dead letter before it acknowledges, and raises at the first call that fails |
| RabbitDlq.Handover.BuriedIsFound | src/chicory/broker/rabbitmq.py:498-648 | every dead letter that is made is found by a scan for the message's id that reaches it, and decodes to the message |
| RabbitDlq.Handover.BuriedTwice | src/chicory/broker/rabbitmq.py:483-496 | a reject that took effect and is reported as failed: the contract of the move forces two dead letters of one message |
| Reconnect.Consume | src/chicory/broker/rabbitmq.py:393-446 | for every sequence of passes, failing in setup, while consuming or not at all, the k-th wait of a streak is the base for k = 1 and min(base 2^(k-1), max) after |
| Reconnect.StreakCounts | src/chicory/broker/rabbitmq.py:398-401 | a streak counts the consecutive setup failures since the last pass whose setup succeeded, or since the start, an error while consuming being its first |
| Reconnect.SetupAfterConsuming | src/chicory/broker/rabbitmq.py:437-446 | an error while consuming waits the base, and a setup failure right after it min(2 base, max) |
| Reconnect.CappedForm | src/chicory/broker/rabbitmq.py:441-446 | all waits are min(base 2^(k-1), max) if and only if base <= max |
| Backends.StoresAgreeExactly | src/chicory/result.py:49-94 | both stores give AsyncResult the same answers after every prefix of a history if and only if no terminal state is ever set on a task without a row |
| Backends.RunsMatched | src/chicory/backend/database.py:173-241 | under that condition a Redis result is the row's, and rows without one hold no outcome |
| Backends.OutcomeSurvivesStates | src/chicory/backend/redis.py:52-60 | in both stores a state update cannot hide a final outcome |
| Backends.ReadyUntilDeleted | src/chicory/result.py:87-94 | once ready, a task stays ready in both stores until it is deleted |
| Backends.ReadyMeansDecided | src/chicory/result.py:49-104 | a task is ready if and only if `get` would give its value or raise its failure |
| Backends.ReadYourWrites | src/chicory/backend/redis.py:62-87 | in both stores a stored result is what is read, through any operations but another store or a deletion of it |
| Backends.NothingStored | src/chicory/backend/database.py:173-245 | without a result stored since the start or the deletion, Redis answers none and the database no value and no error |
| Backends.StatesAlwaysAgree | src/chicory/backend/database.py:173-241 | the state key and the state column hold the last state set or stored, so the stores agree in it about every history |
| Backends.RedisBackend.StoreResult | src/chicory/backend/redis.py:62-77 | the two keys after any history are those of the history's run |
| Backends.DatabaseBackend.SetState | src/chicory/backend/database.py:173-199 | the row's state changes and its JSON copy does not; a missing row is made |
| Backends.DatabaseBackend.StoreResult | src/chicory/backend/database.py:201-223 | the rows after any history are those of the history's run |
| Backends.Get | src/chicory/result.py:29-69 | polling ends at the first final or late answer, with the value of a success, the text of a failure, or a timeout; a final answer wins, and there is at least one poll |
| Heartbeats.StoresListAlikeExactly | src/chicory/backend/redis.py:128-177 | both stores list the same workers at all times if and only if no worker comes back to life between a cleanup pass's question and its answer |
| Heartbeats.RedisListsTheLiving | src/chicory/backend/redis.py:128-153 | without such late drops the Redis listing is the plain table of last beats that still live |
| Heartbeats.DatabaseListsTheLiving | src/chicory/backend/database.py:287-315 | the database listing always is that table |
| Heartbeats.LateDropExactly | src/chicory/backend/redis.py:163-175 | a pass drops a living worker if and only if it was gone when asked about, has sent a beat since, and its last beat still lives |
| Heartbeats.PurgedExactly | src/chicory/backend/database.py:301-315 | a purge removes a row if and only if the worker's last beat has been over for the stale time |
| Heartbeats.LivesExactly | src/chicory/backend/database.py:247-299 | a worker is alive exactly until its last beat's time to live is over |
| Heartbeats.RedisHeartbeats.GetActiveWorkers | src/chicory/backend/redis.py:128-153 | index first, keys later, whatever others make of both in between: the names read first whose keys are there later; the call itself changes nothing |
| Heartbeats.ListingInTwoSteps | src/chicory/backend/redis.py:133-153 | without late drops, the listing is true and misses exactly the living workers whose names were not in the index at the first read, who have sent a beat since |
| Heartbeats.RedisHeartbeats.CleanupStaleClients | src/chicory/backend/redis.py:155-177 | an undisturbed pass removes and counts exactly the workers without a key, and no listing changes |
| Heartbeats.DatabaseHeartbeats.CleanupStaleClients | src/chicory/backend/database.py:301-315 | removes and counts exactly the rows expired for long enough, and no listing changes |

## Assumptions of the protocol

They are fields of `Config` or guards of `Enabled`: one monotone clock for all processes, and a publisher
or mover reads it no later than its command is executed; task ids are fresh; clients publish messages
with zero retries, as `Task.delay` does (`src/chicory/task.py:132-168`); a consumer the cleanup has found
idle may or may not read again (`idleStayAway` says that it never does; being found idle is not forgotten,
so that a worker under the same name would count as the same consumer); the dead-letter call may or may not be refused
(`dlqRefuses`); operators may or may not replay dead letters (`replays`). An awaited call's answer reaches
the worker at the instant of its effect. A retry reads the clock twice in the source and once here.

## Left out

- Network, pools, queue declaration, health checks, configuration, validation of inputs, logging, the CLI
  and the pickle encoding (a message is its own encoding).
- Stream and dead-letter trimming, purges, result expiry and the cleanup of old results: they delete on
  purpose. `delete_from_dlq` of the Redis broker is a deletion as well.
- Queues other than the default one: retries and acks use the default.
- The order among delayed messages of equal score, which Redis takes from the bytes (`ReadyOrder` leaves
  it open).
- Metadata of dead letters beside the message and the time: error text, retry count, names.
- RedisBroker.Broker.ClaimStaleMessages: how far a server pass looks is a parameter, so eventual
  claiming is not stated.
- The generator form of `consume` and its ten-second schedule of claims: reading and claiming are steps
  that may happen at any time.
- RedisBroker.Broker.CleanupStaleClients: idle time counts from the last read, and last reads of other
  consumers during a pass are not recorded. What a consumer loses that does not stay away is stated in the
  protocol (`Exactness.LateCleanupLoses`).
- Stopping.Worker.Stop: the heartbeat and cleanup tasks, the last heartbeat and the executor's shutdown;
  user code that catches its cancellation and goes on. Timeouts are not measured: a wait ends at any time.
- Workers.Worker.ProcessEnvelope: a wait for the semaphore that never ends is a wait that ends in
  cancellation. `Interfere` has a contract only to rely on: anything else may happen, this flight stays.
- User code that raises `RetryError` by itself: the worker does not check the budget for it.
- Exceptions of the result store or of `ack` are ordinary ones, never one of Chicory's own classes.
- Mover.DelayedMoverLoop: iterations succeed and take no time, as its latency has no bound otherwise; one
  mover, since a second one only promotes earlier. Failing iterations sleep for `max_sleep`.
- RabbitMQ's delayed queues, prefetching and `get_dlq_messages`: they depend on the server's ordering. A
  replayed message with an eta still to come counts as published to the main queue.
- RabbitDlq.Channel.ReplayFromDlq: after a failed call, messages may stay unacknowledged; the server
  returns them when the channel closes, which is not modelled.
- `AsyncResult.state`: the two stores differ on states that are not final. Expiry of results.
- Backends.StoresAgreeExactly: `ignore_result` tasks set SUCCESS without a result; that is the excluded
  case when the row is missing, and where a row exists neither store shows the outcome.
- NoLoss.NoTaskLost: for a task with `ignore_result`, "recorded" means that the bare state SUCCESS was set
  (`src/chicory/worker.py:632-633`), which `get_result` never shows; the option itself is not modelled.
- Heartbeats.StoresListAlikeExactly: a key is taken to be gone at the very moment of its expiry, as the
  database compares; time to live is positive and the stale timeout not negative, as the configuration
  demands.
