# A model of the skynet-style actor runtime in Dafny

The project models the parts of the runtime where most of its correctness lives and proves what they
promise:

* **The actor scheduler** (`src/skynet.cpp`, `src/skynet.h`), twice.
  `Scheduler*.dfy` is a transition system in which every atomic operation or lock section on one
  `ActorQueue` is a step of one of any number of threads (senders, killers, the spawner, workers),
  under sequential consistency; its theorems hold in every state of every interleaving.  There it is left
  open when a `try_dequeue` fails.  `SchedulerMailbox.dfy` puts the real mailbox underneath, a list of
  sub-queues (`SubQueues.dfy`) each running the ticket protocol of `ImplicitQueue.dfy`, so that every
  operation inside a `try_dequeue` is a step between the others' steps; its runs are among those of
  `Scheduler.dfy`.  "Reachable" always means reachable in such a run (`SchedulerReach.dfy`).
  `SchedulerSweeping.dfy` is the invariant about mail on a queue that is going away,
  `SchedulerStranding.dfy` says why a message can be left behind, `SchedulerGates.dfy` what the tests of a
  flag keep out once it has turned, `SchedulerCount.dfy` how long `mailbox_count` is exact, and
  `SchedulerEnd.dfy` that a released actor is destroyed in the end.
  `ActorSystem.dfy` is a class over the whole system whose methods are coarse steps (push, kill, begin,
  deliver, end, the two halves of spawn, naming the logger, reporting an error). It rests on
  `ActorQueue.dfy` (one queue), `Mailbox.dfy` (a mailbox that keeps the order of each producing thread),
  `Ledger.dfy` (every push with its cause, every message not delivered) and `ActorWorld.dfy` (the
  invariant that balances them).
  `SleepingWorkers.dfy`, `SleepingAccount.dfy` and `SleepingRace.dfy` are the epoch and sleeper-count protocol
  by which workers block, and `Dispatch.dfy` the batch sizes.
* **The mailbox underneath** (`3rdparty/concurrentqueue/concurrentqueue.h`): the ticket protocol of the
  implicit producer's dequeue (`ImplicitQueue.dfy`) and its growing circular block index
  (`BlockIndex.dfy`).
* **The Lua value serializer** (`src/lua_seri.cpp`): the format and its decoder on arbitrary bytes
  (`Seri.dfy`), its bytes written out (`SeriFormat.dfy`), round trip, self-delimitation and failure
  conditions (`SeriTheorems.dfy`), the linked list of 128-byte blocks (`WriteBuffer.dfy`), and the packing
  and unpacking procedures proved against the format (`Serializer.dfy`).
* **The cluster protocol and TCP framing** (`src/lua_cluster.cpp`, `src/lua_netpack.cpp` with the Lua code
  that drives them): packers into the fixed buffer, unpackers, append/concat (`Cluster.dfy`), their bytes
  written out (`ClusterFormat.dfy`), streaming frames (`Netpack.dfy`), interleaved requests end to end
  (`ClusterDelivery.dfy`), and responses on their way back to the caller (`ClusterResponse.dfy`).
* **Two parts of the embedded Lua compiler** (`3rdparty/lua-5.5.0`): line information and its decoder
  (`LineInfo.dfy`) and jump threading (`JumpThreading.dfy`).

`Numbers.dfy`, `Bytes.dfy` and `Counting.dfy` hold what these share.

Check everything with `dafny verify dfyconfig.toml`.

## What turned out differently

Where the code and its intent disagree the model follows the code:

* A multi-part cluster request announces its size in a packet without a message, and
  `service/clusteragent.lua:55` appends to the request's table only when there is a message (so does
  `service/clusterd.lua`).  The size is never stored, `cluster.concat` finds no number in the first slot,
  and every multi-part request is answered with "Invalid large req".  `DeliveredAsWrittenIff` proves that
  the agent as written delivers a request if and only if its message is shorter than 0x8000 bytes;
  `DeliveredOnceWhenSized` proves that with the size appended, which is what `lappend` has a branch for,
  every request is delivered exactly once.
* A push that fits one packet travels with session 0 (`WireSession`), so the receiver sees the push flag but
  not the session.
* Length fields have 32 bits, so a packed string survives if and only if it is shorter than 2^32 bytes
  (`TextRoundTripIff`).
* `on_destroy` can run while `on_message` runs: the end of a dispatch decrements `dispatch_depth_` and only
  then tests the flags (`src/skynet.cpp:633-637`), and another dispatch and a kill fit in between.
  `OverlapIff` proves that this is the only way.
* A message can be stranded in a mailbox that nobody will look at again.  Kill's unconditional store of 0
  (`src/skynet.cpp:138`) can discard the token of a sender that was let in earlier; a worker that has read
  `mailbox_count` as 0 stores 0 (622) after a complete push and a complete kill, sees the request to destroy
  and does not look again (625); and a sender let in during a failing `on_init` finds the queue never
  initialised (184).  `StrandedIff` proves that a message can be stranded if and only if the queue has been
  released, whatever the other flags.  `StrandedHasCause` proves that one of two things has then happened: a
  message was enqueued after `accepting` was cleared, or a worker stored 0 over mail on a released queue;
  `EachStrands` proves that each of them alone is enough.  The losing tickets of concurrent drains are no third
  cause: a drain's `try_dequeue` can fail over mail that nobody else is taking out if and only if a message
  came late (`OverlooksIff`).  The coarse steps exclude all of this, because there the end of a dispatch, a kill
  and a push each happen at once.
* Work can be slept through.  A `try_dequeue` that has drawn a losing ticket hides an element from others until
  it gives the ticket back (`ImplicitQueue.TestSeesTickets`).  While one worker is at that point in its last
  attempt before sleeping, another can find the global queue empty twice and block although it is not; and
  the producer of that element skips its notify when the decrement for an element already taken is still to
  come.
  `SleptThroughIff` proves that this can happen if and only if there are at least two workers and losing
  tickets are visible; with an atomic `try_dequeue`, or a single worker, it cannot.
* An actor's messages to another need not arrive in order: a mailbox keeps the order of each producing thread,
  and an actor is dispatched by different workers in turn.  `OrderKeptIff` proves that the order is kept,
  whatever others have put into the mailbox and in whatever order `try_dequeue` scans the threads' sub-queues,
  if and only if one thread enqueued them all; `TwoWorkers` is an example.  It follows the choice that
  `try_dequeue` makes, the longest of the first three sub-queues that are not empty.
* A dead logger keeps its name.  Kill clears the stored handle, but the next warning looks the name up again and
  finds the dead handle, so `LoggerOf` is the same after every `Kill`.  From then on warnings are pushed to an
  actor that refuses them, and none is printed to stderr instead (`Pushed`, `Error`).
* Packing a value that fails raises a Lua error past `free_blocks`.  `Serializer.Pack` proves that heap blocks are
  left behind if and only if an argument does not pack and more than 128 bytes were written before that;
  `LeakExample` is a string of 200 bytes followed by a function.  Likewise `unpacktrash` frees the message's
  buffer if and only if no entry of a table has nil or NaN as key (`Serializer.Unpack`), which no packed message
  has (`ListRoundTrip`) but a cut off one can (`LeftBehind`).

## Model

| member | source | states |
|---|---|---|
| `SchedulerTheorems.RunInv` | src/skynet.cpp:113-189 | every state of every interleaving of sends, kills, the spawn and workers satisfies the invariant that ties schedule state, tokens, dispatch window, depth, flags and the counter (with pending adds and subs) together |
| `SchedulerTheorems.NoLostWakeup` | src/skynet.cpp:157-189 | a live initialised queue with mail is queued or dispatching, or some thread is still before its schedule attempt |
| `SchedulerTheorems.Quiescent` | src/skynet.cpp:595-631 | when no thread is inside an operation, a live queue with mail is in the global queue exactly once and mailbox_count equals the mailbox size, whatever wrapped around before |
| `SchedulerTheorems.OneHandler` | src/skynet.cpp:541-609 | at most one worker is inside on_message |
| `SchedulerTheorems.OneToken` | src/skynet.cpp:454-474 | until kill overwrites it, the schedule state is 1 iff the queue has its one place in the global queue, and 2 iff exactly one worker is in the dispatch window |
| `SchedulerTheorems.NoHandlerAfterKill` | src/skynet.cpp:131-139 | after kill has read dispatch_depth_ as 0 no handler runs or ever starts again in any continuation |
| `SchedulerTheorems.QuietStays` | src/skynet.cpp:569-579 | that fact, once established by kill or a departing worker, is never lost |
| `SchedulerTheorems.DestroyedOnce` | src/skynet.cpp:476-481 | on_destroy is entered at most once, whichever path gets there |
| `SchedulerTheorems.OverlapOnlyFromEarlyTail` | src/skynet.cpp:633-638 | on_destroy overlaps on_message only when reached from a last decrement made before the release |
| `SchedulerEnd.DestroyedInTheEnd` | src/skynet.cpp:113-143 | when every thread is done, a released actor was destroyed exactly once and its queue has no owner; and as long as it was not destroyed, some thread is on its way to do it |
| `SchedulerGates.NobodyPasses` | src/skynet.cpp:541-638 | for each of the thirteen tests of a flag that turns only once, in push_message, kill and dispatch_queue: once the flag is against it no thread comes to the place behind it any more, in any continuation |
| `SchedulerGates.MailOnlyShrinks` | src/skynet.cpp:157-168 | once the queue does not accept and nobody stands between that test and the enqueue, the mailbox never grows again |
| `SchedulerGates.PushAfterErase` | src/skynet.cpp:157-166 | a push that begins when the queue is not registered changes neither mail nor count nor tokens nor anything else |
| `SchedulerGates.PushAfterClose` | src/skynet.cpp:159-166 | nor does one that comes to its test when the queue no longer accepts |
| `SchedulerGates.OneKill` | src/skynet.cpp:113-127 | of any number of kills at most one gets past the erasure from the shard, and none while the queue is registered |
| `SchedulerGates.BatchBounds` | src/skynet.cpp:583-609 | a dispatch takes out at most its batch: what it has taken and may still take always make up the batch |
| `SchedulerGates.CountDecides` | src/skynet.cpp:611-631 | a worker requeues the actor iff it reads a positive count, and never stores 0 otherwise |
| `SchedulerGates.TailDestroys` | src/skynet.cpp:633-638 | a worker that tests the flags after its last decrement on a released queue always destroys the actor |
| `SchedulerCount.CountIsExact` | src/skynet.cpp:486-494 | mailbox_count is off by exactly the pending changes modulo 2^64, also on a released queue, until a drain has come to its end |
| `SchedulerCount.DrainLeavesNone` | src/skynet.cpp:494 | the end of a drain leaves the count at 0 |
| `SchedulerRaces.DestroyOverlapsHandler` | src/skynet.cpp:633-637 | a reachable state with on_destroy and on_message both running |
| `SchedulerRaces.OverlapIff` | src/skynet.cpp:633-638 | an overlap of on_destroy by a given destroyer with on_message is reachable iff the destroyer is the end of a dispatch that brought the depth to 0 before the release |
| `SchedulerRaces.StrandedByStore` | src/skynet.cpp:134-140 | a run in which kill's store discards the token of a late sender |
| `SchedulerRaces.StrandedByWorker` | src/skynet.cpp:617-631 | a run in which a whole push and a whole kill fit between a worker's read of the count and its store of 0 |
| `SchedulerRaces.StrandedByFailedInit` | src/skynet.h:409-424 | runs in which a sender let in during on_init is behind the drain of the failed spawn, with and without a kill before |
| `SchedulerRaces.StrandedIff` | src/skynet.cpp:113-189 | a state with all threads done, mail left and no token is reachable iff the queue has been released, and then for every value of the other two flags |
| `SchedulerRaces.TwoDrains` | src/skynet.cpp:545-567 | a run in which two workers drain the same queue at once, the second finding it in state 2 |
| `SchedulerStranding.StrandedHasCause` | src/skynet.cpp:113-189 | in every reachable stranded state a message was enqueued after accepting was cleared, or a worker stored 0 over mail on a released queue |
| `SchedulerStranding.EachStrands` | src/skynet.cpp:113-189 | for each of the two causes a reachable stranded state in which it is the only one |
| `SchedulerStranding.OverlooksIff` | src/skynet.cpp:483-495 | a drain whose try_dequeue fails over mail while nobody else is draining is reachable iff a message was enqueued after accepting was cleared |
| `SchedulerStranding.LateOverlooked` | src/skynet.cpp:486-494 | a run in which a late message arrives in a sub-queue where the drain has already looked |
| `SchedulerMailbox.RunKept` | src/skynet.cpp:483-495 | with the ticket protocol of every sub-queue interleaved, in every state the sub-queues together hold the mail, no ticket fails while the actor accepts, later without late mail tickets fail only beyond the number of messages, and mail on a released queue is scheduled, dispatched, about to be drained or being taken out by a drain, unless a message came late or a worker stored 0 over it |
| `SchedulerMailbox.SkeletonIsRun` | 3rdparty/concurrentqueue/concurrentqueue.h:1125-1157 | a run with the real mailbox, without the steps inside try_dequeue, is a run of module Scheduler, so every theorem about those holds |
| `SchedulerMailbox.BothDrain` | src/skynet.cpp:541-579 | two threads inside try_dequeue at the same time are both draining a released queue; a worker that delivers is alone |
| `SchedulerMailbox.TakenByAnother` | src/skynet.cpp:486-494 | what is left where a drain has found nothing, none of it late, is being taken out by another drain |
| `SchedulerReach.ReachedIsReachable` | 3rdparty/concurrentqueue/concurrentqueue.h:1125-1157 | a run of the scheduler in which each dequeue is one step that finds what there is can be taken with the real mailbox |
| `SubQueues.LeftIsTaken` | 3rdparty/concurrentqueue/concurrentqueue.h:2551-2619 | without new messages, when as many tickets are drawn as there are messages and one is left, a consumer holds a winning ticket for it |
| `SubQueues.FailedBeyond` | 3rdparty/concurrentqueue/concurrentqueue.h:2555-2566 | without new messages, once a ticket has failed the test sees an empty sub-queue for good |
| `SubQueues.ConsumeCalm` | 3rdparty/concurrentqueue/concurrentqueue.h:2551-2619 | a consumer that is alone never draws a losing ticket, whatever is enqueued meanwhile |
| `SchedulerSteps.StepKeeps` | src/skynet.cpp:541-640 | every atomic step of every thread keeps the invariant, and keeps "no handler any more" |
| `SchedulerInvariant.ZeroCountIsSafe` | src/skynet.cpp:625-629 | with the queue idle, a counter read as 0 over a non-empty mailbox means a sender still owes its increment |
| `SleepingWorkers.RunInv` | src/skynet.cpp:504-539 | with an atomic try_dequeue or one worker, count, sleeper count and epoch agree with the threads in every state, and a fully parked pool with work has a wakeup on its way |
| `SleepingWorkers.WorkIsNeverSleptThrough` | src/skynet.cpp:465-474 | then it never happens that the global queue is non-empty, all workers are blocked and every producer is done, although notifies are skipped |
| `SleepingAccount.NothingLost` | src/skynet.cpp:504-539 | in every run, with losing tickets or not, the queues put into the global queue are those still in it, those in the hand of one worker and those dispatched, so none is lost and none dispatched twice |
| `SleepingAccount.CountersHold` | src/skynet.cpp:465-533 | in every run global_queue_count_ and sleeping_workers_ are off by exactly the pending changes |
| `SleepingRace.WorkSleptThrough` | src/skynet.cpp:508-534 | for any number of workers from two on, a run with losing tickets that ends in such a state |
| `SleepingRace.SleptThroughIff` | src/skynet.cpp:465-539 | such a state is reachable iff there are at least two workers and others see losing tickets |
| `Dispatch.WeightShares` | src/skynet.cpp:355-362 | of n workers a quarter each get the weights -1, 0 and 1 and the rest gets 2; all get 0 when there are fewer than four |
| `Dispatch.WeightsInOrder` | src/skynet.cpp:355-362 | earlier workers have lower weights, from -1 to 2 |
| `Dispatch.Batch` | src/skynet.cpp:584-593 | one message for -1, all for 0, the floor of a half or a quarter for 1 and 2, but at least one |
| `Dispatch.TurnsOneByOne` | src/skynet.cpp:586-587 | weight -1 empties n messages in n turns |
| `Dispatch.TurnsByHalves` | src/skynet.cpp:588-593 | weight 0 needs one turn, weight 1 exactly ceil(log2 n) + 1 turns |
| `Dispatch.TurnsByQuarters` | src/skynet.cpp:590-593 | weight 2 takes between one and three times the turns of weight 1 |
| `Dispatch.TurnsMonotone` | src/skynet.cpp:584-593 | a larger backlog never takes fewer turns |
| `Mailbox.LegalIff` | src/skynet.cpp:599-600 | a mailbox can be emptied, taking each time the oldest item of some producing thread, in exactly the orders that keep the order of each thread; this is the contract of the queue per producer, and which of these orders occurs is decided by TryDequeue |
| `Mailbox.TryDequeue` | 3rdparty/concurrentqueue/concurrentqueue.h:1125-1157 | without other consumers it fails iff the mailbox is empty, and else yields the oldest item of a sub-queue with fewer than three that are not empty in front of it in the list; of all such it is strictly longer than those before it and at least as long as those behind it |
| `Mailbox.ServedLegally` | 3rdparty/concurrentqueue/concurrentqueue.h:1125-1157 | every order that these choices produce keeps each thread's |
| `Mailbox.OrderKeptIff` | 3rdparty/concurrentqueue/concurrentqueue.h:1125-1157 | an actor's messages keep their order under try_dequeue's choices, for every order of the sub-queues and whatever else is in the mailbox, iff one thread enqueued them all |
| `Mailbox.TwoWorkers` | 3rdparty/concurrentqueue/concurrentqueue.h:1125-1157 | two messages of one actor enqueued by two workers are delivered in reverse when the second sub-queue comes first in the list |
| `ActorSystem.System.Push` | src/skynet.cpp:157-189 | the push is the next ledger entry, is filed behind what an accepting actor has or else discarded, and leaves every column of the ledger balanced; a message that reaches the threshold makes an error (7) from the overloaded actor to the logger the next push, refused when the logger does not accept; the recursion ends even when the logger overloads |
| `ActorSystem.System.Refuse` | src/skynet.cpp:159-166 | a refused message is discarded and its buffer freed; if it has a session and a source and is neither a response (1) nor an error (7), the next push is an error (7) with its session to its source, and otherwise nothing is pushed |
| `ActorSystem.System.Send` | src/skynet.cpp:147-155 | one push is asked for and made |
| `ActorSystem.WarningRank` | src/skynet.cpp:172-182 | the nested push of a warning is strictly lower in the order that bounds the recursion |
| `ActorWorld.FilingBooks` | src/skynet.cpp:168-182 | filing a message balances the ledger, with a warning due exactly when the threshold doubles and there is a logger |
| `ActorWorld.RefusalBooks` | src/skynet.cpp:159-166 | refusing a message balances the ledger, with exactly its reply due and its buffer to be freed |
| `ActorWorld.DrainBooks` | src/skynet.cpp:486-492 | the same for a drained message |
| `ActorQueue.FiledCore` | src/skynet.cpp:168-182 | filing keeps conservation, each thread's order and count < threshold = 1024 * 2^doublings, and an overloaded mailbox is not overloaded right after its threshold doubled |
| `ActorQueue.Doublings` | src/skynet.cpp:172-182 | a mailbox that peaked at n since its reset has doubled its threshold floor(log2(n / 1024)) + 1 times, never below 1024 |
| `ActorSystem.WarningsCount` | src/skynet.cpp:172-182 | the warnings pushed about an actor since the reset number exactly floor(log2(peak / 1024)) + 1, none below 1024, when a logger was named at every doubling |
| `ActorSystem.System.Drain` | src/skynet.cpp:483-495 | the mailbox of a dying actor is emptied in an order that keeps each thread's, every message accounted for, each request answered once with an error and nothing else answered, and others only gain messages |
| `ActorSystem.System.Retire` | src/skynet.cpp:569-576 | a released actor that is not being dispatched ends drained, destroyed exactly once and without owner |
| `ActorSystem.System.Kill` | src/skynet.cpp:113-143 | an unknown handle changes nothing; an idle actor is drained and destroyed at once; of a dispatching one nothing changes but that it accepts no more, so its mailbox, its handler and everybody else are left alone until the dispatch ends; the stored logger handle is cleared but the logger that warnings go to stays the same; since the call nothing was pushed but one error per request discarded, and warnings |
| `ActorSystem.DestroyedAfterDispatch` | src/skynet.cpp:131-139 | in every state of the coarse steps an actor that was destroyed is not being dispatched, has nothing left, accepts nothing and was destroyed once |
| `ActorSystem.System.EndReleased` | src/skynet.cpp:611-638 | the end of the dispatch of a killed actor drains it, leaves the dispatch and only then destroys it |
| `ActorSystem.System.RegisterLogger` | src/skynet.cpp:226-232 | naming the logger sets the stored handle and the name and keeps the invariant |
| `ActorSystem.System.Error` | src/skynet.cpp:193-221 | an error goes to the logger, found by its name when no handle is stored, as one push; without a logger nothing changes |
| `ActorSystem.System.Begin` | src/skynet.cpp:541-568 | a token of a queued actor starts a dispatch, of an actor that has its owner, was not destroyed and is not being dispatched; a stale one does nothing |
| `ActorSystem.System.Deliver` | src/skynet.cpp:595-609 | the oldest message of some thread moves from the mailbox to the handler, but not once the actor is going away |
| `ActorSystem.System.End` | src/skynet.cpp:611-640 | an accepting actor is queued again iff mail is left, otherwise idle with its threshold back at 1024, and nothing else changes; a released one is drained and its requests answered once each, then no longer dispatched, then destroyed |
| `ActorSystem.System.Register` | src/skynet.h:385-398 | a new queue satisfies the invariant |
| `ActorSystem.System.Initialized` | src/skynet.h:400-430 | success changes nothing but that the actor is initialized and, if messages came early, scheduled; failure leaves the actor drained, its requests answered and destroyed, also when it was killed meanwhile |
| `ActorSystem.System.Turn` | src/skynet.cpp:583-631 | without arrivals a dispatch delivers exactly its batch, each thread's messages in order, and requeues the actor iff something is left |
| `ActorSystem.System.RunDown` | src/skynet.cpp:583-620 | a backlog of n is delivered completely, in an order that keeps each thread's, in exactly Turns(weight, n) dispatches |
| `ActorSystem.AllAnswered` | src/skynet.cpp:488-491 | between two states, each discarded message with session and source that is neither a response nor an error has exactly one reply, an error to its source with its session, in order, and no other reply is pushed |
| `Ledger.MatchReplies` | src/skynet.cpp:160-162 | the same as a one-to-one map from those discards to the replies, spelled out field by field |
| `ActorSystem.InExactlyOnePlace` | src/skynet.cpp:483-495 | accepted messages are, between any two steps, exactly those in mailbox, delivered and drained, with multiplicity |
| `ActorSystem.FreedIffNotDelivered` | src/skynet.cpp:64-70 | a buffer that one push carried is freed once iff its message was refused or drained, and never iff it waits or was delivered, and it is one of the four |
| `ActorQueue.TakenCore` | src/skynet.cpp:486-492 | draining the oldest message of a thread keeps conservation and order |
| `ImplicitQueue.RunInv` | 3rdparty/concurrentqueue/concurrentqueue.h:2550-2619 | the ticket invariant holds in every state for one producer and any number of consumers |
| `ImplicitQueue.AtMostTailWin` | 3rdparty/concurrentqueue/concurrentqueue.h:2555-2566 | at most tailIndex tickets ever win |
| `ImplicitQueue.HeadNeverPassesTail` | 3rdparty/concurrentqueue/concurrentqueue.h:2559-2569 | headIndex plus the consumers about to claim never exceeds tailIndex |
| `ImplicitQueue.ClaimsAreDisjoint` | 3rdparty/concurrentqueue/concurrentqueue.h:2566-2600 | a claimed index is published, held by one consumer and not dequeued before |
| `ImplicitQueue.DequeuedExactlyOnce` | 3rdparty/concurrentqueue/concurrentqueue.h:2551-2619 | what was dequeued is exactly the elements below headIndex, each at most once, in enqueue order of the indices |
| `ImplicitQueue.TestSeesTickets` | 3rdparty/concurrentqueue/concurrentqueue.h:2554-2561 | the optimistic test sees the head as many places further on as consumers hold tickets, so it can fail on a non-empty queue while somebody holds one, and only then |
| `ImplicitQueue.EmptyTestIsExact` | 3rdparty/concurrentqueue/concurrentqueue.h:2554-2557 | with no consumer inside, the optimistic test is exact |
| `ImplicitQueue.CircularLessAgrees` | 3rdparty/concurrentqueue/concurrentqueue.h:477-482 | the wrapped comparison agrees with the order of the unbounded counters while they are less than 2^63 apart |
| `BlockIndex.Producer.constructor` | 3rdparty/concurrentqueue/concurrentqueue.h:2966-3008 | the first index is empty and well formed |
| `BlockIndex.Producer.Lookup` | 3rdparty/concurrentqueue/concurrentqueue.h:2941-2964 | for any index inside a live block the masked offset finds the entry with exactly that block's key and a non-null address |
| `BlockIndex.Producer.TakeOldest` | 3rdparty/concurrentqueue/concurrentqueue.h:2907-2915 | the oldest entry is taken over iff it is free, and the ring turns by one |
| `BlockIndex.Producer.Insert` | 3rdparty/concurrentqueue/concurrentqueue.h:2900-2933 | it fails, changing nothing, iff the oldest entry is in use and no memory is left; otherwise all live blocks are still found |
| `BlockIndex.Producer.Grow` | 3rdparty/concurrentqueue/concurrentqueue.h:2966-3008 | doubling keeps the ring and adds invalid entries behind the oldest |
| `BlockIndex.Producer.StepBack` | 3rdparty/concurrentqueue/concurrentqueue.h:2935-2939 | rewinding moves the newest entry behind the oldest with a null address |
| `BlockIndex.Producer.Rewind` | 3rdparty/concurrentqueue/concurrentqueue.h:2507-2514 | after a failed allocation the index describes the same live blocks as before the insert |
| `BlockIndex.Producer.Publish` | 3rdparty/concurrentqueue/concurrentqueue.h:2530-2541 | storing the address makes the newest block live |
| `BlockIndex.Producer.Retire` | 3rdparty/concurrentqueue/concurrentqueue.h:2593-2606 | emptying a block frees its entry and no other |
| `BlockIndex.AppendGood` | 3rdparty/concurrentqueue/concurrentqueue.h:2909-2915 | a slot is reused only when its block has been emptied, and then no live block is lost |
| `BlockIndex.RewindGood` | 3rdparty/concurrentqueue/concurrentqueue.h:2935-2939 | rewinding undoes an insert for every live block |
| `BlockIndex.LookupGood` | 3rdparty/concurrentqueue/concurrentqueue.h:2953-2962 | the entry of a live block is as many places back as blocks were appended since |
| `Seri.Combine` | src/lua_seri.cpp:49-51 | type and cookie can be read back from the header byte |
| `Seri.Decode` | src/lua_seri.cpp:468-531 | on every byte string decoding ends, never moves back or past the end, and consumes something unless at the end |
| `Seri.DecodeEntries` | src/lua_seri.cpp:399-466 | the entry loop ends on every byte string with the cursor in range |
| `Seri.DecodeAll` | src/lua_seri.cpp:570-577 | unpacking a message consumes all of it |
| `SeriTheorems.RoundTrip` | src/lua_seri.cpp:267-300 | wherever the bytes of a value stand, decoding there yields the value and stops right after them, whatever follows |
| `SeriTheorems.IntTrip` | src/lua_seri.cpp:147-177 | every 64-bit integer survives its size-dependent encoding |
| `SeriFormat.IntLayout` | src/lua_seri.cpp:147-177 | header and payload of every 64-bit integer by literal ranges |
| `SeriFormat.TextLayout` | src/lua_seri.cpp:191-209 | header and length field of every string by literal ranges |
| `SeriFormat.TableLayout` | src/lua_seri.cpp:213-252 | size of the array part in the header below 31, as an integer behind it from there on, items, entries and a zero byte |
| `SeriFormat.ScalarReads` | src/lua_seri.cpp:339-388 | what unpacking makes of every header byte but that of a table and of any bytes behind it, also cut off or never written by packing |
| `SeriFormat.TableReads` | src/lua_seri.cpp:390-404 | where a table gets its size from, and negative sizes |
| `SeriFormat.EntriesRead` | src/lua_seri.cpp:399-466 | entries end at a header of type 0 or at the end; a key of nil or NaN, bit by bit, is an error |
| `SeriTheorems.TextTrip` | src/lua_seri.cpp:191-209 | every string under 2^32 bytes survives |
| `SeriTheorems.TextRoundTripIff` | src/lua_seri.cpp:202-208 | a string survives iff it is under 2^32 bytes |
| `SeriTheorems.EntriesTrip` | src/lua_seri.cpp:234-252 | table entries outside the array part survive up to the nil sentinel, those inside are not repeated |
| `SeriTheorems.HeadByte` | src/lua_seri.cpp:399-405 | only nil starts with the sentinel |
| `SeriTheorems.ListRoundTrip` | src/lua_seri.cpp:537-584 | an argument list unpacks to the same values in the same number and order |
| `SeriTheorems.SelfDelimiting` | src/lua_seri.cpp:468-531 | two packed values never share a beginning unless they are equal |
| `SeriTheorems.ListsInjective` | src/lua_seri.cpp:537-550 | packing lists is injective |
| `SeriTheorems.PacksIff` | src/lua_seri.cpp:254-300 | packing fails exactly on trees that nest tables more than 31 deep or hold an unsupported value |
| `SeriTheorems.ArgumentPacksIff` | src/lua_seri.cpp:254-300 | an argument packs iff it holds nothing unsupported and nests at most 31 tables |
| `WriteBuffer.WriteBlock.constructor` | src/lua_seri.cpp:70-76 | an empty list with the caller's block |
| `WriteBuffer.WriteBlock.Push` | src/lua_seri.cpp:78-97 | the contents grow by exactly the pushed bytes, all blocks but the current one are full and len = 128 * (blocks - 1) + ptr |
| `WriteBuffer.WriteBlock.Grow` | src/lua_seri.cpp:82-89 | a full current block gets a fresh successor |
| `WriteBuffer.WriteBlock.Seri` | src/lua_seri.cpp:303-331 | the buffer is the concatenation of everything pushed |
| `WriteBuffer.WriteBlock.FreeBlocks` | src/lua_seri.cpp:99-107 | every heap block is freed once, the first block never |
| `Serializer.PackOne` | src/lua_seri.cpp:267-300 | appends exactly the encoding, and succeeds iff the value packs at that depth |
| `Serializer.PackTable` | src/lua_seri.cpp:213-265 | the same for tables, with the depth limit |
| `Serializer.PackEntry` | src/lua_seri.cpp:237-250 | an entry of the array part is skipped, any other written |
| `Serializer.PackInt` | src/lua_seri.cpp:147-177 | appends 1 byte for 0, 2 for 1 to 255, 3 up to 65535, 5 for any other integer of 32 bits, negative or not, and 9 beyond, with header and payload as spelled out |
| `Serializer.PackText` | src/lua_seri.cpp:191-209 | appends the string behind a header that has its length below 32, in two bytes behind it below 2^16 and else in four |
| `Serializer.Pack` | src/lua_seri.cpp:537-550 | the result buffer is the encoding of the arguments, or an error iff one of them does not pack; on success every heap block is freed once, on an error none, so blocks leak iff more than 128 bytes were written before it |
| `Serializer.LeakExample` | src/lua_seri.cpp:294-298 | a string of 200 bytes and then a function leave one block behind |
| `Serializer.SomeWritten` | src/lua_seri.cpp:543-545 | what is written before an error is the encoding of the arguments before the failing one and what was written of that |
| `WriteBuffer.WriteBlock.BlockCount` | src/lua_seri.cpp:78-97 | the heap blocks are exactly as many as the bytes behind the first 128 need |
| `Serializer.ReadBlock.Read` | src/lua_seri.cpp:125-130 | bytes are returned and consumed iff enough are left |
| `Serializer.ReadBlock.Integer` | src/lua_seri.cpp:339-372 | reads what the format says, 0 when truncated |
| `Serializer.ReadBlock.One` | src/lua_seri.cpp:468-531 | yields the value the format defines and leaves the cursor there |
| `Serializer.ReadBlock.Key` | src/lua_seri.cpp:407-459 | the inlined key decoder agrees with unpack_one on every non-nil header |
| `Serializer.ReadBlock.TableBody` | src/lua_seri.cpp:390-466 | array part and entries as the format defines, error on a nil or NaN key |
| `Serializer.ReadBlock.Entries` | src/lua_seri.cpp:399-466 | the entry loop computes exactly the entries of the format |
| `Serializer.Unpack` | src/lua_seri.cpp:552-594 | yields all values of the message, or the error; a buffer passed to unpacktrash is freed iff there is no error |
| `Serializer.LeftBehind` | src/lua_seri.cpp:579-581 | a message of two bytes, cut off inside a key, that raises the error |
| `Bytes.LeRoundTrip` | src/lua_cluster.cpp:29-38 | reading a little-endian field back gives the number reduced to its width |
| `Bytes.FromLeRoundTrip` | src/lua_cluster.cpp:29-38 | writing what was read gives the same bytes |
| `Netpack.Pack` | src/lua_netpack.cpp:22-38 | the frame of the payload, or an error over 65535 bytes |
| `Netpack.FrameLayout` | src/lua_netpack.cpp:22-38 | a frame is the length in two bytes, high byte first, and the payload |
| `Netpack.Unpack` | src/lua_netpack.cpp:46-76 | nil iff there is no whole frame at the offset; otherwise the bytes up to the next offset are the frame of the payload |
| `Netpack.Filter` | src/lua_netpack.cpp:84-121 | all whole frames of the buffer and the new data, and the rest |
| `Netpack.FilterAll` | src/lua_netpack.cpp:84-121 | filtering chunk by chunk gives the same messages and rest as the whole stream at once |
| `Netpack.FramesOfCut` | src/lua_netpack.cpp:100-118 | cutting a stream anywhere changes nothing |
| `Netpack.FramesOfFramed` | src/lua_netpack.cpp:22-38 | framed payloads followed by an incomplete frame come apart into exactly those |
| `Netpack.FramesRebuild` | src/lua_netpack.cpp:100-121 | framing the messages again and appending the rest gives the stream back |
| `Netpack.UnpackFromIsFrames` | src/lua_netpack.cpp:46-76 | repeated unpack finds the messages that filter finds |
| `Cluster.FillHeader` | src/lua_cluster.cpp:40-44 | the big-endian header; its precondition is the assertion in the code, met at every call |
| `Cluster.PackNumber` | src/lua_cluster.cpp:53-74 | the first packet of a request to a number, within the 0x8200 buffer, and the number of parts |
| `Cluster.PackString` | src/lua_cluster.cpp:79-106 | the same for a name, an error iff it is not 1 to 255 bytes |
| `Cluster.PackMulti` | src/lua_cluster.cpp:111-132 | the part packets, all but the last of 0x8000 bytes |
| `Cluster.PackRequest` | src/lua_cluster.cpp:137-189 | errors exactly for a bad message, session or address; otherwise all packets and the next session, which wraps to 1 |
| `ClusterFormat.RequestCount` | src/lua_cluster.cpp:137-189 | one packet below 0x8000 bytes, from there on an announcement and a part for every 0x8000 bytes begun |
| `ClusterFormat.NumberLayout` | src/lua_cluster.cpp:53-74 | byte by byte, a whole request to a number |
| `ClusterFormat.NameLayout` | src/lua_cluster.cpp:79-106 | byte by byte, a whole request to a name |
| `ClusterFormat.NumberBeginLayout` | src/lua_cluster.cpp:53-74 | byte by byte, the announcement of a large request to a number, with its session also in a push |
| `ClusterFormat.NameBeginLayout` | src/lua_cluster.cpp:79-106 | byte by byte, the announcement of a large request to a name |
| `ClusterFormat.PartLayout` | src/lua_cluster.cpp:111-132 | byte by byte, the parts: which bytes of the message, and the tag of the last |
| `ClusterFormat.RequestReads` | src/lua_cluster.cpp:202-297 | what every byte string is unpacked to as a request, and which are malformed |
| `Cluster.UnpackSmallBody` | src/lua_cluster.cpp:202-216 | a single-packet request unpacks to its address, session, message and push flag |
| `Cluster.UnpackBeginBody` | src/lua_cluster.cpp:218-230 | an announcement unpacks to address, session, size and push flag |
| `Cluster.UnpackPartBody` | src/lua_cluster.cpp:232-242 | a part unpacks to its session, bytes and whether more follow |
| `Cluster.UnpackedWholeIsPacked` | src/lua_cluster.cpp:279-297 | a received whole request is byte for byte the packing of what it unpacks to |
| `Cluster.Concat` | src/lua_cluster.cpp:448-473 | the joined pieces iff the first slot is the size and the total agrees |
| `Cluster.AllPiecesReassemble` | src/lua_cluster.cpp:420-473 | the parts with the size in front give the message back, without it nothing |
| `Cluster.ReassembledIff` | src/lua_cluster.cpp:448-473 | pieces behind a number are joined, up to the next number, iff their total agrees with it modulo 2^32 |
| `ClusterDelivery.Agent.Dispatch` | service/clusteragent.lua:49-74 | the table of unfinished requests and the outcome of one packet |
| `ClusterDelivery.Agent.Complete` | service/clusteragent.lua:59-74 | a final packet completes its request or stands alone |
| `ClusterFormat.StrayPackets` | service/clusteragent.lua:49-74 | parts and final packets of a session that is not under way, and malformed packets |
| `ClusterFormat.PacketsUnderWay` | service/clusteragent.lua:49-74 | announcements, parts and whole requests in a session that is under way: the first address and push flag count |
| `ClusterDelivery.ReadLoop` | service/clusteragent.lua:127-143 | the payloads of the stream up to the first empty one |
| `ClusterDelivery.StopsAtEmpty` | service/clusteragent.lua:132-133 | what the loop reads is a prefix of the payloads without an empty one, up to an empty one or all |
| `ClusterDelivery.StopsAtMalformed` | service/clusteragent.lua:138 | and what it acts on a prefix of those, up to a malformed one or all |
| `ClusterDelivery.Agent.Serve` | service/clusteragent.lua:127-143 | the outcome for every packet the loop gets to, however the stream is cut; it ends at an empty or malformed packet |
| `ClusterDelivery.EndToEnd` | src/lua_cluster.cpp:137-297 | for any requests with distinct sessions, any interleaving of their packets and any cutting of the bytes, the receiver acts on exactly the last packet of each request, with its address, session, push flag and message |
| `ClusterDelivery.OwnPacket` | service/clusteragent.lua:49-74 | a packet moves its own request on and no other |
| `ClusterDelivery.DeliveredAsWrittenIff` | service/clusteragent.lua:50-73 | the agent as written delivers a request iff its message is under 0x8000 bytes |
| `ClusterDelivery.RefusedExample` | service/clusteragent.lua:50-73 | a request of exactly 0x8000 bytes, its two packets in order, is refused by the agent as written and delivered when the size is appended |
| `ClusterDelivery.DeliveredOnceWhenSized` | src/lua_cluster.cpp:420-473 | with the size appended every complete request is delivered exactly once |
| `ClusterResponse.PackResponse` | src/lua_cluster.cpp:302-376 | the packets of a response, within header and buffer bounds; failures cut to 0x8000 bytes; the number of parts is cut to an `int` |
| `ClusterFormat.ResponseLayout` | src/lua_cluster.cpp:302-376 | byte by byte, a response in one packet |
| `ClusterFormat.ResponsePartLayout` | src/lua_cluster.cpp:325-362 | byte by byte, the packets of a large response |
| `ClusterFormat.ResponseReads` | src/lua_cluster.cpp:381-415 | which byte strings are a response, and which response |
| `ClusterResponse.PackParts` | src/lua_cluster.cpp:325-362 | the announcement and the parts of a large response |
| `ClusterResponse.UnpackReplyBody` | src/lua_cluster.cpp:381-415 | each of the five tags unpacks to its session, status, data and padding flag |
| `ClusterResponse.Channel.Arrive` | lualib/skynet/socketchannel.lua:74-100 | what one response does to the waiting coroutine |
| `ClusterFormat.PaddingArrives` | lualib/skynet/socketchannel.lua:74-84 | a packet with the padding flag is added to what the coroutine has |
| `ClusterFormat.LastArrives` | lualib/skynet/socketchannel.lua:86-95 | one without ends the wait with its flag as the result |
| `ClusterResponse.SessionsAreIndependent` | lualib/skynet/socketchannel.lua:60-102 | what a coroutine ends up with depends only on the packets of its session |
| `ClusterResponse.ResponseRoundTrip` | src/lua_cluster.cpp:302-415 | successful responses of any size come back whole, failures as exactly their first 0x8000 bytes |
| `ClusterResponse.ResponseAmongOthers` | service/clustersender.lua:21-45 | the same with packets of other sessions in between |
| `LineInfo.FuncState.constructor` | 3rdparty/lua-5.5.0/lparser.c:806-807 | no instructions yet |
| `LineInfo.FuncState.Save` | 3rdparty/lua-5.5.0/lcode.c:331-346 | the tables encode one more line; the entry is absolute iff the difference does not fit in -127 to 127 or 128 entries have passed since the last absolute one |
| `LineInfo.FuncState.RemoveLineInfo` | 3rdparty/lua-5.5.0/lcode.c:355-367 | the tables encode all lines but the last, and the next entry is right whatever it is |
| `LineInfo.FuncState.RemoveLastInstruction` | 3rdparty/lua-5.5.0/lcode.c:374-377 | the same with the instruction |
| `LineInfo.FuncState.Code` | 3rdparty/lua-5.5.0/lcode.c:384-392 | an emitted instruction has the given line, all others keep theirs |
| `LineInfo.FuncState.FixLine` | 3rdparty/lua-5.5.0/lcode.c:1868-1871 | the last instruction gets the new line, all others keep theirs |
| `LineInfo.FuncState.Close` | 3rdparty/lua-5.5.0/lparser.c:838-841 | the finished tables describe the saved lines |
| `LineInfo.GetBaseLine` | 3rdparty/lua-5.5.0/ldebug.c:62-77 | the base entry has its saved line and nothing absolute lies between it and pc; the estimate never overshoots |
| `LineInfo.GetFuncLine` | 3rdparty/lua-5.5.0/ldebug.c:85-97 | the line last saved for pc, -1 without debug information |
| `LineInfo.ChangedLine` | 3rdparty/lua-5.5.0/ldebug.c:881-899 | the fast path equals comparing the two lines |
| `LineInfo.SumIsDifference` | 3rdparty/lua-5.5.0/ldebug.c:91-95 | relative entries add up to the difference of lines as long as no absolute one is passed |
| `LineInfo.UnmarkedAfter` | 3rdparty/lua-5.5.0/ldebug.c:72-75 | behind the right absolute entry no other comes before pc |
| `JumpThreading.FinalTarget` | 3rdparty/lua-5.5.0/lcode.c:1911-1921 | the position at most 100 jumps on |
| `JumpThreading.FixJump` | 3rdparty/lua-5.5.0/lcode.c:168-176 | the jump is changed iff its distance fits 25 bits |
| `JumpThreading.Finish` | 3rdparty/lua-5.5.0/lcode.c:1963-1967 | from every instruction the chain of jumps ends at the same place or diverges as before, only jumps change, a chain of at most 100 is replaced by one jump, and no error occurs in functions under 2^24 instructions |
| `JumpThreading.RedirectPreserves` | 3rdparty/lua-5.5.0/lcode.c:1911-1921 | redirecting one jump along its own chain, cut off or not, preserves every landing in both directions |
| `JumpThreading.RedirectKeeps` | 3rdparty/lua-5.5.0/lcode.c:1911-1921 | chains never get longer |
| `JumpThreading.ThreadStep` | 3rdparty/lua-5.5.0/lcode.c:1963-1967 | rewriting a jump over partly rewritten code keeps all of this |

## Left out

- Weak memory: relaxed and acquire loads are modelled as sequentially consistent.
- Request conservation and exclusion of on_destroy at the granularity of single atomics: both are false there, under the conditions stated above; they are proved for coarse steps.
- Calls made inside a handler are steps of further threads in the fine-grained model, the overload loop is only in the coarse one, and a mailbox holds fewer than 2^64 messages.
- Shutdown, worker exit, the monitor thread, timers, named services other than the logger, and the reuse of handles after 2^32 spawns.
- The coarse model has no saturation of the overload threshold at 2^64 - 1, which needs 2^63 pending messages.
- SleepingWorkers.WorkIsNeverSleptThrough: the epoch is an unbounded number, so a wrap of 2^64 increments during one wait is not modelled; the global queue is one producer's, and a winning ticket is drawn and claimed in one step.
- SchedulerMailbox.RunKept: sub-queues are looked at in any order, so the choice of the longest one is only in `Mailbox.TryDequeue`; a message is constructed and published in one step; sub-queues are never removed or reused.
- ImplicitQueue.RunInv: counters are unbounded; CircularLessAgrees says when that is the same as the 64-bit ones. Explicit producers, bulk operations, the free list of blocks and the producer hash are not modelled.
- BlockIndex.Producer.Lookup: a lookup is one step, so a consumer reading an old index header while a larger one is published is not modelled.
- Lua's own limits (memory, C stack, the size of a preallocated table), cyclic tables, metamethods, and tables with 2^31 or more array items; doubles and pointers are opaque 8-byte values.
- Netpack.Unpack: offsets and buffers are below 2^31, so the conversion of the offset to `int` is not modelled.
- Cluster.Concat: a total over 2^31 - 1 is undefined behaviour in the code and wraps around here; delivery is claimed for messages under 2^31 bytes.
- Ownership of light userdata passed to the packers, `isname`, `nodename`, `header`, and what the agent does with a delivered request.
- LineInfo.FuncState.RemoveLastInstruction: it is followed by an emitted instruction before the next removal, as in the only place that calls it.
- The cases of luaK_finish other than OP_JMP, which change no jump.
- The socket layer, gate, logger, JSON, profiling and the rest of the vendored Lua.
