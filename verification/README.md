# Mailbox and scheduler core of actors-framework, verified

This project models the part of the actor runtime that everything else stands on - the lock-free mailbox, the
partitioned list behind it, the actor's message loop and life cycle, the executor with its workers, the reference
counter and the aligned allocator - and proves what these are for.

Code that several threads execute at once is a machine of atomic steps: a `State`, an `Enabled` predicate, an `Apply`
function, and runs `IsRun(run, acts)` of any length with any number of threads. Code that one thread owns is a class
whose methods update the same fields by the same loops as the source.

| files | what they model |
|---|---|
| `QueueMachine`, `QueueFifo`, `QueueRefinement`, `QueueWake`, `QueueAnswers`, `QueueProgress`, `QueueWitness` | `single_reader_queue` under every interleaving: each load and CAS of `stack_`, each write of a `next` field, each mutex and condition-variable operation is one step; nodes live at addresses that are reused after being freed |
| `PartitionedList` | `intrusive_partitioned_list`: linked nodes between three sentinels |
| `SingleReaderQueue` | the reader's operations as pointer loops over linked nodes: `fetch_new_data`, `try_pop`, `close`, `count`, `peek_all` |
| `Priorities`, `CooperativeActor`, `DeliveryHistory`, `PriorityHistory` | `next_message`, the budgeted `run`, and whole histories of calls, runs and releases, with arbitrary arrivals before every access to `stack_` |
| `LinkedMailbox` | `next_message` on the linked queue and list themselves, with `hp_pos` a node |
| `LifeCycle`, `LifeCycleWitness` | the busy flag, the blocked mailbox and the job reference over whole runs |
| `Executor`, `ExecutorRuns`, `WorkSharing` | the shared job list, the worker loop and the shutdown handshake of `stop` |
| `RefCounted` | `ref` and the two-step `deref` |
| `Common` | definitions several modules share |
| `AlignedAllocate` | `is_pow2`, the mask form of `align`, and allocation and deallocation over a byte memory |

## Where the code does less than it seems to

Each of these is stated for all inputs, with the exact condition under which the code does what one would expect.

- `run`'s first loop takes a message with `next_message`, destroys it with the next assignment to `ptr`, and consumes
  from the *other* partition. Over every history nothing is lost if and only if no run is entered with messages in the
  first partition (`DeliveryHistory.DeliveredExactlyIff`). With a priority-free mailbox two messages and a budget of one
  suffice for a loss (`DeliveryHistory.SecondRunDropsLeftover`).
- `run` with a budget of zero moves every message to the second partition and then fails `push_to_cache`'s assertion
  (`CooperativeActor.Actor.Run`).
- `count` fetches in front of what `head_` still holds. The order survives if and only if there was nothing to fetch or
  nothing to fetch it in front of (`SingleReaderQueue.CountKeepsOrderIff`); three elements suffice to come out in the
  wrong order (`SingleReaderQueue.CountReorders`). `count(0)` counts the whole cache, because the limit is compared after
  the increment (`PartitionedList.List.Count`).
- `close` on a blocked queue empties it but leaves it open (`QueueRefinement.CloseEmptiesQueue`,
  `QueueRefinement.CloseDisposesOfAll`, `SingleReaderQueue.Queue.Close`).
- `synchronized_await` returns without data when the queue was already blocked before the call
  (`QueueWake.AwaitReturnsWithData`, `QueueWake.BlockedBeforeAwait`,
  `QueueWitness.AwaitOnBlockedQueueReturnsEmptyHanded`).
- A producer that uses plain `enqueue` can lose a wake-up. For any mixture of producers, somebody will notify the waiting
  reader if and only if the CAS that unblocked the queue belongs to a `synchronized_enqueue` or some producer was about to
  notify already at that CAS (`QueueWake.NoLostWakeUp`); with one kind of producer, if and only if that kind is
  `synchronized_enqueue` (`QueueWake.WakeUpIsKeptIffSynchronized`). If nobody will notify, no producer can ever wake the
  reader (`QueueWake.ProducersCanWakeIff`, `QueueWitness.PlainEnqueueLosesWakeUp`).
- `enqueue_base` and the release protect none of their steps, and only one step needs protection: storing `busy`. Under
  every interleaving the life cycle holds throughout a run if and only if each such store still finds the flag empty and a
  message in the mailbox (`LifeCycle.LifeCycleHoldsIff`, `LifeCycle.StepKeepsInvIff`). A store that does not can be followed
  by two job references or a failing assertion (`LifeCycle.StaleMarkCanBreak`, `LifeCycleWitness`). Releases may overlap
  with anything (`LifeCycle.UndisturbedIsFresh`).
- A release leaves messages without a job exactly when it clears the flag while messages wait and no sender is between its
  push and its store (`LifeCycle.ReleaseStrandsIff`, and over runs `LifeCycle.StrandedIff`).
- The hand-written `align` compares after an unsigned subtraction that may wrap around, so it accepts some requests that
  do not fit (`AlignedAllocate.AlignAgreesWithStandardIff`, `AlignedAllocate.AlignGrantsWhatDoesNotFit`); the allocator
  never makes such a request (`AlignedAllocate.AllocationFits`). Alignment zero passes the `is_pow2` assertion
  (`AlignedAllocate.ZeroSlipsThrough`).

## Model

| member | source | states |
|---|---|---|
| `QueueRefinement.StepRefinesFifo` | header/actors-framework/detail/single_reader_queue.hpp:49-66 | refinement: from every state of the invariant, each atomic step of any thread acts on the abstract sequence as nothing, an append of the enqueued element (the successful CAS), or a removal of its front (pop, disposal by close), and keeps the memory invariant |
| `QueueRefinement.QueueIsFifo` | header/actors-framework/detail/single_reader_queue.hpp:257-301 | linearizable FIFO: at every moment of every run, what has left followed by what is queued is exactly what the CASes published, in CAS order |
| `QueueRefinement.PoppedIsPrefix` | header/actors-framework/detail/single_reader_queue.hpp:43-45 | while close has disposed of nothing, the popped elements are a prefix of the CAS order |
| `QueueRefinement.HeapInvAlways` | header/actors-framework/detail/single_reader_queue.hpp:247-254 | acyclic disjoint chains, one owner per node and correctly linked in-flight nodes, in every reachable state |
| `QueueRefinement.OneOwnerAlways` | header/actors-framework/detail/single_reader_queue.hpp:41-66 | element ownership: a node is allocated exactly when it is queued, held by the receiver of a pop, or in the hands of one producer, and never two of these |
| `QueueRefinement.StepIsSafe` | header/actors-framework/detail/single_reader_queue.hpp:257-301 | no step touches freed memory and none of the assertions in fetch_new_data fails |
| `QueueRefinement.EmptyAnswerIsTrue` | header/actors-framework/detail/single_reader_queue.hpp:257-301 | a popping fetch comes to the empty dummy, its way out without an element, only by looking at an empty queue; that there is no other way out is `QueueAnswers.TryPopAnswers` |
| `QueueRefinement.CloseEmptiesQueue` | header/actors-framework/detail/single_reader_queue.hpp:120-126 | when close returns the queue is empty, and it is closed if and only if it was not blocked |
| `QueueRefinement.CloseDisposesOfAll` | header/actors-framework/detail/single_reader_queue.hpp:120-126 | one whole close, over any run: it disposes of exactly what the queue held when called, then of what was published up to its closing CAS, in order; nothing is popped or published after that; on a blocked queue it disposes of the contents and leaves it blocked |
| `QueueRefinement.ClosedIsFinal` | header/actors-framework/detail/single_reader_queue.hpp:53-57 | no later step of any thread reopens a closed queue or publishes into it; every enqueue that ends there answers queue_closed |
| `QueueRefinement.RefusedElementIsDeleted` | header/actors-framework/detail/single_reader_queue.hpp:53-57 | queue_closed means that exactly the producer's own element was deleted; that nothing else deletes an element in flight is `QueueAnswers.EnqueueEnds` |
| `QueueRefinement.CasPutsNodeOnCurrentStack` | header/actors-framework/detail/single_reader_queue.hpp:59-63 | address reuse is harmless: a successful CAS puts exactly the producer's node in front of the current stack however stale the compared value, and all chains stay disjoint |
| `QueueAnswers.EnqueueEnds` | header/actors-framework/detail/single_reader_queue.hpp:49-66 | a producer parts with its node only by a step of its own: either its CAS publishes the element on top of the stack and answers success or unblocked_reader, or the queue is closed, the node is deleted and the answer is queue_closed; a failed CAS loses nothing |
| `QueueAnswers.AnswerEndsEnqueue` | header/actors-framework/detail/single_reader_queue.hpp:49-66 | an answer is given only by the step with which the producer parts with its node |
| `QueueAnswers.EachEnqueueAnswersOnce` | header/actors-framework/detail/single_reader_queue.hpp:49-66 | over every run, the enqueues a thread has begun have all answered exactly once, but for the one it is in |
| `QueueAnswers.ElementsAccountedFor` | header/actors-framework/detail/single_reader_queue.hpp:49-66 | over every run, as often as an element was handed to enqueue it was published, refused by a closed queue, or is still carried by a producer |
| `QueueAnswers.PublishedIsPushed` | header/actors-framework/detail/single_reader_queue.hpp:59-63 | what that count calls published is what the FIFO theorem lists |
| `QueueAnswers.PopTakesFront` | header/actors-framework/detail/single_reader_queue.hpp:294-301 | whatever a step pops is the front of the queue |
| `QueueAnswers.TryPopAnswers` | header/actors-framework/detail/single_reader_queue.hpp:257-301 | over every run and interleaving, a try_pop answers with the front of the queue, or with nothing - and then the queue was empty at some moment between its load of stack_ and its return |
| `QueueAnswers.FalseAnswerIff` | header/actors-framework/detail/single_reader_queue.hpp:231-245 | over every run, an await answers false if and only if its own timeout has turned blocked back into empty |
| `QueueProgress.EnqueueAlone` | header/actors-framework/detail/single_reader_queue.hpp:49-66 | from every reachable state an enqueue the others leave alone ends within four steps, however stale its idea of the stack: its element is appended, or its node deleted if the queue is closed |
| `QueueProgress.ReaderAlone` | header/actors-framework/detail/single_reader_queue.hpp:257-311 | from the middle of any try_pop or close, undisturbed, the operation ends after a known number of steps; what it hands out comes off the front of the queue in order |
| `QueueProgress.TryPopAlone` | header/actors-framework/detail/single_reader_queue.hpp:43-45 | an undisturbed try_pop answers with the front, or with nothing exactly if the queue is empty, within the number of queued elements plus four steps |
| `QueueProgress.CloseAlone` | header/actors-framework/detail/single_reader_queue.hpp:120-126 | an undisturbed close disposes of exactly what the queue held, in order, within a bounded number of steps, and leaves it closed, or blocked if it was blocked |
| `QueueProgress.AwaitAlone` | header/actors-framework/detail/single_reader_queue.hpp:221-229 | an undisturbed await on an empty queue blocks it and waits without the mutex; with something to fetch it returns at once |
| `QueueProgress.AwaitEnds` | header/actors-framework/detail/single_reader_queue.hpp:203-245 | once the queue is not blocked, an await ends within eight steps of its own and of the producers holding the mutex, answering true with data to fetch; asleep, it needs somebody who has yet to notify |
| `QueueProgress.TimeoutAnswersFalse` | header/actors-framework/detail/single_reader_queue.hpp:237-241 | a timeout that strikes while the queue is blocked makes it empty again and answers false |
| `QueueProgress.SpuriousWakeUpWaitsOn` | header/actors-framework/detail/single_reader_queue.hpp:226-227 | a spurious wake-up leads back into the wait while the queue is blocked |
| `QueueFifo.WalkFindsChain` | header/actors-framework/detail/single_reader_queue.hpp:276-282 | following next over any heap visits exactly the nodes of the chain, in order, and ends |
| `QueueFifo.EnqueueKeeps` | header/actors-framework/detail/single_reader_queue.hpp:49-66 | the successful CAS keeps every chain and every owner, moving one node from its producer to the top of the stack |
| `QueueFifo.ReverseKeeps` | header/actors-framework/detail/single_reader_queue.hpp:276-282 | each round of the reversing loop keeps chains, owners and the queue's order |
| `QueueWitness.StaleCasSucceedsOnReusedAddress` | header/actors-framework/detail/single_reader_queue.hpp:59-63 | a concrete run in which an address is popped, freed and reused while a producer still compares with it, so the previous theorem is not vacuous |
| `QueueWake.WakeInvAlways` | header/actors-framework/detail/single_reader_queue.hpp:203-245 | mutex ownership, and a queue that is blocked or non-empty throughout the wait loop, in every reachable state |
| `QueueWake.NoLostWakeUp` | header/actors-framework/detail/single_reader_queue.hpp:203-229 | for any mixture of producers, whenever the reader sits in cv.wait and the queue is no longer blocked: exactly which producers have yet to notify, so that somebody will if and only if the unblocking CAS was a synchronized_enqueue's or a notification was already due |
| `QueueWake.WakeUpIsKeptIffSynchronized` | header/actors-framework/detail/single_reader_queue.hpp:203-229 | with one kind of producer, somebody will notify if and only if that kind is synchronized_enqueue |
| `QueueWake.WaitingReaderCanBeWoken` | header/actors-framework/detail/single_reader_queue.hpp:203-229 | a waiting reader somebody will notify is never stuck: producers alone can wake it within three steps, no mutex in the way |
| `QueueWake.ProducersCanWakeIff` | header/actors-framework/detail/single_reader_queue.hpp:203-229 | producers can wake a reader waiting on an unblocked queue if and only if one of them has yet to notify |
| `QueueWake.AwaitReturnsWithData` | header/actors-framework/detail/single_reader_queue.hpp:221-245 | synchronized_await returns true if and only if data can be fetched, except when its own try_block found the queue already blocked |
| `QueueWake.BlockedBeforeAwait` | header/actors-framework/detail/single_reader_queue.hpp:224 | that exception needs a queue blocked before the call: over any run nobody else blocks it |
| `QueueWake.TimeoutUnblocks` | header/actors-framework/detail/single_reader_queue.hpp:237-241 | the timed form answers false only after itself turning blocked back into empty |
| `QueueWake.EachBlockAnsweredOnce` | header/actors-framework/detail/single_reader_queue.hpp:97-108 | token accounting over every run: successful blocks = enqueues answering unblocked_reader + successful unblocks + one if blocked now |
| `QueueWake.RetriesBoundedByChanges` | header/actors-framework/detail/single_reader_queue.hpp:49-66 | lock-freedom: an enqueue has failed at most as often as stack_ was changed since its load |
| `QueueWitness.PlainEnqueueLosesWakeUp` | header/actors-framework/detail/single_reader_queue.hpp:204-210 | a run with plain enqueue in which the reader waits, data is there and nobody will notify |
| `QueueWitness.AwaitOnBlockedQueueReturnsEmptyHanded` | header/actors-framework/detail/single_reader_queue.hpp:222-229 | a run in which await on a blocked queue returns with nothing to fetch |
| `PartitionedList.List.constructor` | header/actors-framework/detail/intrusive_partitioned_list.hpp:79-84 | two empty parts between the sentinels |
| `PartitionedList.List.Insert` | header/actors-framework/detail/intrusive_partitioned_list.hpp:141-148 | insert at any position in front of an element, the separator or the end is insertion into exactly one of the two sequences; prev stays the inverse of next |
| `PartitionedList.List.Take` | header/actors-framework/detail/intrusive_partitioned_list.hpp:154-161 | take removes exactly that element from its part and leaves the other part alone |
| `PartitionedList.List.Erase` | header/actors-framework/detail/intrusive_partitioned_list.hpp:163-167 | as take, the element is deleted, and the answer is the old successor |
| `PartitionedList.List.Empty` | header/actors-framework/detail/intrusive_partitioned_list.hpp:150-152 | true if and only if both parts are empty |
| `PartitionedList.List.Count` | header/actors-framework/detail/intrusive_partitioned_list.hpp:169-176 | min(max, elements) for positive max, all elements for max zero |
| `PartitionedList.List.Clear` | header/actors-framework/detail/intrusive_partitioned_list.hpp:114-134 | f is applied once to every element in order, each is deleted right afterwards, and the list is as newly built |
| `PartitionedList.List.Reset` | header/actors-framework/detail/intrusive_partitioned_list.hpp:126-133 | tying the sentinels together leaves two empty parts, whatever was linked |
| `PartitionedList.List.Visit` | header/actors-framework/detail/intrusive_partitioned_list.hpp:108-112 | walking a range meets exactly its elements in order |
| `PartitionedList.LinkBefore` | header/actors-framework/detail/intrusive_partitioned_list.hpp:141-148 | the four assignments keep next and prev inverse along the ring with the new node |
| `PartitionedList.Unlink` | header/actors-framework/detail/intrusive_partitioned_list.hpp:154-161 | the two assignments keep them inverse along the ring without the node |
| `PartitionedList.ClearedAppend` | header/actors-framework/detail/intrusive_partitioned_list.hpp:116-125 | clearing two ranges one after the other is clearing their concatenation |
| `PartitionedList.ClearedAt` | header/actors-framework/detail/intrusive_partitioned_list.hpp:119-124 | the i-th element is the i-th to be given to f and is deleted right afterwards, and nothing else happens |
| `SingleReaderQueue.Queue.Enqueue` | header/actors-framework/detail/single_reader_queue.hpp:49-66 | the three answers by the old state; the node is appended, or deleted with nothing else changed when the queue is closed |
| `SingleReaderQueue.ReverseOnto` | header/actors-framework/detail/single_reader_queue.hpp:276-282 | the in-place loop yields the reversed chain in front of the old one |
| `SingleReaderQueue.Queue.FetchNewData` | header/actors-framework/detail/single_reader_queue.hpp:257-292 | everything grabbed, reversed in front of head_; the answer says whether there was anything |
| `SingleReaderQueue.Queue.TryPop` | header/actors-framework/detail/single_reader_queue.hpp:294-301 | the oldest waiting node, or nothing if and only if none waits |
| `SingleReaderQueue.Queue.ClearHead` | header/actors-framework/detail/single_reader_queue.hpp:303-311 | f once per node of head_ in order, each deleted afterwards |
| `SingleReaderQueue.Queue.TryBlock` | header/actors-framework/detail/single_reader_queue.hpp:97-102 | only from empty to blocked |
| `SingleReaderQueue.Queue.TryUnblock` | header/actors-framework/detail/single_reader_queue.hpp:104-108 | only from blocked to empty |
| `SingleReaderQueue.Queue.Close` | header/actors-framework/detail/single_reader_queue.hpp:120-126 | f once on every remaining element - mailbox in FIFO order, then the two parts of the cache - each deleted once; closed unless it was blocked |
| `SingleReaderQueue.Queue.Count` | header/actors-framework/detail/single_reader_queue.hpp:138-149 | min(max, all elements), and the exact order in which the mailbox is left |
| `SingleReaderQueue.CountKeepsOrderIff` | header/actors-framework/detail/single_reader_queue.hpp:138-149 | the order count leaves is the old one if and only if the stack or head_ was empty |
| `SingleReaderQueue.CountReorders` | header/actors-framework/detail/single_reader_queue.hpp:138-149 | three elements enqueued, one popped before the third arrives: after count the third comes out before the second |
| `SingleReaderQueue.Queue.PeekAll` | header/actors-framework/detail/single_reader_queue.hpp:157-188 | visits part one, part two and the mailbox in FIFO order, each once, and leaves the abstract queue unchanged |
| `SingleReaderQueue.Queue.FetchBehindHead` | header/actors-framework/detail/single_reader_queue.hpp:166-182 | cutting head_, fetching and re-joining keeps the FIFO order |
| `SingleReaderQueue.Join` | header/actors-framework/detail/single_reader_queue.hpp:180-181 | one pointer write makes two disjoint chains one |
| `CooperativeActor.Actor.NextMessage` | header/actors-framework/impl/actor/cooperative_actor.ipp:137-156 | for any priority predicate and any arrivals: the front of the merge (or of the cache, when that starts with a high-priority message) is taken, the rest stays in order, priority order of the first partition is kept |
| `CooperativeActor.Actor.DrainMailbox` | header/actors-framework/impl/actor/cooperative_actor.ipp:141-149 | the merging loop with its moving hp_pos leaves the drained high-priority messages, the old cache, the drained normal ones; the mailbox is empty |
| `Priorities.MergeIsStablePartition` | header/actors-framework/impl/actor/cooperative_actor.ipp:137-156 | that merge is the stable partition of cache followed by mailbox |
| `Priorities.StablePartitionIsSorted` | header/actors-framework/impl/actor/cooperative_actor.ipp:137-156 | no normal message precedes a high-priority one |
| `Priorities.CachedHighIsFirst` | header/actors-framework/impl/actor/cooperative_actor.ipp:141 | not looking into the mailbox is justified: the cached high-priority head is the head of the stable partition whatever the mailbox holds |
| `Priorities.InsertBehindClass` | header/actors-framework/impl/actor/cooperative_actor.ipp:170-175 | inserting at the partition point, or at the end for a normal message, gives the stable partition of the range followed by the message |
| `PriorityHistory.TakesMostUrgent` | header/actors-framework/impl/actor/cooperative_actor.ipp:137-156 | in both branches next_message takes the head of the stable partition of cache, mailbox and arrivals |
| `PriorityHistory.EachClassInArrivalOrder` | header/actors-framework/impl/actor/cooperative_actor.ipp:137-156 | over every series of calls and arrivals: the high-priority messages taken, cached and waiting are, in this order, those that arrived in arrival order, and so are the normal ones; the first partition stays sorted by priority |
| `LinkedMailbox.MergeOne` | header/actors-framework/impl/actor/cooperative_actor.ipp:145-147 | one round on linked nodes: the insertion and the decrement of hp_pos keep it behind the high-priority messages merged so far |
| `LinkedMailbox.DrainMailbox` | header/actors-framework/impl/actor/cooperative_actor.ipp:141-149 | the loop on linked nodes leaves the same merge as the sequence form, the second partition untouched and the mailbox empty |
| `LinkedMailbox.NextMessage` | header/actors-framework/impl/actor/cooperative_actor.ipp:137-156 | next_message on the linked queue and list: the front of the merge, or of a cache that starts with a high-priority message, is unlinked and the rest stays in order |
| `CooperativeActor.MergeIsFifo` | header/actors-framework/impl/messaging/message.ipp:44-46 | with is_high_priority constantly false the merge is plain FIFO |
| `CooperativeActor.Actor.NextInOrder` | header/actors-framework/impl/actor/cooperative_actor.ipp:137-156 | next_message as it stands takes the oldest message of cache, mailbox and arrivals |
| `CooperativeActor.Actor.FetchNewData` | header/actors-framework/detail/single_reader_queue.hpp:257-292 | with arrivals between load and CAS nothing is lost or reordered and the stack ends empty; the retry loop ends |
| `CooperativeActor.Actor.TakeOrBlock` | header/actors-framework/impl/actor/cooperative_actor.ipp:43-50 | the do-while takes the oldest message, or blocks a mailbox with nothing pending; arrivals in between are kept in order |
| `CooperativeActor.Actor.HasNextMessage` | header/actors-framework/impl/actor/cooperative_actor.ipp:158-162 | true if and only if the first partition or the mailbox holds something |
| `CooperativeActor.Actor.ConsumeFromCache` | header/actors-framework/impl/actor/cooperative_actor.ipp:183-193 | consumes and removes the front of the second partition, if any |
| `CooperativeActor.Actor.PushToCache` | header/actors-framework/impl/actor/cooperative_actor.ipp:164-176 | a normal message goes to the end of the second partition; for any predicate a sorted partition becomes the stable partition of itself followed by the message |
| `CooperativeActor.Actor.FirstLoop` | header/actors-framework/impl/actor/cooperative_actor.ipp:29-40 | from a non-empty cache: which messages are dropped and which cached ones are handled; each was taken while the cache was not empty, and the loop stops as soon as it is |
| `CooperativeActor.Actor.SecondLoop` | header/actors-framework/impl/actor/cooperative_actor.ipp:42-53 | handles the next messages in order up to the budget, or blocks with nothing pending |
| `CooperativeActor.Actor.RunWithoutBudget` | header/actors-framework/impl/actor/cooperative_actor.ipp:55-58 | entered without a message this loop always ends in the failing assertion |
| `CooperativeActor.Actor.Run` | header/actors-framework/impl/actor/cooperative_actor.ipp:20-65 | for any arrivals: within the budget, what is dropped, handled and still pending is in order what was pending and what arrived, without gap or repetition; what was taken before the cache was first found empty is dropped, what was taken from then on is handled; the mailbox is left blocked exactly if nothing is pending, otherwise the budget is used up; budget zero fails the assertion |
| `CooperativeActor.NothingDroppedOnceEmpty` | header/actors-framework/impl/actor/cooperative_actor.ipp:29-40 | once a run has found the cache empty it drops nothing more, so a message that arrives after the leftovers are gone is handled or pending |
| `CooperativeActor.Actor.Leave` | header/actors-framework/impl/actor/cooperative_actor.ipp:60-64 | the mailbox ends up blocked if and only if nothing is pending |
| `DeliveryHistory.DeliveredByRun` | header/actors-framework/impl/actor/cooperative_actor.ipp:20-65 | one run drops nothing exactly when the first partition was empty, and then handles the next k <= max messages, k == max unless nothing is pending; it leaves the mailbox blocked exactly then |
| `DeliveryHistory.DeliveredExactlyIff` | header/actors-framework/impl/actor/cooperative_actor.ipp:20-65 | over every history of runs and releases: nothing has been dropped if and only if no run found leftovers, and then handled followed by pending is the arrival order |
| `DeliveryHistory.EveryMessageAccountedFor` | header/actors-framework/impl/actor/cooperative_actor.ipp:20-65 | over every history each message is handled, dropped or pending as often as it arrived |
| `DeliveryHistory.SecondStaysEmpty` | header/actors-framework/impl/actor/cooperative_actor.ipp:55-58 | no run with a positive budget ever fills the second partition |
| `DeliveryHistory.SecondRunDropsLeftover` | header/actors-framework/impl/actor/cooperative_actor.ipp:29-40 | two messages, budget one: the second run destroys the second message unhandled |
| `LifeCycle.StepKeepsInv` | header/actors-framework/impl/actor/cooperative_actor.ipp:67-79 | every step of every thread, interrupting whom it may, keeps the life-cycle invariant unless it is a stale mark, and fetching does not meet a blocked queue |
| `LifeCycle.StepKeepsInvIff` | header/actors-framework/impl/actor/cooperative_actor.ipp:102-106 | the condition is exact: a step keeps the invariant if and only if it is not a store of busy that no longer finds the flag empty and a message waiting |
| `LifeCycle.LifeCycleInv` | header/actors-framework/impl/actor/cooperative_actor.ipp:67-79 | the invariant at every moment of every run up to a stale mark, with any number of senders and workers |
| `LifeCycle.LifeCycleHoldsIff` | header/actors-framework/impl/actor/cooperative_actor.ipp:67-79 | over whole runs: the life cycle holds at every moment if and only if no mark is stale |
| `LifeCycle.BusyIffOneJob` | header/actors-framework/impl/actor/cooperative_actor.ipp:102-112 | at every moment of such runs: busy if and only if a sender is scheduling the actor or a job reference exists, never both and never two references; the reference and the releases under way are exactly what rc_ counts besides the handles; blocked only between a run's return and its release's unblocking |
| `LifeCycle.FetchNeverMeetsBlocked` | header/actors-framework/detail/single_reader_queue.hpp:262-270 | the assertions that fetching never meets a blocked queue hold |
| `LifeCycle.MessagesAccountedFor` | header/actors-framework/impl/actor/cooperative_actor.ipp:67-79 | over every run, with stale marks or without, a message that was pushed has been handled, is cached or is in the mailbox |
| `LifeCycle.EachBlockAnsweredOnce` | header/actors-framework/impl/actor/cooperative_actor.ipp:102-112 | over every run the mailbox has been blocked as often as a push or a release has unblocked it, and once more if it is blocked now |
| `LifeCycle.ComesToRest` | header/actors-framework/impl/actor/cooperative_actor.ipp:67-79 | from every state of the invariant whoever is responsible for the actor brings it to rest within six steps: handed over, run, returned, flag cleared |
| `LifeCycle.ReleaseEnds` | header/actors-framework/impl/actor/cooperative_actor.ipp:108-112 | a release that has cleared the flag unblocks the mailbox, gives exactly its reference up and is over |
| `LifeCycle.UndisturbedIsFresh` | header/actors-framework/impl/actor/cooperative_actor.ipp:67-79 | in particular, if no enqueue_base is interrupted before its hand-over; releases may overlap with anything |
| `LifeCycle.StaleMarkCanBreak` | header/actors-framework/impl/actor/cooperative_actor.ipp:67-79 | from every stale mark the sender goes on to a state with two job references or a fetch whose assertion fails |
| `LifeCycle.LateHandOverIsGoodIff` | header/actors-framework/impl/actor/cooperative_actor.ipp:67-79 | a sender held up after finding the flag empty keeps the life cycle if and only if the flag is still empty and a message still waits |
| `LifeCycle.ReleaseStrandsIff` | header/actors-framework/impl/actor/cooperative_actor.ipp:108-112 | a step leaves messages without a job if and only if it is a release that clears the flag while messages wait and no sender is between push and mark, or they were left before and it is no push |
| `LifeCycle.StrandedIff` | header/actors-framework/impl/actor/cooperative_actor.ipp:108-112 | over runs: messages are without a job if and only if such a release has happened and nothing has been pushed since |
| `LifeCycleWitness.StaleMarkBreaksFetch` | header/actors-framework/impl/actor/cooperative_actor.ipp:67-79 | a run in which a sender marks the actor after its message has been handled, and a fetch meets a blocked queue |
| `LifeCycleWitness.StaleMarkMakesTwoJobs` | header/actors-framework/impl/actor/cooperative_actor.ipp:67-79 | a run in which two senders mark the actor, and it is in the job list twice |
| `ExecutorRuns.EveryOccurrenceInOnePlace` | header/actors-framework/executor/worker.hpp:80-108 | job conservation over every run: each occurrence given to execute is at one list position, with one worker, or released - exactly once, never for resume |
| `ExecutorRuns.PlaceStep` | header/actors-framework/executor/worker.hpp:80-108 | every step moves an occurrence only along list, worker, list again or released |
| `ExecutorRuns.ReleaseStep` | header/actors-framework/executor/worker.hpp:87-106 | a step releases an occurrence's reference exactly when the occurrence disappears |
| `ExecutorRuns.DispatchIsFifo` | header/actors-framework/executor/policy/work_sharing.hpp:35-72 | over every run what has been dispatched followed by the list is what has been enqueued, in order |
| `ExecutorRuns.QueuedBeforeStopGoesFirst` | header/actors-framework/executor/executor.hpp:58-111 | everything enqueued before stop is dispatched before the first shutdown |
| `ExecutorRuns.OnlyUserJobsBeforeStop` | header/actors-framework/executor/executor.hpp:58-111 | no shutdown is posted or running before stop |
| `ExecutorRuns.HandshakeAlways` | header/actors-framework/executor/executor.hpp:90-111 | over every run at most one shutdown is in flight, and alive_workers are the workers not yet acknowledged as stopped |
| `ExecutorRuns.StopIsNeverStuck` | header/actors-framework/executor/executor.hpp:101-107 | from every moment at which stop waits, whatever user jobs return, workers alone bring the answer about within a number of steps bounded by the shutdown's position in the list |
| `ExecutorRuns.StopFinishes` | header/actors-framework/executor/executor.hpp:101-121 | from every moment after stop has begun, whatever user jobs return, stop and the workers reach its end within a bounded number of steps: every worker has left its loop and the list is empty |
| `ExecutorRuns.EachRoundRemovesOne` | header/actors-framework/executor/executor.hpp:109-110 | each round removes exactly one worker, an ended one, so the loop's measure falls by one |
| `ExecutorRuns.OneShutdownPerWorker` | header/actors-framework/executor/executor.hpp:64-72 | over every run a worker has run one shutdown exactly when its loop has ended, and never two |
| `ExecutorRuns.LoopEndsWithAllStopped` | header/actors-framework/executor/executor.hpp:113-121 | after the loop every worker has ended; the cleanup releases exactly the leftovers and empties the list |
| `WorkSharing.JobList.Enqueue` | header/actors-framework/executor/policy/work_sharing.hpp:35-42 | the job is appended |
| `WorkSharing.JobList.Dequeue` | header/actors-framework/executor/policy/work_sharing.hpp:64-72 | the first job is removed |
| `WorkSharing.JobList.ForeachCentral` | header/actors-framework/executor/policy/work_sharing.hpp:78-93 | the draining loop applies f to every job once, in order, and leaves the list empty |
| `WorkSharing.PerformOnList` | header/actors-framework/executor/worker.hpp:80-108 | the list inside the executor's machine moves exactly as the list object does |
| `RefCounted.CountIsExact` | header/actors-framework/detail/ref_counted.hpp:20-32 | every step keeps rc_ equal to the references not yet given up, and deletes exactly when it gives up the last |
| `RefCounted.DeletedOnceByTheLast` | header/actors-framework/detail/ref_counted.hpp:20-32 | over every interleaving the object is deleted once, by the last holder, never while another holds it |
| `RefCounted.CountIsAddsLessDerefs` | header/actors-framework/detail/ref_counted.hpp:20-32 | over every run the counter is one, plus the references taken, less the derefs completed |
| `RefCounted.EachReferenceTestedOnce` | header/actors-framework/detail/ref_counted.hpp:24-27 | over every run the deref of a reference is begun at most once each time it is taken |
| `RefCounted.DerefIsProgress` | header/actors-framework/detail/ref_counted.hpp:24-27 | every step of a deref, test or fetch_sub, brings the end of all derefs nearer |
| `RefCounted.DerefsDelete` | header/actors-framework/detail/ref_counted.hpp:24-27 | from every state the holders' derefs delete the object, within two steps for each reference |
| `AlignedAllocate.IsPow2Iff` | header/actors-framework/detail/aligned_allocate.hpp:12 | n & (n-1) is zero if and only if n is zero or a power of two |
| `AlignedAllocate.RoundUpClearsRemainder` | header/actors-framework/impl/detail/aligned_allocate.ipp:18-19 | without wrap-around the mask form subtracts the remainder |
| `AlignedAllocate.RoundUpIsLeastMultiple` | header/actors-framework/impl/detail/aligned_allocate.ipp:18-19 | it is the least multiple of the alignment not below the address |
| `AlignedAllocate.ZeroSlipsThrough` | header/actors-framework/detail/aligned_allocate.hpp:20 | alignment zero passes the assertion and rounds every address to null |
| `AlignedAllocate.Align` | header/actors-framework/impl/detail/aligned_allocate.ipp:17-24 | for a power of two without wrap-around of the address the stepwise branch answers as std::align when the padding fits into the space or the wrapped remainder is too small; otherwise it grants the request and reports the wrapped remainder as space |
| `AlignedAllocate.AlignAgreesWithStandardIff` | header/actors-framework/impl/detail/aligned_allocate.ipp:11-34 | it returns and leaves behind what std::align does (section 23.10.5 of ISO/IEC 14882:2017) if and only if the padding fits into the space or the wrapped remainder is still too small |
| `AlignedAllocate.AlignGrantsWhatDoesNotFit` | header/actors-framework/impl/detail/aligned_allocate.ipp:17-24 | one byte aligned by eight at address one with no space at all is granted, where std::align answers null |
| `AlignedAllocate.AllocationFits` | header/actors-framework/detail/aligned_allocate.hpp:18-29 | although align is told a space one word too large, the aligned address leaves room for the offset word in front and the user's bytes behind, inside the raw block |
| `AlignedAllocate.LoadStored` | header/actors-framework/detail/aligned_allocate.hpp:30-34 | a word stored byte by byte is read back |
| `AlignedAllocate.Heap.Allocate` | header/actors-framework/detail/aligned_allocate.hpp:18-35 | an aligned address inside the block, the offset stored in front of it, no other byte changed |
| `AlignedAllocate.Heap.Deallocate` | header/actors-framework/detail/aligned_allocate.hpp:37-47 | the address given back is the pointer minus the stored offset |
| `AlignedAllocate.UserWritesKeepOffset` | header/actors-framework/detail/aligned_allocate.hpp:42-46 | writes to the user's bytes, whatever they are, do not disturb the offset word |
| `AlignedAllocate.RoundTrip` | header/actors-framework/detail/aligned_allocate.hpp:18-47 | allocate, write anything to the user's bytes, deallocate: the original address comes back |

## Left out

- Weak memory orders: every atomic access is one sequentially consistent step. Clock time is a timeout that may happen whenever the timed reader waits.
- The pointer values of the two dummies (single_reader_queue.hpp:313-323): they are constructors of a datatype, distinct from every node.
- Operating-system mutexes, condition variables and threads: a lock owner and a waiting reader, with spurious wake-ups allowed. Fairness is not modelled, so "can be woken" and "never stuck" say that the step exists, not that it is taken.
- Message bodies, handlers, supervisors, contacts, links, addresses and logging: a message is an opaque identifier with a priority.
- The cache inside the concurrent queue machine: only the reader touches it; its linked form is in `PartitionedList`, its use by close, count and peek_all in `SingleReaderQueue`, its use by the actor in `CooperativeActor`.
- Interleavings inside `count`, `peek` and `peek_all`: these are modelled in `SingleReaderQueue` while nobody enqueues; the fetch they call is covered under every interleaving by the queue machine. `QueueIsFifo` is about runs without `count`, whose reordering has its own theorem.
- CooperativeActor.Actor.Run: mailbox and cache are sequences and iterators are positions; `next_message` on linked nodes is in `LinkedMailbox`, while nobody enqueues. Other threads' enqueues arrive in finite batches, so an endless stream of arrivals that keeps one run from returning is not covered. `activate` always answers true, as in the source.
- CooperativeActor.Actor.Enqueue: does not model an actor whose mailbox has been closed; nothing in `run`, `enqueue_base` or the release closes it.
- LifeCycle.LifeCycleInv: holds up to the first stale mark; the source does not prevent stale marks, as the witnesses show. Eventual delivery is not claimed: `LifeCycle.StrandedIff` says when messages wait for the next enqueue.
- LifeCycle.BusyIffOneJob: counts messages without telling them apart; their order is the subject of `CooperativeActor`.
- RefCounted.CountIsExact: counts with unbounded integers, as do the other counters (`handled_msgs`, `count`, `num_workers`); only the allocator's arithmetic needs the word width.
- The freeing of actors through `actor` and `supervisor` handles: the initial count of one is dropped by nobody.
- ExecutorRuns.StopIsNeverStuck: does not cover user jobs that never return; that the steps it gives are taken is fairness.
- The bookkeeping hooks of the policy (before_resume, after_completion and the like), which do nothing in work sharing, and the profiled executor and policy, whose header is not part of this model.
- `start`'s creation of workers: runs of the executor begin with any finite set of workers waiting for a job.
- AlignedAllocate.Heap.Allocate: a failing raw allocation and sums that wrap around are excluded; the original checks neither.
- Memory-resource wrappers, string views, the fake multiplexer, examples and tests.
