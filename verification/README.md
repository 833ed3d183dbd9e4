# Verified model of andren's concurrent and container core

andren is a C++20 Linux library. This project models, in Dafny, the parts of it that hold their own
state and algorithms, and proves what they are for:

- `SharedSlot.dfy`: the lock-free shared-memory channel with one writer and one reader.
- `MutexQueue.dfy`, `CircularQueue.dfy`: the double-buffered queue for many producers and one consumer,
  and the growing ring buffer.
- `TaskRuntime.dfy`, `TaskDistributor.dfy`, `EventLoopPumps.dfy`, `ServiceTable.dfy`, `ServiceOrder.dfy`,
  `ServiceCalls.dfy`, `Schedule.dfy`: the task distributor's queues and worker loops, the event loop's self-re-queuing pumps,
  and the service table sharded over the workers by key.
- `ThreadPool.dfy`: the thread pool and its shutdown rule.
- `Heaps.dfy`, `Timers.dfy`, `TimerPunctuality.dfy`: the binary and four-way heaps as one proof over the
  arity, and the timer manager on top of them, which runs no task early and hands out every due one.
- `IoService.dfy`, `IoRounds.dfy`: the life cycle of an I/O request through the ring, and one whole round of
  the service's thread.
- `RePoller.dfy`: one tick of the poller.
- `Alpn.dfy`: the protocol list of section 3.1 of RFC 7301, encoder and selection scan.
- `Runs.dfy`: runs of a transition system, shared by the concurrent models.

Concurrent components are transition systems. A function `Step` gives the state after one atomic event (a
load, a byte copied, a locked push, a flag test), or `None` if the event is not possible there. A schedule is
any finite sequence of events, so every lemma about `Exec(Step, initial, es)` is about every interleaving of
the threads involved. States carry histories (messages written, tasks accepted, operations issued) that the
lemmas speak about; separate lemmas tie these histories to the events of the schedule. Code that runs on one thread is also given as classes with the source's own loops and
updates; their methods are proved against the same transition systems or against the functions that the
lemmas are about. `dafny verify dfyconfig.toml` checks the whole project.

The code differs from its documentation, or from what one would expect, in these places, and the model
follows the code:

- `ThreadPool::exec` tests `isExit` before it takes the lock, so it can accept a task that is never run
  (`ThreadPool.LateTaskIsLost`); `ThreadPool.RunIffEnqueuedBeforeReturn` says exactly which tasks are run.
- `addService` schedules the unsigned key and the other table operations the signed one, so they agree
  exactly on the keys that `Schedule.SameWorkerIff` describes.
- A table operation made inside the `before` callback of the same thread's deletion of that service overtakes
  the deletion (`ServiceOrder.OrderCanBeCrossed`); `ServiceCalls.OrderKeptIff` says that this is the only way
  to break the order, and `ServiceCalls.EveryCallTakesEffectOnce` that even then no operation is lost.
- The closed tests of the shared-memory channel also hold on a channel that has not been used yet
  (`SharedSlot.ClosedTestsMeaning`).
- `submitRequest_Private` stores the context before it may refuse the request, and a refused request's context
  stays stored. `sqe_used` and `entries_size` return each other's field, so the notifier gives up early only
  for a ring of size 0 (the `EndPrepare` event).
- `notifyEvents` replaces an earlier event for the same descriptor, and a failed wait drops custom events.
- An unregistered protocol name ends the selection with -3. `appendProtocolOnList` cuts names of 256 bytes or
  more; `Alpn.DecodeInvertsEncodeIff` says exactly when decoding undoes encoding.
- Deadlines are sums in 64-bit arithmetic that can wrap (`Timers.OverflowFiresEarly`).
- `FURTURE_TASK` tasks never go to the last of several workers (`TaskDistributor.IndexForType`).

## Model

| member | source | states |
|---|---|---|
| SharedSlot.SlotIsExclusive | source/extention/freelock_smem.cpp:50-135 | in every interleaving, from a true `writable()` to the publish of `current_uid` no read is in progress and from a true `readable()` to the publish of `already_uid` no write is; no writer step changes the slot under a reader |
| SharedSlot.DeliveredIsWritten | source/extention/freelock_smem.cpp:58-135 | in every run, with either end closing between its operations, the delivered messages are the written ones cut to 4096 bytes, or those without the last |
| SharedSlot.TestsAreExact | source/extention/freelock_smem.cpp:50-126 | through every 127-to-1 wrap the two 8-bit comparisons hold exactly when unbounded counters say one message is unread, or none; a closed writer leaves nothing readable; a closed reader leaves only an unused channel writable |
| SharedSlot.WritableAnswersExactly | source/extention/freelock_smem.cpp:50-56 | in every interleaving, the answer of `writable()` is true exactly when as many messages are delivered as written, or, with the reader closed, when none was written |
| SharedSlot.ReadableAnswersExactly | source/extention/freelock_smem.cpp:120-126 | in every interleaving, whatever the writer does between the two loads, the answer of `readable()` is true exactly when one message was unread at the first load and the writer had not closed |
| SharedSlot.ReadableIffUnread | source/extention/freelock_smem.cpp:120-126 | with nothing between the loads and the writer open, `readable()` is true exactly when one more message is written than delivered |
| SharedSlot.ClosedTestsMeaning | source/extention/freelock_smem.cpp:77-141 | what -1 in each id means: the end has closed, or nothing has been written or read yet |
| SharedSlot.HistoriesAreTheCalls | source/extention/freelock_smem.cpp:58-135 | the written history is the messages given to `write_some`, in call order, and there is one delivery per finished `read_some` |
| SharedSlot.Cut | source/extention/freelock_smem.cpp:61 | the part of a message the slot holds is its prefix of min(length, 4096) bytes |
| SharedSlot.NothingReadableAfterWriterCloses | source/extention/freelock_smem.cpp:33-37 | in every continuation after the writer closes, nothing is written and nothing becomes readable |
| SharedSlot.NothingDeliveredAfterReaderCloses | source/extention/freelock_smem.cpp:104-108 | in every continuation after the reader closes, nothing is delivered and at most one more message is published |
| SharedSlot.ConsecutiveIds | source/extention/freelock_smem.cpp:67-73 | publishing gives the next id of -1, 0, 1, ..., 127, 1, ..., and the reader's comparison sees the later of two consecutive ids as later |
| SharedSlot.WriterStepKeepsInv | source/extention/freelock_smem.cpp:50-75 | every single load, byte copy and store of the writer keeps the channel invariant |
| SharedSlot.ReaderStepKeepsInv | source/extention/freelock_smem.cpp:120-135 | every single load, byte copy and store of the reader keeps the channel invariant |
| SharedSlot.AlwaysInv | source/extention/freelock_smem.cpp:16-25 | the channel invariant holds after every interleaving from a freshly created block |
| SharedSlot.SharedBlock.Writable | source/extention/freelock_smem.cpp:50-56 | performs the two loads of the transition system and answers true exactly when the two ids were equal, which is when the writer may enter the slot |
| SharedSlot.SharedBlock.CompareForWrite | source/extention/freelock_smem.cpp:54-55 | the second load and the comparison, for any value seen by the first load |
| SharedSlot.SharedBlock.WriteSome | source/extention/freelock_smem.cpp:58-75 | performs begin, one event per byte, size and publish, leads the block to the resulting state, and returns the length of the cut message |
| SharedSlot.SharedBlock.Readable | source/extention/freelock_smem.cpp:120-126 | performs the two loads of the transition system and answers true exactly when `current_uid` was larger, or was 1 with `already_uid` at 127, which is when the reader may enter the slot |
| SharedSlot.SharedBlock.CompareForRead | source/extention/freelock_smem.cpp:124-125 | the second load and the comparison, for any value seen by the first load |
| SharedSlot.SharedBlock.ReadSome | source/extention/freelock_smem.cpp:128-135 | performs the size load, one event per byte, the id load and the publish, and delivers the bytes it copied |
| SharedSlot.SharedBlock.CloseWriter | source/extention/freelock_smem.cpp:33-37 | performs the writer's closing event |
| SharedSlot.SharedBlock.CloseReader | source/extention/freelock_smem.cpp:104-108 | performs the reader's closing event |
| SharedSlot.SharedBlock.ReadendClosed | source/extention/freelock_smem.cpp:77-81 | true exactly when `already_uid` is -1 |
| SharedSlot.SharedBlock.WritendClosed | source/extention/freelock_smem.cpp:137-141 | true exactly when `current_uid` is -1 |
| MutexQueue.TakenThenQueuedIsPushed | include/base/mutex_que.hpp:32-105 | for any number of producers and one consumer mixing both takes and put-backs, taken ++ front ++ tail is the sequence of the pushes of the schedule |
| MutexQueue.TakeRemovesOldest | include/base/mutex_que.hpp:71-105 | from any reachable state an undisturbed take removes the oldest element, or for `takeMulti` the whole front buffer, or the whole tail if the front is empty, and nothing else |
| MutexQueue.PutBackRestores | include/base/mutex_que.hpp:32-44 | putting a whole `takeMulti` batch back restores the logical queue, followed by whatever was pushed in between |
| MutexQueue.StepKeepsInv | include/base/mutex_que.hpp:46-105 | every locked push, unlocked test, locked swap, take and put-back keeps the conservation law |
| MutexQueue.MutexQue.AppendFromDeque | include/base/mutex_que.hpp:32-44 | where the elements land, and that this is in front of the whole queue if and only if the front buffer commutes with them |
| MutexQueue.MutexQue.PushBack | include/base/mutex_que.hpp:46-60 | appends to the logical queue |
| MutexQueue.MutexQue.TakeOne | include/base/mutex_que.hpp:71-89 | takes the oldest element, or leaves the caller's optional untouched when there is none |
| MutexQueue.MutexQue.TakeMulti | include/base/mutex_que.hpp:91-105 | takes the whole front buffer, or the whole tail if the front is empty, and leaves the front empty; leaves the caller's deque untouched when there is nothing |
| MutexQueue.MutexQueCircle.PushBack | include/base/mutex_que.hpp:243-257 | appends to the logical queue over the ring buffers |
| MutexQueue.MutexQueCircle.TakeOne | include/base/mutex_que.hpp:268-286 | takes the oldest element over the ring buffers, or leaves the caller's optional untouched |
| CircularQueue.RingRefinesQueue | include/base/circleque.hpp:81-225 | over any mix of pushes, pops and clears on a new queue: same contents and same results as a plain queue, `size` is its length and below the capacity, moves at most twice the pushes, capacity at most the larger of 16, the requested size and twice the peak |
| CircularQueue.AddAppends | include/base/circleque.hpp:128-197 | each of the insertion cases appends; the vector doubles exactly when the new element fills it, and then every stored element is moved once |
| CircularQueue.PopTakesOldest | include/base/circleque.hpp:199-225 | each removal case takes the oldest element and keeps the vector |
| CircularQueue.IndicesDescribeContents | include/base/circleque.hpp:91-108 | equal indices mean empty and never full, and `size` counts the stored elements |
| CircularQueue.ApplyKeepsRunInv | include/base/circleque.hpp:117-225 | every operation is possible and keeps the ring equal to the plain queue and the amortised bound |
| CircularQueue.CircularQueue.PushBack | include/base/circleque.hpp:128-197 | the case analysis and copy loops compute the specified ring and append |
| CircularQueue.CircularQueue.Rotated | include/base/circleque.hpp:175-184 | the two copy loops put the oldest element first |
| CircularQueue.CircularQueue.PopFront | include/base/circleque.hpp:199-225 | removes and returns the oldest element, or nothing when empty |
| CircularQueue.CircularQueue.Front | include/base/circleque.hpp:81-84 | the oldest element |
| CircularQueue.CircularQueue.IsEmpty | include/base/circleque.hpp:91-94 | true exactly when nothing is stored |
| CircularQueue.CircularQueue.Count | include/base/circleque.hpp:101-108 | the number of stored elements |
| CircularQueue.CircularQueue.Clear | include/base/circleque.hpp:117-124 | empties the queue and keeps the capacity |
| CircularQueue.CircularQueue.Swap | include/base/circleque.hpp:110-115 | exchanges the two queues |
| TaskRuntime.AcceptedIsBegunThenPending | source/extention/task_distributor.cpp:60-168 | in every reachable state, whatever tasks add or run nested, accepted = begun ++ rest of batch ++ front ++ tail for each worker |
| TaskRuntime.JoinedWorkerIsClean | source/extention/task_distributor.cpp:115-146 | once a worker's loop has ended, begun is a prefix of accepted, no batch is half done, and nothing more is begun in any continuation |
| TaskRuntime.StepKeepsQueue | source/extention/task_distributor.cpp:60-168 | every step of every thread keeps the conservation law and the batch discipline of every worker |
| TaskRuntime.RunGrows | source/extention/task_distributor.cpp:60-168 | over any run the histories of accepted and begun tasks only grow |
| TaskRuntime.LoopStepKeepsQueue | source/extention/task_distributor.cpp:140-168 | the loop test, `takeMulti` and the end of a batch move tasks without changing their order |
| TaskRuntime.AddedTaskGoesToItsWorker | source/extention/task_distributor.cpp:60-99 | an added task goes behind everything queued on worker `index`, or on the last worker if `index` is too large, and no other worker changes; `addTask_ASAP` from that worker begins it at once inside the calling task and leaves the queue alone, and from anywhere else queues it like `addTask` |
| TaskRuntime.WorkerExitsIff | source/extention/task_distributor.cpp:140-146 | of all steps only a worker's own loop test ends its loop, and it does so exactly when the exit flag is set; otherwise the worker goes on to its queue |
| TaskRuntime.NoExitWithoutShutdown | source/extention/task_distributor.cpp:115-146 | in every reachable state the exit flag is set exactly after `shutdown`, and no worker's loop has ended without it |
| TaskRuntime.TakesWholeBuffer | source/extention/task_distributor.cpp:148-159 | the take of a worker makes its batch everything in the front buffer, or everything in the tail if the front is empty; with nothing in either the worker returns to the loop test |
| TaskRuntime.SwappedFrontIsStable | include/base/mutex_que.hpp:91-105 | between the swap and the second look at the front buffer no step of any other thread changes the front buffer; they only lengthen the tail |
| TaskDistributor.IndexForType | source/extention/task_distributor.cpp:33-58 | an I/O task goes to worker 0, a schedule task to worker 1 of several, and a future task to the remainder of the clock reading, never the last of several workers |
| TaskDistributor.WorkerThread.AddTask | source/extention/task_distributor.cpp:60-75 | accepts exactly non-empty tasks while the threads run, and appends them |
| TaskDistributor.WorkerThread.Work | source/extention/task_distributor.cpp:148-168 | begins exactly the tasks that were queued, each once and in order, while running tasks add more behind them |
| TaskDistributor.WorkerThread.RunBody | source/extention/task_distributor.cpp:161-167 | tasks added by a running task go behind the batch |
| EventLoopPumps.ExactlyOnePump | source/extention/event_loop.cpp:68-116 | after one `start`, every worker always has exactly one pump queued or running, and none before its turn |
| EventLoopPumps.AtMostOnePumpAhead | source/extention/event_loop.cpp:87-116 | while an accepted task has not begun, its worker starts at most one more pump |
| EventLoopPumps.StepKeepsPumps | source/extention/event_loop.cpp:87-116 | every step of every thread keeps the pump count of every worker |
| ServiceTable.ShardsAreOneFlatMap | source/extention/event_loop.cpp:118-186 | in every reachable state the shards together are the one table obtained by applying the operations in order of effect, each key in the shard its remainder names and no other |
| ServiceTable.FindSeesFlatMap | source/extention/event_loop.cpp:167-186 | the findings are exactly those of the finds that took effect, each once and in order, and each is what that one table held at that point |
| ServiceTable.LastWriteWins | source/extention/event_loop.cpp:118-165 | in that table a key has the service of the last addition or modification of it, or is absent if a deletion came last |
| ServiceTable.UnwrittenIsAbsent | source/extention/event_loop.cpp:118-165 | a key that no operation wrote is absent |
| ServiceTable.OwnCallsNeverWait | source/extention/event_loop.cpp:188-204 | in every reachable state no operation that a worker's own task made on its own shard waits in that worker's queue |
| ServiceTable.WorkerNeverStuck | source/extention/task_distributor.cpp:140-168 | in every reachable state a worker that has not left its loop can make a step of its own, if and only if its next task is not the deletion of an absent service |
| ServiceTable.ShardChangedOnlyByOwner | source/extention/event_loop.cpp:118-186 | a shard is changed only by its own worker's thread |
| ServiceTable.OwnerIsRemainder | source/extention/event_loop.cpp:118-186 | for keys below 2^63 add, mod, del and find choose the same worker |
| ServiceTable.StepKeepsTable | source/extention/event_loop.cpp:118-204 | every step of every thread keeps operations on their own shard and the shards equal to the flat map |
| ServiceTable.StepKeepsReplay | source/extention/event_loop.cpp:118-186 | every step keeps the flat map equal to the replay of the effects and the findings equal to those of the finds among them |
| ServiceTable.Shard.AddTaskBody | source/extention/event_loop.cpp:125-128 | stores the service under its key and changes no other key, as the operation means |
| ServiceTable.Shard.ModTaskBody | source/extention/event_loop.cpp:160-163 | stores the service under its key and changes no other key, as the operation means |
| ServiceTable.Shard.DelTaskBody | source/extention/event_loop.cpp:140-148 | gives the callback the stored service and removes exactly that key |
| ServiceTable.Shard.FindTaskBody | source/extention/event_loop.cpp:175-184 | gives the callback the stored service, or nothing when the key is absent |
| ServiceOrder.EffectsFollowIssueOrderIff | source/extention/event_loop.cpp:118-204 | in every run, one thread's operations on one key take effect in issue order, if and only if the thread never operated on the key inside its own deletion's `before` callback |
| ServiceOrder.OrderCanBeCrossed | source/extention/event_loop.cpp:132-150 | a run in which an addition made inside the callback overtakes the deletion |
| ServiceOrder.StepKeepsOrder | source/extention/event_loop.cpp:118-204 | every step of every thread keeps issued = in effect ++ being deleted ++ waiting, for every thread and key not crossed |
| ServiceCalls.EveryCallTakesEffectOnce | source/extention/event_loop.cpp:118-204 | in every run each operation has been called as often as it has taken effect, is being carried out by the worker its key names, or waits there: none is lost and none takes effect twice |
| ServiceCalls.OrderKeptIff | source/extention/event_loop.cpp:118-204 | in every run one thread's operations on one key take effect in the order of the calls in the schedule, if and only if no call in the schedule is made inside that thread's own deletion of the key; then the rest follow in order on the worker the key names |
| ServiceCalls.CrossedIff | source/extention/event_loop.cpp:132-150 | the record of crossed threads and keys holds exactly those for which some event of the schedule is such a call |
| ServiceCalls.IssuedIsTheCalls | source/extention/event_loop.cpp:118-186 | the issued history is the table operations of the schedule, in its order |
| ServiceCalls.StepCounts | source/extention/event_loop.cpp:118-204 | a step of any thread adds an operation to those in effect, in progress or waiting exactly when it is the call of that operation |
| Schedule.SameWorkerIff | source/extention/schedule.cpp:26-35 | the signed and the unsigned schedule of a key agree if and only if the key is below 2^63 or 2^64 minus twice the key is a multiple of the number of workers |
| Schedule.LargeKeyCanMiss | source/extention/schedule.cpp:26-35 | a key and a number of workers for which they differ |
| ThreadPool.EnqueuedBeforeExitIsRun | source/base/threadpool.cpp:27-57 | whatever a worker's queue had received in a state before `isExit` was set, or later but before the worker's loop returned, has been run in enqueue order once the loop has returned, and it returns only with `isExit` set |
| ThreadPool.TasksReachTheChosenWorker | include/base/threadpool.hh:35-48 | in every run, for every worker, the tasks ever put into its queue and those of calls about to take its lock are together the tasks of the `exec` calls that named this worker before `isExit` was set, each as often; a call for a thread the pool does not have reaches no queue |
| ThreadPool.WorkerNeverStuck | source/base/threadpool.cpp:27-57 | in every reachable state a worker can make a step of its own if and only if its loop has not returned |
| ThreadPool.BegunIsPrefixOfEnqueued | source/base/threadpool.cpp:27-57 | in every run each worker has begun a prefix of its tasks, each once and in order |
| ThreadPool.RunIffEnqueuedBeforeReturn | include/base/threadpool.hh:35-48 | after a worker's loop has returned, a task of its queue has been run if and only if it was enqueued before the return, in every continuation |
| ThreadPool.ExecRefusesAfterExit | include/base/threadpool.hh:35-48 | once `isExit` is set, a queue receives in any continuation at most as many tasks as calls had already passed the test |
| ThreadPool.LateTaskIsLost | include/base/threadpool.hh:35-48 | a run in which an accepted task is never run |
| ThreadPool.StepKeepsInv | source/base/threadpool.cpp:112-139 | every step of callers and workers keeps enqueued = begun ++ rest of batch ++ queue and the exit rule |
| ThreadPool.PerThread.Emplace | include/base/threadpool.hh:42-45 | the locked enqueue |
| ThreadPool.PerThread.Turn | source/base/threadpool.cpp:31-57 | one turn of the loop performs steps of the transition system: it drains everything queued, or returns exactly when empty and exiting |
| ThreadPool.PerThread.Drain | source/base/threadpool.cpp:40-43 | runs a batch from front to end, each task once |
| Heaps.BinaryAndFourWayAgree | include/base/fourwayheap.hpp:65-174 | for every sequence of pushes and extractions the binary and the four-way heap return the same keys |
| Heaps.ArityDoesNotShow | include/base/binaryheap.hpp:64-183 | heaps of any two arities over the same keys return the same keys, stay heaps and stay over the same keys |
| Heaps.PushCorrect | include/base/binaryheap.hpp:64-68 | a push keeps heap order and adds exactly its pair, for any arity |
| Heaps.RemoveMinCorrect | include/base/binaryheap.hpp:79-94 | an extraction returns a pair of least key, removes exactly it, and keeps heap order, for any arity |
| Heaps.PushSwapsLogarithmic | include/base/binaryheap.hpp:146-153 | k swaps in a push giving n elements imply d^k <= (d-1)n - (d-2): 2^k <= n for the binary heap, 4^k <= 3n - 2 for the four-way heap |
| Heaps.ExtractSwapsLogarithmic | include/base/fourwayheap.hpp:151-174 | the same bound for the swaps of an extraction |
| Heaps.SiftUpOrders | include/base/fourwayheap.hpp:142-149 | sifting up repairs a heap that is wrong only above one place |
| Heaps.SiftDownOrders | include/base/fourwayheap.hpp:151-174 | sifting down repairs a heap that is wrong only below one place |
| Heaps.LeastIsLeast | include/base/fourwayheap.hpp:155-162 | the child scan finds a least key and stays on the place or one of its children |
| Heaps.ParentOfChild | include/base/fourwayheap.hpp:132-140 | `parent` undoes `child` |
| Heaps.MinHeap.PushPair | include/base/binaryheap.hpp:64-68 | the loop computes the specified heap; heap order and the pairs are kept |
| Heaps.MinHeap.SiftUpFrom | include/base/binaryheap.hpp:146-153 | the loop computes the specified heap and its number of swaps |
| Heaps.MinHeap.SiftDownFrom | include/base/binaryheap.hpp:155-183 | the loop computes the specified heap and its number of swaps |
| Heaps.MinHeap.LeastChild | include/base/fourwayheap.hpp:155-162 | the child loop computes the specified place |
| Heaps.MinHeap.LeastOfTwo | include/base/binaryheap.hpp:159-171 | the two written-out tests compute the same place as the child loop at arity 2 |
| Heaps.MinHeap.MinPair | include/base/binaryheap.hpp:70-77 | the first pair, whose key is least, or nothing |
| Heaps.MinHeap.ExtractMinPair | include/base/binaryheap.hpp:79-94 | returns and removes a pair of least key, conserving the others, or nothing |
| Timers.NeverFiresEarly | include/base/timermanager.hpp:59-90 | in any run with a clock that never goes back and no 64-bit overflow, the k-th run of a task is never before its creation plus k intervals |
| Timers.CheckReturnsExactlyDue | include/base/timermanager.hpp:66-77 | `check` returns exactly the tasks due, in deadline order, leaves exactly the others, and conserves the multiset, over a heap of any arity |
| Timers.DeadlineExactUnlessOverflow | include/base/timermanager.hpp:59-64 | a deadline is now plus the interval if and only if that sum is below 2^64, and is 2^64 less otherwise |
| Timers.OverflowFiresEarly | include/base/timermanager.hpp:59-64 | a run in which a wrapped deadline fires an interval early |
| Timers.StepKeepsInv | include/base/timermanager.hpp:59-90 | creation, clock, check and execution keep every pending task unique and none of them early |
| Timers.TimerManager.CreateTask | include/base/timermanager.hpp:59-64 | adds exactly one entry, whose key is now plus the interval, less 2^64 if that sum does not fit |
| Timers.TimerManager.CheckDue | include/base/timermanager.hpp:66-77 | returns exactly the due entries in deadline order and leaves the others |
| Timers.TimerManager.Drain | include/base/timermanager.hpp:71-75 | the loop computes the specified split |
| Timers.TimerManager.ProxyExecPair | include/base/timermanager.hpp:79-90 | throws exactly for an empty task, and adds one entry an interval from now exactly when the task asks for it |
| TimerPunctuality.DueTaskIsHandedOut | include/base/timermanager.hpp:59-90 | in any run that ends with a `check`, a task scheduled and not run since has been handed out if and only if its latest scheduling plus its interval is not after the present time, and is still in the heap otherwise, provided that sum did not wrap |
| TimerPunctuality.ProxyExecKeepsPunctual | include/base/timermanager.hpp:79-90 | after a task has been run it is pending if and only if it asked to run again, and the accounts of schedulings and runs balance |
| TimerPunctuality.StepKeepsPunctual | include/base/timermanager.hpp:59-90 | every event keeps each pending key the deadline of the task's latest scheduling, and each task scheduled once more than run exactly while it is pending |
| TimerPunctuality.HistoriesAreTheCalls | include/base/timermanager.hpp:59-90 | clock, creations, runs and schedulings are those of the events of the run |
| TimerPunctuality.OverflowedIff | include/base/timermanager.hpp:59-64 | a run counts as overflowed exactly when some scheduling in it has a deadline of 2^64 or more |
| IoService.UsedCountsRingEntries | source/extention/io_service.cpp:163-276 | over any run, entries prepared minus completions consumed is `m_used`, which is the number of entries in the ring |
| IoService.InFlightContextIsLive | source/extention/io_service.cpp:255-301 | every entry whose callback has not run names a stored context, the one it was submitted with, so the handler always finds it |
| IoService.EachCompletionRunsItsCallbackOnce | source/extention/io_service.cpp:68-301 | each completion is handled once and runs its own request's callback; refused requests keep their context and are never handled; every request is in exactly one place |
| IoService.ContextForgottenIff | source/extention/io_service.cpp:291-300 | in every reachable state, after handling an event its context is stored if and only if the request has a callback and it answered false; no other context changes |
| IoService.StoredContextsAreExact | source/extention/io_service.cpp:68-301 | over any run the stored contexts are exactly those of refused requests, of entries in flight and of handled requests whose callback answered false; only the eight preparable kinds are ever in flight or handled |
| IoService.PrepareDecides | source/extention/io_service.cpp:68-166 | a request is prepared exactly if its kind is one of the eight the ring knows and an entry is free, and refused otherwise, its context stored either way |
| IoService.RoundSubmitsIff | source/extention/io_service.cpp:219-232 | after the requests of a round the service goes on to submit exactly if its ring has a size |
| IoService.ProcessedInSubmissionOrder | source/extention/io_service.cpp:54-66 | over any run processed ++ batch ++ queue is the submissions in order, and the recorded answers are those of the handled events |
| IoService.StepKeepsPlaced | source/extention/io_service.cpp:68-326 | every step of callers, service thread and kernel keeps each request in exactly one place |
| IoService.StepKeepsStored | source/extention/io_service.cpp:68-301 | every step keeps in-flight and refused contexts stored and the calls those of the handled requests |
| IoService.StepKeepsExactly | source/extention/io_service.cpp:68-301 | every step of callers, service thread and kernel keeps the stored contexts exact |
| IoService.StepKeepsCounts | source/extention/io_service.cpp:163-276 | every step keeps `m_used` equal to the entries in the ring |
| IoRounds.RequestsOfARound | source/extention/io_service.cpp:314-326 | from any reachable state between rounds, a round prepares or refuses every queued request in order, and then enters the ring exactly if it has a size |
| IoRounds.SystemCalls | source/extention/io_service.cpp:234-254 | what a failing or succeeding submit and wait leave, for any number of entries the kernel accepts |
| IoRounds.CompletionsOfARound | source/extention/io_service.cpp:256-301 | the rest of the round copies all completions, takes them off the ring and handles each once in ring order |
| IoRounds.RoundServesAll | source/extention/io_service.cpp:217-326 | an undisturbed round with system calls that succeed handles every completion that was there, in order, and ends between rounds with none left |
| IoService.IoServiceObject.SubmitRequest | source/extention/io_service.cpp:54-66 | queues the closure with its captured context |
| IoService.IoServiceObject.SubmitRequestPrivate | source/extention/io_service.cpp:68-166 | stores the context first, then accepts exactly when the kind is none of the three refused ones and an entry is free; the ring and `m_used` grow exactly then |
| IoService.IoServiceObject.WorkingRequest | source/extention/io_service.cpp:314-326 | takes the whole queue and prepares each request once, in order, as steps of the transition system |
| IoService.IoServiceObject.HandleEvent | source/extention/io_service.cpp:280-301 | calls the callback if there is one and erases exactly this context, unless a callback answered false |
| RePoller.BothWalksAgree | source/extention/repoller.cpp:156-182 | walking the event map and walking the callback map make the same calls |
| RePoller.ExpectedMeaning | source/extention/repoller.cpp:141-182 | those calls are: ascending descriptors, exactly the registered ones with a custom event or a report, each once, with the OR of its custom event and all its reports |
| RePoller.TickIgnoresReportOrder | source/extention/repoller.cpp:141-154 | the calls do not depend on the order in which epoll reported its events |
| RePoller.MergeIsOr | source/extention/repoller.cpp:141-154 | what the merge makes pending, and with which mask |
| RePoller.Poller.Work | source/extention/repoller.cpp:112-183 | a tick makes the expected calls whichever map it walks, uses up the custom events, and stops the poller exactly on a failed wait |
| RePoller.Poller.Tick | source/extention/repoller.cpp:99-110 | makes the calls of the tick for each of the three results of the wait, and asks for another tick exactly while the poller has not been stopped |
| RePoller.Poller.MergeLoop | source/extention/repoller.cpp:142-154 | the loop computes the specified merge |
| RePoller.Poller.DispatchByEvents | source/extention/repoller.cpp:158-170 | makes the expected calls |
| RePoller.Poller.DispatchByCallbacks | source/extention/repoller.cpp:171-182 | makes the expected calls |
| RePoller.Poller.NotifyEvents | source/extention/repoller.cpp:45-54 | accepts exactly registered descriptors other than 0 and -1, and replaces an earlier event |
| RePoller.Poller.SetReadyCallback | source/extention/repoller.cpp:62-70 | accepts exactly non-empty callbacks on descriptors other than 0 and -1 |
| Alpn.DecodeInvertsEncodeIff | source/base/ssl.cpp:265-283 | decoding an encoded list returns the encoded names if and only if each has 1 to 255 bytes |
| Alpn.EntryOfEncoded | source/base/ssl.cpp:265-283 | an encoded list holds at its k-th boundary the length byte of the k-th name and that many of its bytes, and the next boundary follows at once |
| Alpn.SelectDecidesAtFirst | source/base/ssl.cpp:149-196 | on such a list the scan passes over names registered without a callback, is decided by the first other name, and never reaches past the list |
| Alpn.SelectedIff | source/base/ssl.cpp:176-188 | a name is selected if and only if it is registered with an accepting callback and every earlier name is registered without one; the selected slice is the whole name |
| Alpn.CursorsOnBoundaries | source/base/ssl.cpp:166-171 | the cursor only ever stands on entry boundaries |
| Alpn.ContextCreator.AppendProtocolOnList | source/base/ssl.cpp:265-283 | appends the length byte and that many bytes, and on an encoded list gives the encoding of the longer list |
| Alpn.ContextCreator.SelectNextProtocol | source/base/ssl.cpp:149-196 | the loop returns the code and the slice of the specified scan |

## Left out

- Memory is sequentially consistent: the relaxed loads of `readable` (source/extention/freelock_smem.cpp:123-124) and other weak-memory effects are outside the model.
- SharedSlot.DeliveredIsWritten: assumes that callers gate on `writable()` and `readable()`, as example/example_freelockshmem.cpp does.
- Attaching a second owner to an existing shared block, which resets it, and moving a writer or a reader.
- ServiceTable.ShardsAreOneFlatMap: deleting an absent service, or one whose deletion is in progress, is undefined in the source and is not a step of the model; keys are below 2^63.
- The order in which a pump visits the services of its shard, and table changes during that iteration: what services do inside a pump is any sequence of runtime events.
- The validity test that table operations make before they are issued: it only refuses calls after shutdown.
- `TaskDistributor`, `EventLoop` and `IOService` as objects shared by several threads are modelled on values, as steps of transition systems; the classes here are the parts that one thread runs.
- Timed waits and notifications: a wake-up changes no state of the model.
- `std::deque` moved from is taken to be empty.
- IoService.EachCompletionRunsItsCallbackOnce: requests have distinct uids equal to `general.uid`, and every completion belongs to one prepared entry.
- The parameters that each kind of I/O request passes to the ring, and what the kernel does with them.
- RePoller.Poller.Work: callbacks do not change the callback table; a mask is the set of its bits.
- Alpn.ContextCreator.SelectNextProtocol: an entry that reaches past the list is not accepted as input; OpenSSL hands over well-formed lists. A callback is represented by its answer.
- Timers.NeverFiresEarly: tasks that throw, and callers that run a returned pair more than once, are not modelled.
- 64-bit overflow of sizes and indices in the containers and heaps.
- `MutexQueAlloc`, `MinHeap`, `Executor` and `KVPair`: same code over an allocator, or forwarders.
- `ThreadPoolPortable` has the loop of `ThreadPool` and is covered by the same model; `notifyThread` is left out.
- Socket, epoll, pipe, file, semaphore, thread and shared-memory wrappers, databases, compression, TLS input and output, HTTP/2 and coroutines.
