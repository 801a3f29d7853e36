# Verification of the sthread thread pool

This project models the thread pool of the sthread library, the bounded queue under it, its memory
pool, its semaphore and two of its example programs, and proves what they keep in every run, for every
number of threads and under every interleaving.

The pool is a step system (`PoolModel.dfy`). Any number of workers and clients share the queue, the pool
state, three counters, two queue conditions, and the wait lock with its condition. A critical section of
the queue lock is one step, ended by unlock or by going to sleep; every atomic access is a step of its
own; the wait lock has an explicit owner; the two loads of `thread_pool_wait` come in either order; a
signal wakes some sleeper if there is one, and sleepers may also wake spuriously. History logs record
what was accepted, popped, started and finished. On top of it:

- `PoolInvariant.dfy`: what every step keeps, part by part.
- `PoolSafety.dfy`: counters, exactly-once execution, shutdown, lost wake-ups, execution order.
- `PoolProgress.dfy`: no deadlock, every call returns, destroy terminates.
- `PoolWait.dfy`: what waiting guarantees, and when it does not.
- `PoolCall.dfy`: what submit, wait and destroy report and bring about, from call to return.
- `TaskQueue.dfy`, `ThreadPool.dfy`: the linked list and the pool as objects updated in place, proved to
  carry out exactly the steps of the step system. Most handlers of the pool object repeat the cases of
  the step functions on its fields; what the object adds is the push, pop and release steps on the linked
  list, and `Execute`, which follows any schedule.
- `MemoryPool.dfy`, `Rounding.dfy`: the free list inside the block it manages, and the round-up of sizes.
- `Semaphore.dfy`, `RingBuffer.dfy`: the semaphore, and the producers and consumers built on it.
- `Matrix.dfy`: the row tasks of parallel matrix multiplication.
- `PoolClient.dfy`, `RingProgram.dfy`, `MatrixProgram.dfy`: one client that submits a list of tasks, waits and
  destroys the pool, and the two example programs run that way, each step of a task taken by a worker that is
  inside it.
- `Collections.dfy`, `Totals.dfy`, `Arithmetic.dfy`: options and distinctness, weighted sums over threads,
  products and quotients.

Three places where the code and its documentation differ; the model follows the code.

- The documentation of `thread_pool_wait` (Readme.md:83) promises to wait for all tasks. The code
  counts a task as submitted after pushing it, so a task that is completed before it is counted can pay
  for another one that is not completed. `PoolWait.TwoClientsCanBeFooled` is such a run: a client submits a
  task, the call succeeds, and its wait returns while the task is still queued; one worker is enough.
  `PoolWait.WaitPromiseIffOneClient` shows that the promise holds exactly for pools with one client thread,
  `PoolWait.QuietWaitIsComplete` what several clients have to arrange for it to hold: that no submit is under
  way when wait is called, and none begins before it returns. The second can be dropped exactly for pools of
  one worker or one client, `PoolWait.CalmPromiseIff`. `PoolWait.WaitBound` says what holds in general.
- A comment in tests/test_pool.c:291 says that destroy discards pending tasks. It runs them all:
  `PoolSafety.ShutdownDrains`.
- Priorities are accepted (src/scheduler.c:75) but order nothing: the queue is first in, first out.

## Model

| member | source | states |
|---|---|---|
| PoolInvariant.StepKeepsInv | src/thread_pool.c:11-170 | Every step of any worker, submitter, waiter, destroyer or spurious wake-up keeps the whole invariant: queue order, counters, ticket ownership, wake-ups, lock ownership, load snapshots, life cycle |
| PoolInvariant.ReachedInv | src/thread_pool.c:41-112 | The invariant holds in every state any schedule reaches from creation, for every pool size of at least one, capacity and number of clients |
| PoolSafety.CountersConserved | src/thread_pool.c:18-31 | Submitted plus pushed-but-uncounted equals queued plus in hand plus completed; active_tasks is exactly the number of workers between its add and its subtract, and at most the pool size |
| PoolSafety.RunsAtMostOnce | src/thread_pool.c:18-31 | No accepted task starts or returns twice, a worker runs under a ticket the task that was accepted under it, and never a null function |
| PoolSafety.ShutdownDrains | src/thread_pool.c:119-130 | When the last worker has exited the queue is empty and every accepted task has started and returned exactly once |
| PoolSafety.NothingLeftToDiscard | src/thread_pool.c:126-135 | Once the last join has returned, task_queue_destroy finds no task, and all are done |
| PoolSafety.DrainedIsStable | src/scheduler.c:81-95 | In every run from there on, empty and shut down, the exit condition of a worker, is never left, and nothing more is accepted |
| PoolSafety.NeverAllAsleepWithWork | src/scheduler.c:119-121 | If all workers sleep, every accepted task is done |
| PoolSafety.SubmitReports | src/thread_pool.c:139-154 | Submit returns 0 exactly when its task was accepted and counted; otherwise the pool is shutting down, nothing was enqueued, and -2 or -1 says which check refused |
| PoolSafety.EarlyBreakUnreachable | src/thread_pool.c:18-26 | A worker holding a freshly popped task never finds the pool TERMINATED, so the early break drops no task |
| PoolSafety.OneShutdown | src/thread_pool.c:119-130 | Of any number of destroy calls at most one wins the compare-exchange, and TERMINATED implies that all workers have exited |
| PoolSafety.PhaseMovesForward | src/thread_pool.c:119-130 | Over every run the pool state only moves from RUNNING to SHUTDOWN to TERMINATED, and a closed queue stays closed |
| PoolSafety.NoLostQueueWakeUp | src/scheduler.c:87-137 | While workers sleep, queued tasks are at most the woken workers; while submitters sleep, free places are at most the woken submitters; after shutdown neither sleeps |
| PoolSafety.NoLostCompletionWakeUp | src/thread_pool.c:161-165 | A waiter asleep, or holding the wait lock and about to sleep, has completed < submitted or a broadcast still owed, whichever load came first |
| PoolSafety.NobodyAsleepAtTeardown | src/thread_pool.c:126-135 | From the exit of the last worker on, in every continuation, nobody is asleep on any of the three conditions |
| PoolSafety.SpuriousWaiterSleepsOn | src/thread_pool.c:163-165 | A waiter may wake without a broadcast; if the counts are still apart it sleeps on, whichever it loads first, and the pool is exactly as it was |
| PoolSafety.BoundedReordering | src/scheduler.c:97-103 | With W workers, at most W - 1 of the tasks accepted before one that a worker holds have not returned |
| PoolSafety.SoloRunsInPushOrder | src/scheduler.c:128-133 | With one worker, tasks start, and return, in exactly the order in which they were accepted |
| PoolProgress.StuckMeansAtRest | src/thread_pool.c:14-36 | Global deadlock freedom: no thread can move if and only if every call has returned, every accepted task has run once, and the workers all sleep or have all exited |
| PoolProgress.InternalStepShrinks | src/thread_pool.c:11-170 | Every step of a thread already at work lowers one measure over queue, workers and clients |
| PoolProgress.EveryCallReturns | src/thread_pool.c:114-170 | From every reached state, letting the threads at work go on is bounded by that measure, and where nobody can move every call has returned with its work done: wait with 0, submit with 0 or the code of a pool that is shut down, destroy with the pool shut down and its workers gone |
| PoolProgress.RestIsReachable | src/thread_pool.c:156-170 | From every state that satisfies the invariant some such schedule leads to rest |
| PoolProgress.DrainStep | src/scheduler.c:119-133 | After the queue's shutdown every worker step lowers the drain measure and no client step, old or new, raises it |
| PoolProgress.DrainIsBounded | src/thread_pool.c:124-128 | After the queue's shutdown the workers take boundedly many steps in every run, whatever calls other clients begin |
| PoolProgress.DrainGoesOn | src/thread_pool.c:124-128 | Until all workers have exited a worker can move, if need be after at most three steps of the one waiter that holds the wait lock, whichever of its loads comes first |
| PoolWait.WaitBound | src/thread_pool.c:156-170 | When wait returns, unfinished accepted tasks number at most the submitters between push and count at the first load plus the tasks accepted since |
| PoolWait.WaitIsComplete | src/thread_pool.c:149-170 | If there were none of either, every accepted task has finished, exactly once |
| PoolWait.QuietWaitIsComplete | src/thread_pool.c:149-170 | With any number of clients: if no submit is under way when wait is called and none begins before it returns, every task ever accepted has finished, exactly once |
| PoolWait.TwoClientsCanBeFooled | src/thread_pool.c:149-163 | With two clients and any number of workers there is a run in which wait returns while a task of the same client, submitted with success before, is still queued |
| PoolWait.WaitPromiseIffOneClient | src/thread_pool.c:156-170 | For every pool size and capacity: in all runs every wait covers all tasks whose submit had returned before it, if and only if the pool has at most one client |
| PoolWait.CalmCallCanBeFooled | src/thread_pool.c:149-163 | With two workers and two clients there is a run in which wait is called while no submit is under way and yet returns while a task accepted before the call has not finished, because a task submitted during the call pays for it |
| PoolWait.CalmPromiseIff | src/thread_pool.c:156-170 | For every pool size, capacity and number of clients: in all runs every wait called while no submit is under way covers all tasks submitted before it, if and only if the pool has one worker or at most one client |
| PoolCalls.SubmitReturns | src/thread_pool.c:139-154 | From call to return, whatever the others do: a null function is refused with -1, a pool that has begun to shut down refuses with -2, 0 is reported only if this very task has been accepted since and counted, and anything else only if the pool has begun to shut down meanwhile |
| PoolCalls.WaitReturns | src/thread_pool.c:156-170 | From call to return, whatever the others do: wait reports 0, and by then the unfinished tasks number at most the submitters between push and count at the call plus the tasks accepted since |
| PoolCalls.WaitRoundReturns | src/thread_pool.c:163-169 | From the first load of any round to the return: as many tasks have finished as were counted as submitted at that load |
| PoolCalls.QuietWaitReturns | src/thread_pool.c:156-170 | If no submit is under way at the call and none begins before the return, wait reports 0 and every task ever accepted has finished, exactly once |
| PoolCalls.DestroyReturns | src/thread_pool.c:119-135 | A destroy call that finds the pool RUNNING wins, and has returned only when TERMINATED is stored, the workers have exited and every accepted task has run once |
| PoolCalls.DestroyShutsDown | src/thread_pool.c:119-135 | In every run in which somebody calls destroy, once no call is under way the pool is TERMINATED, one call has shut it down, the queue is closed, the workers have exited and every accepted task has run once |
| PoolClients.StepKeepsCalled | src/thread_pool.c:139-154 | One client that submits a list of tasks, waits and destroys has them accepted in order, one per call, finds the pool running until its last call, and begins to shut it down by that |
| PoolClients.StepKeepsServed | src/thread_pool.c:156-170 | When its wait returns all tasks of the list have finished, and so they stay |
| PoolClients.AllBegun | src/thread_pool.c:18-29 | If nobody can move but workers inside tasks, and there are as many workers as tasks, then every task has finished or has a worker inside it |
| TaskQueues.TaskQueue.Push | src/scheduler.c:79-110 | Rejected, told to wait or appended, by the shutdown flag and capacity; the chain grows by the node at its tail, or the node is freed, or nothing changes |
| TaskQueues.TaskQueue.Pop | src/scheduler.c:117-146 | The first task of the chain is taken and its node freed; on an empty queue the caller waits or is told to exit |
| TaskQueues.TaskQueue.TryPop | src/scheduler.c:153-178 | The same without waiting, and regardless of the shutdown flag |
| TaskQueues.TaskQueue.Destroy | src/scheduler.c:42-53 | Every node left is freed once, none twice, in chain order |
| ThreadPools.ThreadPool.constructor | src/thread_pool.c:47-82 | A fresh pool is running, with as many workers as asked for, else one per core, else 4, each about to pop, and an empty queue of the capacity asked for, else of 1024; and it satisfies the invariant |
| ThreadPools.ThreadPool.PopTask | src/thread_pool.c:18-22 | The pop step of the step system, carried out on the linked list |
| ThreadPools.ThreadPool.PushTask | src/scheduler.c:67-110 | The push step of the step system, carried out on the linked list with a node made for it |
| ThreadPools.ThreadPool.Destroy | src/thread_pool.c:119-135 | The destroy steps on the object; the release step walks the linked list, which the invariant shows to be empty |
| ThreadPools.ThreadPool.Execute | src/thread_pool.c:11-170 | Any schedule leads the object exactly where it leads the step system |
| ThreadPools.ThreadPool.Simulate | src/thread_pool.c:41-112 | An object created and run under any schedule is in a reached state, so every theorem above holds of it |
| MemoryPools.AnySequenceKeepsSound | src/memory.c:127-161 | After any allocations, legal releases and writes the list repeats no slot, free and live slots are disjoint and cover the block, and list length plus live slots is the total |
| MemoryPools.FreshAllocations | src/memory.c:105-146 | m allocations from a fresh pool of n hand out the slots n - 1 down to n - m |
| MemoryPools.MemoryPool.Create | src/memory.c:71-115 | For any sizes: NULL exactly for a zero size or count, a store outside the block exactly if the round-up or the product wraps, else a sound pool with all slots free, slots that hold the object, and the block filled |
| MemoryPools.MemoryPool.ThreadList | src/memory.c:105-112 | The loop threads every slot into one list, last slot first, inside the block itself, if and only if every slot begins inside the block |
| MemoryPools.MemoryPool.Alloc | src/memory.c:132-145 | Never a live slot, NULL exactly when all are live, and no word of the block is written |
| MemoryPools.MemoryPool.Free | src/memory.c:149-160 | The slot becomes the first of the list, NULL is ignored, and no word but the slot's first is written, so other clients' data survive |
| MemoryPools.MemoryPool.ClientWrite | src/memory.c:57-59 | Whatever a client writes anywhere in a slot it holds, the list stored in the same block survives |
| MemoryPools.MemoryPool.Run | src/memory.c:127-161 | Any sequence of allocations, legal releases and writes on the one block: the list survives, and whoever holds a slot finds in each word what was last written there |
| MemoryPools.LastWrittenIsWritten | src/memory.c:127-161 | What "last written" means there: the value of a write that no write to the same word and no release of the slot follows |
| MemoryPools.MemoryPool.Available | src/memory.c:175-185 | The count reported is the length of the free list |
| MemoryPools.SlotBytesAligned | src/memory.c:76-80 | For every width of size_t: the slot size is the least multiple of sizeof(void*) that is at least the object size and at least the size of a link, if and only if the round-up does not wrap |
| MemoryPools.SlotsInBlockIff | src/memory.c:76-112 | Every slot has its object, and its link, inside the block that is allocated if and only if neither the round-up nor the product wraps |
| MemoryPools.WrappedBlock | src/memory.c:87-88 | As many one-word slots as size_t counts words, 2^61 for 64 bits: the block has size 0 and no slot lies inside |
| MemoryPools.SlotsApart | src/memory.c:87-112 | Distinct slots share no word and lie inside the block |
| Rounding.RoundUpIsLeastMultiple | src/memory.c:80 | For every word width, power of two and x, the mask expression is the least multiple at or above x if and only if the unsigned addition does not wrap |
| Rounding.AndBits | src/memory.c:80 | The conjunction used for the mask is the bitwise one: a bit is set exactly if it is set in both words |
| Rounding.NotBits | src/memory.c:80 | The complement used for the mask flips every bit of the word |
| Rounding.StackIsWholePages | src/memory.c:18-27 | For every requested size and page size the stack is the least whole number of pages holding the size nearest the request from 4096 to 8388608, or 65536 for a request of 0; the round-up never wraps |
| Semaphores.TokensConserved | src/sync.c:186-237 | Over every run count = initial + posts - taken, never more taken than put in, no lost wake-up, and a sleeping thread with tokens left has a woken one that will take the next |
| Semaphores.Semaphore.TakeTurn | src/sync.c:191-199 | One turn in sync_sem_wait takes a token or goes to sleep |
| Semaphores.Semaphore.TryTake | src/sync.c:209-220 | sync_sem_trywait takes a token exactly if there is one |
| Semaphores.Semaphore.Put | src/sync.c:228-234 | sync_sem_post adds a token and wakes a sleeper if there is one |
| RingBuffers.StepKeepsInv | examples/hello_threads.c:109-142 | Every step of any producer or consumer keeps tokens, contents, sleepers and ledger |
| RingBuffers.TokensConserved | examples/hello_threads.c:113-136 | Both counts plus the tokens in the threads' hands are always the ring's size |
| RingBuffers.FirstInFirstOut | examples/hello_threads.c:116-133 | Consumed items followed by what the ring still holds in reading order are the produced items: none lost, none twice, none out of order |
| RingBuffers.NothingOverwritten | examples/hello_threads.c:116-117 | A step leaves the unread items as they are, adds one behind them, or takes the first of them |
| RingBuffers.StuckMeansNoneCanMove | examples/hello_threads.c:109-142 | A thread that is neither asleep nor at its end always has a step: a post finds a sleeper to signal, or nobody sleeps |
| RingBuffers.EveryoneEndsIff | examples/hello_threads.c:109-142 | When nobody can move, everybody has finished if and only if the items wanted are at most the items made, and those at most a ring's size more |
| RingBuffers.ProgramFinishes | examples/hello_threads.c:147-169 | Any producers and consumers over any ring: every schedule without spurious wake-ups is bounded, ends as said above, and with equal supply and demand the consumers' sums are items * (items + 1) / 2 over all producers, the 210 the program expects |
| RingPrograms.ProgramFinishes | examples/hello_threads.c:144-170 | The program on its pool, with a worker for every task: every schedule without spurious wake-ups is bounded, and when nobody can move, all tasks have returned, wait and destroy too, and the pool is shut down with its workers gone, if and only if supply and demand are balanced; if they are equal, the sums are right |
| RingPrograms.WorkersSufficeIff | examples/hello_threads.c:153-161 | Every balanced program of n producers and consumers finishes under every schedule, if and only if the pool has at least n workers |
| RingBuffers.SharedBuffer.Insert | examples/hello_threads.c:116-117 | The array update of producer_task is the ring's Put |
| RingBuffers.SharedBuffer.Remove | examples/hello_threads.c:132-133 | The array read of consumer_task is the ring's Take |
| Matrices.RowsPartition | examples/matrix_multiply.c:124-132 | For any rows and any tasks, more tasks than rows included, each row belongs to exactly one task and none goes past the end |
| Matrices.IndexApart | examples/matrix_multiply.c:69-75 | The flat indices are in the reading order of the cells, row by row and each row from the left; so different cells have different ones |
| Matrices.RowMajor | examples/matrix_multiply.c:69-75 | The first cell is at index 0, the next cell of a row is one further, and the next row begins right behind the last cell of the row |
| Matrices.ProductByRowsAndColumns | examples/matrix_multiply.c:103-113 | A matrix holds the product, cell by cell at its indices, if and only if it is what a definition without indices gives: the rows of the left operand cut off one by one, times the columns of the right one, each pairing added from the left |
| Matrices.StepKeepsSound | examples/matrix_multiply.c:88-100 | A step of one row task keeps its partial sum right and disturbs no cell of another task, and after it every task not yet done can step inside the result |
| Matrices.AnyInterleavingMultiplies | examples/matrix_multiply.c:88-100 | Whatever the interleaving and the old contents, when all row tasks are done the result is the product |
| Matrices.ParallelEqualsSequential | examples/matrix_multiply.c:103-140 | Every interleaving is finite and ends with the matrix that any other computation of the product holds, cell for cell |
| MatrixPrograms.ProductWhenWaitReturns | examples/matrix_multiply.c:116-137 | The program on its pool: for every pool size, capacity, number of tasks and schedule, spurious wake-ups included, the result is the product when the client's wait is about to return, and ever after |
| MatrixPrograms.ParallelProgramMultiplies | examples/matrix_multiply.c:116-140 | Every schedule of it without spurious wake-ups is bounded, and when nobody can move, wait and destroy have returned, the pool is shut down with its workers gone, and the result is the sequential one, cell for cell |
| Matrices.ComputeRows | examples/matrix_multiply.c:88-100 | compute_rows leaves in its rows the sums added from the left, and other rows alone |
| Matrices.MultiplySequential | examples/matrix_multiply.c:103-113 | The sequential loops leave the product, by the same order of summation, and so the rows times the columns |
| Matrices.DivideRows | examples/matrix_multiply.c:124-132 | The loop that fills in start_row and end_row makes a partition of the rows, in order and even |

## Left out

- Counters are unbounded: wrap-around of size_t counters, of the semaphore's unsigned count and of int matrix indices is not modelled.
- Tasks are assumed not to call submit, wait or destroy on their own pool, and, but for the two example programs, to return.
- The step system goes on after destroy has freed the pool, as if the memory were kept: that no call outlives the last join is left to the clients.
- One signal that releases several sleepers is a signal followed by spurious wake-ups.
- A submitter that sleeps on a full queue keeps its list node in the source; the object of `ThreadPool.dfy` makes a new one when the submitter retries.
- Failure of malloc, of pthread_create and of the init calls, with the clean-up that follows.
- The buffer lock of the ring buffer is taken and released within one step.
- RingBuffers.ProgramFinishes: every producer and consumer is a thread of its own; on a pool that takes as many workers as tasks, which is `RingPrograms.WorkersSufficeIff`. Which programs get along with fewer workers is not characterized one by one.
- MemoryPools.MemoryPool.Free: double release and foreign addresses are excluded, because the code does not check for them.
- MemoryPools.MemoryPool.Create: sizes that wrap are followed up to the loop's first store outside the block, since what such a store does is undefined; where the wrapped size is 0, malloc may also return NULL, and then the function returns NULL and stores nothing; links are word indices instead of addresses, and sizeof(void*) is 8.
- Matrices.ParallelEqualsSequential: any type of elements with any addition and multiplication; rounding plays no part, since both sides add in the same order.
- The wrappers of src/sthread.c and of the mutex and condition variable in src/sync.c: argument checks and error codes.
- Guard pages and the mapping of stacks, clocks, platform detection, and the getters of the pool.
- submit_time, stack_size, enable_priorities and max_count, which are stored and never read.
