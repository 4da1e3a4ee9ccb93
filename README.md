# redpoule thread pool — a Dafny model

This project models the sequential core of the `redpoule` C++ thread pool.

- `partition.dfy`, module `Partition`: the block partition that
  `parallel_for` computes. A range of length `len = end - start` is cut into
  `n` contiguous blocks `[t*len/n, (t+1)*len/n)`. The last block is forced to
  end at `len`. The lemmas prove that the blocks are well formed, monotone and
  contiguous, and that every offset below `len` lies in exactly one block.
- `redpoule.dfy`, module `Redpoule`: the current pool (`include/redpoule.hpp`)
  as a class. Its fields are the running flag, the thread count, the worker
  vector, the per-worker `_busy` flags and the FIFO task queue. Each critical
  section under the queue mutex is one method:
  - `Push`;
  - one pass of a worker's loop, `WorkerStep`: the loop test, then either the
    empty-queue branch or the dequeue that marks the worker busy;
  - `FinishTask`, where the worker clears its busy flag and notifies.

  Ghost fields record every task pushed, every task taken from the queue (in
  order), the multiset of finished tasks and the task each worker is
  executing. The `wait()` predicate is `Drained`. `BarrierSound` proves that
  it holds exactly when every pushed task has been dequeued in push order and
  has finished.
- `threadpool.dfy`, module `LegacyPool`: the earlier pool
  (`include/threadpool.hpp`). It has a FIFO queue and worker loop, no busy
  flags and no barrier.
- `pool_types.dfy`, module `PoolTypes`: tasks (opaque values), thread-slot
  states, and the outcome of one pass of a worker's loop.

Tasks are opaque values. `Task.Opaque(id)` stands for any callable given to
`push`. `Task.Bound(body, lo, hi)` stands for the callable that
`parallel_for` builds by binding the user's function `body` to one block's
offsets.

Block offsets are counted from 0: block `t` is bound to `t*(end-start)/n`,
not to `start + t*(end-start)/n`, whatever `start` is
(include/redpoule.hpp:101-106). `BlockTasksCoverRange` therefore proves
coverage of `[0, end - start)`, not of `[start, end)`.

The constructor accepts a thread count of 0, and so does the model. With 0
threads, `parallel_for` pushes nothing, because its loop does not run.

## Model

| member | source | states |
|---|---|---|
| `Partition.BlockStart` | include/redpoule.hpp:102 | `block_start` is `t*len/n` rounded down, so never past `len` for `t <= n` |
| `Partition.BlockEnd` | include/redpoule.hpp:103-105 | `block_end` is the next block's start, except for the last block, which ends at `len`; never past `len` |
| `Partition.Blocks` | include/redpoule.hpp:100-106 | `parallel_for` forms exactly `n` blocks, one per value of the loop index `t` |
| `Partition.BlockStartMonotone` | include/redpoule.hpp:102 | `block_start` never decreases as `t` grows |
| `Partition.BlockBounds` | include/redpoule.hpp:101-105 | for every `t < n`, including the last block, `block_start <= block_end <= end - start` |
| `Partition.BlocksContiguous` | include/redpoule.hpp:102-105 | block `t` ends exactly where block `t+1` starts |
| `Partition.BlocksOrdered` | include/redpoule.hpp:100-105 | an earlier block ends no later than any later block starts, so blocks never overlap |
| `Partition.CoveredUpTo` | include/redpoule.hpp:100-105 | every offset below the end of block `k` lies in some block `t <= k` |
| `Partition.BlocksCover` | include/redpoule.hpp:100-106 | every offset in `[0, end - start)` lies in some block |
| `Partition.BlocksDisjoint` | include/redpoule.hpp:100-106 | an offset lies in at most one block, and an offset in any block is below `end - start` |
| `Partition.BlocksPartitionRange` | include/redpoule.hpp:100-106 | block 0 starts at 0; the last block ends at `end - start`; blocks are well formed and contiguous; an offset is covered iff it is below `end - start`, and then by exactly one block |
| `Partition.TenOverThree` | include/redpoule.hpp:100-106 | 10 indices over 3 workers give the blocks `(0,3)`, `(3,6)` and `(6,10)`: the last block absorbs the remainder |
| `Redpoule.NoneBusy` | include/redpoule.hpp:83 | the `none_of` test over `_busy` is true iff no flag is set |
| `Redpoule.BusyCountIsInFlight` | include/redpoule.hpp:119-139 | the number of set busy flags equals the number of tasks being executed, and is at most the number of workers |
| `Redpoule.IdleHoldsNothing` | include/redpoule.hpp:83 | no busy flag is set iff no worker is executing a task |
| `Redpoule.PushKeepsAccounts` | include/redpoule.hpp:88-94 | appending a task at the tail keeps the accounting invariant: pushed = dequeued ++ queue, and every dequeued task is finished or held by its busy worker |
| `Redpoule.DequeueKeepsAccounts` | include/redpoule.hpp:119-129 | popping the front task and setting `_busy[thread_id]` in the same step keeps the accounting invariant |
| `Redpoule.IdleKeepsAccounts` | include/redpoule.hpp:120-124 | for a worker that holds no task, the empty-queue write `_busy[thread_id] = false` leaves the flags unchanged |
| `Redpoule.FinishKeepsAccounts` | include/redpoule.hpp:135-139 | clearing the busy flag of the worker whose task returned keeps the accounting invariant, and the task counts as finished |
| `Redpoule.BlockTasks` | include/redpoule.hpp:98-107 | `parallel_for` submits `n` tasks when `start < end` and none otherwise |
| `Redpoule.BlockTasksCoverRange` | include/redpoule.hpp:96-107 | nothing is submitted when `start >= end`. Otherwise exactly `n` tasks are submitted, each binding the caller's callable `body` to one block: the first starts at offset 0, the last ends at `end - start`, and each block is well formed and touches the next. Every offset below `end - start` goes to exactly one task, and no other offset goes to any task |
| `Redpoule.ThreadPool.constructor` | include/redpoule.hpp:60-64 | the pool starts with `n` running workers, `_busy` of length `n` all false, an empty queue, and the running flag set |
| `Redpoule.ThreadPool.NumThreads` | include/redpoule.hpp:74 | `get_num_threads()` equals the number of workers and the number of busy flags |
| `Redpoule.ThreadPool.Push` | include/redpoule.hpp:88-94 | the task is appended at the tail of the queue; `_busy` and everything else is unchanged |
| `Redpoule.ThreadPool.WorkerStep` | include/redpoule.hpp:116-129 | after shutdown the loop exits and nothing changes. On an empty queue only `_busy[thread_id]` is cleared and the queue is unchanged. Otherwise exactly the front task is removed, returned and recorded as dequeued, `_busy[thread_id]` becomes true, and every other flag is unchanged |
| `Redpoule.ThreadPool.FinishTask` | include/redpoule.hpp:131-139 | the held task is finished and only `_busy[thread_id]` is cleared; the queue is unchanged |
| `Redpoule.ThreadPool.ParallelFor` | include/redpoule.hpp:96-108 | the queue grows by exactly the tasks of `BlockTasks`, in order; nothing else changes |
| `Redpoule.ThreadPool.Join` | include/redpoule.hpp:69-70 | a joined worker first finishes the task it holds, then exits on the loop test without dequeuing |
| `Redpoule.ThreadPool.JoinAll` | include/redpoule.hpp:69-70 | the `for_each` over the workers leaves every worker joined and not busy; the queue, the pushed tasks and the dequeued tasks are unchanged |
| `Redpoule.TakeKeepsLifecycle` | include/redpoule.hpp:117-127 | a running worker may take a task: no joined worker ever holds one |
| `Redpoule.AllIdleAllFinished` | include/redpoule.hpp:66-71 | once no worker is busy, the finished tasks are exactly those finished before plus those that were in flight |
| `Redpoule.ThreadPool.Destroy` | include/redpoule.hpp:66-71 | after destruction the running flag is clear and every worker is joined and not busy. Tasks in flight are finished. Tasks still queued when the last loop test read the flag set stay queued and are never run |
| `Redpoule.TaskConservation` | include/redpoule.hpp:119-139 | pushed = finished + busy workers + queue length, and at most one task per worker is being executed |
| `Redpoule.ThreadPool.Drained` | include/redpoule.hpp:82-83 | the condition `wait()` waits for: the queue is empty and no busy flag is set |
| `Redpoule.BarrierSound` | include/redpoule.hpp:79-85 | the `wait()` predicate (empty queue, no busy flag) holds iff every pushed task was dequeued in push order and has finished exactly as many times as it was pushed |
| `LegacyPool.ThreadPool.constructor` | include/threadpool.hpp:48-52 | the thread vector is resized to `n` slots and every slot gets a running worker; the queue is empty |
| `LegacyPool.ThreadPool.NumThreads` | include/threadpool.hpp:62 | `get_num_threads()` equals the number of thread slots |
| `LegacyPool.ThreadPool.Push` | include/threadpool.hpp:67-74 | the task is appended at the tail of the queue and nothing else changes |
| `LegacyPool.ThreadPool.WorkerStep` | include/threadpool.hpp:81-89 | a step is taken only by a running thread of the pool. After shutdown the loop exits and the queue is unchanged. An empty queue is left unchanged. Otherwise exactly the front task is removed and handed to the worker |
| `LegacyPool.ThreadPool.Join` | include/threadpool.hpp:57-58 | a joined thread exits on its loop test without taking anything from the queue |
| `LegacyPool.ThreadPool.Destroy` | include/threadpool.hpp:54-59 | after destruction the running flag is clear and every thread is joined. The queue is unchanged, so tasks still queued when the last loop test read the flag set are never run |
| `LegacyPool.DequeueOrderIsPushOrder` | include/threadpool.hpp:84-89 | the dequeued tasks are a prefix of the pushed tasks, and the queue holds the rest, in push order |

## Left out

- Real threads, `std::thread` creation and joining, `std::mutex` and
  `std::condition_variable`. Each critical section is one method, and an
  interleaving of method calls stands for a schedule. The exceptions are
  `ParallelFor` and `WorkerStep`, listed below.
- The busy-polling `continue` of the worker loop (include/redpoule.hpp:123,
  include/threadpool.hpp:86). Repeated polling is repeated calls of
  `WorkerStep`.
- Running task bodies (`task()` / `job()`). They are foreign code, so tasks
  are opaque values. A task counts as finished when `FinishTask` runs.
- The blocking inside `wait()` and the `notify_all` that wakes it. These are
  concurrency, not state. `Drained` is the predicate `wait()` waits for, and
  `BarrierSound` says what holds once it is true.
- Redpoule.ThreadPool.ParallelFor: it ends after the submissions. The final
  `wait()` at include/redpoule.hpp:109 is not modelled, because it can only
  return once other threads have run the tasks. `BarrierSound` states what
  holds when it returns.
- Redpoule.ThreadPool.ParallelFor: its `n` pushes (one critical section
  each, include/redpoule.hpp:106) are one step in the model, so no worker
  step or other push falls between them and the queue grows by exactly
  `BlockTasks`. In the code a polling worker may dequeue block 0 before
  block 1 is pushed. Such schedules are reached by calling `Push` once per
  block of `BlockTasks` with worker steps in between. In every schedule the
  sequence of tasks `parallel_for` itself submits is `BlockTasks`.
- Redpoule.BlockTasks: the model binds the same callable `body` to every
  block. include/redpoule.hpp:106 forwards `f` into `std::bind` once per
  block, so for an rvalue callable every block after the first is bound to
  a moved-from copy. The model therefore matches lvalue callables and
  callables whose move is a copy, such as a lambda capturing by reference.
- The default constructor, which uses `std::thread::hardware_concurrency()`
  (include/redpoule.hpp:40, 65; include/threadpool.hpp:31, 53). This is a
  foreign call; the thread count is a constructor parameter instead.
- The data race on the unsynchronised `_running` flag. Only its sequential
  effect is modelled: a worker step that reads it cleared exits without
  dequeuing.
- Redpoule.ThreadPool.WorkerStep: the loop test (include/redpoule.hpp:117)
  and the critical section that follows it (lines 119-129) are one step. In
  the code a worker that passed the test before the destructor cleared the
  flag still dequeues and runs one task. The model reaches that schedule
  only by running that step before `Destroy`, so "never run" in `Destroy`
  refers to the tasks queued after each worker's last loop test that read
  the flag set, not to those queued when the destructor clears it.
- LegacyPool.ThreadPool.WorkerStep: the same for the earlier pool. The loop
  test (include/threadpool.hpp:81) and the critical section (lines 84-89)
  are one step, so a worker may dequeue one more task after the destructor
  clears the flag. The model places that step before `Destroy`.
- Partition.BlockStart: `size_t` wrap-around of `t * block_size` is not
  modelled. Offsets are unbounded naturals. The largest product the code
  forms is `(n - 1) * (end - start)`, so the model matches the code at least
  while that product fits in a `size_t`.
- Redpoule.ThreadPool.constructor: the narrowing of the `size_t` argument to
  the `int` field `_n_threads` is not modelled. The thread count is a
  natural number.
- LegacyPool.ThreadPool.constructor: the narrowing of the `size_t` argument
  to the `int` field `_n_threads` (include/threadpool.hpp:39, 48) is not
  modelled either. The thread count is a natural number, so counts that do
  not fit in an `int` behave differently in the code.
- Redpoule.ThreadPool.Destroy: the model joins workers in index order, and
  each worker finishes its current task just before its join. Other orders
  are reached by calling `WorkerStep` and `FinishTask` before `Destroy`.
- tests/test_speed.cpp and tests/test_threadpool.cpp: a floating-point
  matrix benchmark with random fill and timing, and a raw-thread benchmark
  with console output. They are not part of this model. Their partition
  formula is the one `Partition` models.
