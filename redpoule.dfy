/**
 * The current thread pool (`redpoule::ThreadPool`) as a sequential state
 * machine. Every critical section under the queue mutex is one method:
 * `Push`, one pass of a worker's loop (`WorkerStep`: the loop test, then
 * either the empty-queue branch or the dequeue), and the completion of a
 * task (`FinishTask`). Threads, the mutex and the condition variable are
 * not modelled; the interleaving of the methods stands for the schedule.
 *
 * Ghost bookkeeping records what the real pool only implies: every task ever
 * pushed, every task ever taken from the queue, the multiset of tasks whose
 * body has returned, and the task each worker is executing right now.
 */
module Redpoule {
  import opened PoolTypes
  import opened Partition

  /** `std::none_of` over the busy flags: no worker is busy. */
  function NoneBusy(busy: seq<bool>): (r: bool)
    ensures r <==> forall i :: 0 <= i < |busy| ==> !busy[i]
  {
    if busy == [] then true else !busy[0] && NoneBusy(busy[1..])
  }

  /** The number of busy flags that are set. */
  function BusyCount(busy: seq<bool>): nat
  {
    if busy == [] then 0 else (if busy[0] then 1 else 0) + BusyCount(busy[1..])
  }

  /** The task held in an optional slot, as a multiset of at most one element. */
  ghost function Held(o: Option<Task>): multiset<Task>
  {
    if o.Some? then multiset{o.value} else multiset{}
  }

  /** The tasks the workers are executing right now. */
  ghost function InFlight(held: seq<Option<Task>>): multiset<Task>
  {
    if held == [] then multiset{} else Held(held[0]) + InFlight(held[1..])
  }

  /** A worker is marked busy exactly while it holds a task. */
  ghost predicate BusyMatchesHeld(busy: seq<bool>, held: seq<Option<Task>>)
  {
    |busy| == |held| && forall i :: 0 <= i < |busy| ==> busy[i] == held[i].Some?
  }

  /** Replacing what one worker holds changes the in-flight tasks by exactly that slot. */
  lemma {:induction false} InFlightUpdate(held: seq<Option<Task>>, i: nat, o: Option<Task>)
    requires i < |held|
    ensures InFlight(held[i := o]) + Held(held[i]) == InFlight(held) + Held(o)
  {
    var upd := held[i := o];
    var tail := held[1..];
    var first := Held(held[0]);
    assert InFlight(held) == first + InFlight(tail);
    if i == 0 {
      assert upd[1..] == tail;
      assert InFlight(upd) == Held(o) + InFlight(tail);
      SwapLast(Held(o), InFlight(tail), first);
    } else {
      InFlightUpdate(tail, i - 1, o);
      assert upd[1..] == tail[i - 1 := o] && upd[0] == held[0];
      assert held[i] == tail[i - 1];
      assert InFlight(upd) == first + InFlight(tail[i - 1 := o]);
      Regroup(first, InFlight(tail[i - 1 := o]), Held(held[i]), InFlight(tail), Held(o));
    }
  }

  lemma AddAssoc(a: multiset<Task>, b: multiset<Task>, c: multiset<Task>)
    ensures (a + b) + c == a + (b + c)
  {
  }

  lemma SwapTail(a: multiset<Task>, b: multiset<Task>, c: multiset<Task>)
    ensures (a + b) + c == (a + c) + b
  {
  }

  lemma SwapLast(a: multiset<Task>, b: multiset<Task>, c: multiset<Task>)
    ensures (a + b) + c == (c + b) + a
  {
  }

  lemma {:induction false} Regroup(a: multiset<Task>, b: multiset<Task>, c: multiset<Task>, d: multiset<Task>, e: multiset<Task>)
    requires b + c == d + e
    ensures (a + b) + c == (a + d) + e
  {
    assert (a + b) + c == a + (b + c);
    assert (a + d) + e == a + (d + e);
  }

  /**
   * The busy flags count the tasks in flight: one per busy worker, so never
   * more than there are workers.
   */
  lemma {:induction false} BusyCountIsInFlight(busy: seq<bool>, held: seq<Option<Task>>)
    requires BusyMatchesHeld(busy, held)
    ensures BusyCount(busy) == |InFlight(held)| <= |busy|
  {
    if busy != [] {
      BusyCountIsInFlight(busy[1..], held[1..]);
    }
  }

  /** No busy flag is set exactly when no worker holds a task. */
  lemma {:induction false} IdleHoldsNothing(busy: seq<bool>, held: seq<Option<Task>>)
    requires BusyMatchesHeld(busy, held)
    ensures NoneBusy(busy) <==> InFlight(held) == multiset{}
  {
    if busy != [] {
      IdleHoldsNothing(busy[1..], held[1..]);
    }
  }

  /**
   * The pool's accounting: a worker is busy exactly while it holds a task;
   * the tasks taken from the queue, followed by those still in it, are the
   * tasks pushed, in push order; and every task taken is either finished or
   * held by exactly one worker.
   */
  ghost predicate Accounted(pushed: seq<Task>, dequeued: seq<Task>, queue: seq<Task>,
                            finished: multiset<Task>, busy: seq<bool>, held: seq<Option<Task>>)
  {
    BusyMatchesHeld(busy, held) &&
    pushed == dequeued + queue &&
    multiset(dequeued) == finished + InFlight(held)
  }

  /** Pushing a task at the tail keeps the accounting. */
  lemma PushKeepsAccounts(pushed: seq<Task>, dequeued: seq<Task>, queue: seq<Task>,
                          finished: multiset<Task>, busy: seq<bool>, held: seq<Option<Task>>, task: Task)
    requires Accounted(pushed, dequeued, queue, finished, busy, held)
    ensures Accounted(pushed + [task], dequeued, queue + [task], finished, busy, held)
  {
    assert dequeued + (queue + [task]) == (dequeued + queue) + [task];
  }

  /**
   * Taking the front task and marking an idle worker busy in one step keeps
   * the accounting: the task moves from the queue to the worker.
   */
  lemma DequeueKeepsAccounts(pushed: seq<Task>, dequeued: seq<Task>, queue: seq<Task>,
                             finished: multiset<Task>, busy: seq<bool>, held: seq<Option<Task>>, id: nat)
    requires Accounted(pushed, dequeued, queue, finished, busy, held)
    requires id < |busy| && held[id] == None && queue != []
    ensures Accounted(pushed, dequeued + [queue[0]], queue[1..], finished,
                      busy[id := true], held[id := Some(queue[0])])
  {
    var task := queue[0];
    var upd := held[id := Some(task)];
    assert (dequeued + [task]) + queue[1..] == pushed by {
      assert queue == [task] + queue[1..];
    }
    assert InFlight(upd) == InFlight(held) + multiset{task} by {
      InFlightUpdate(held, id, Some(task));
      assert Held(held[id]) == multiset{} && Held(Some(task)) == multiset{task};
    }
    assert multiset(dequeued + [task]) == finished + (InFlight(held) + multiset{task}) by {
      assert multiset(dequeued + [task]) == multiset(dequeued) + multiset{task};
      AddAssoc(finished, InFlight(held), multiset{task});
    }
  }

  /** Clearing the busy flag of a worker that holds no task keeps the accounting. */
  lemma IdleKeepsAccounts(pushed: seq<Task>, dequeued: seq<Task>, queue: seq<Task>,
                          finished: multiset<Task>, busy: seq<bool>, held: seq<Option<Task>>, id: nat)
    requires Accounted(pushed, dequeued, queue, finished, busy, held)
    requires id < |busy| && held[id] == None
    ensures busy[id := false] == busy
    ensures Accounted(pushed, dequeued, queue, finished, busy[id := false], held)
  {
    assert busy[id := false] == busy;
  }

  /**
   * A worker returning from its task and clearing its busy flag keeps the
   * accounting: the task moves from the worker to the finished tasks.
   */
  lemma FinishKeepsAccounts(pushed: seq<Task>, dequeued: seq<Task>, queue: seq<Task>,
                            finished: multiset<Task>, busy: seq<bool>, held: seq<Option<Task>>, id: nat)
    requires Accounted(pushed, dequeued, queue, finished, busy, held)
    requires id < |busy| && held[id].Some?
    ensures Accounted(pushed, dequeued, queue, finished + multiset{held[id].value},
                      busy[id := false], held[id := None])
  {
    var task := held[id].value;
    var rest := InFlight(held[id := None]);
    assert InFlight(held) == rest + multiset{task} by {
      InFlightUpdate(held, id, None);
      assert Held(held[id]) == multiset{task} && Held(None) == multiset{};
    }
    assert multiset(dequeued) == (finished + multiset{task}) + rest by {
      AddAssoc(finished, rest, multiset{task});
      SwapTail(finished, multiset{task}, rest);
    }
  }

  /**
   * Every worker thread has been started, and a worker is joined only after
   * shutdown and while holding no task.
   */
  ghost predicate Lifecycle(workers: seq<ThreadState>, running: bool, held: seq<Option<Task>>)
  {
    |workers| == |held| &&
    (forall i :: 0 <= i < |workers| ==> workers[i] != NotStarted) &&
    (forall i :: 0 <= i < |workers| && workers[i] == Joined ==> !running && held[i] == None)
  }

  /** A running worker may take a task without breaking the lifecycle. */
  lemma TakeKeepsLifecycle(workers: seq<ThreadState>, running: bool, held: seq<Option<Task>>,
                           id: nat, task: Task)
    requires Lifecycle(workers, running, held) && id < |workers| && workers[id] == Running
    ensures Lifecycle(workers, running, held[id := Some(task)])
  {
  }

  /**
   * Once no worker is busy, every task taken from the queue has finished:
   * the tasks that were in flight have joined those finished before.
   */
  lemma AllIdleAllFinished(dequeued: seq<Task>, finished0: multiset<Task>, inFlight0: multiset<Task>,
                           finished: multiset<Task>, busy: seq<bool>, held: seq<Option<Task>>)
    requires multiset(dequeued) == finished0 + inFlight0
    requires BusyMatchesHeld(busy, held) && multiset(dequeued) == finished + InFlight(held)
    requires forall i :: 0 <= i < |busy| ==> !busy[i]
    ensures finished == finished0 + inFlight0
  {
    IdleHoldsNothing(busy, held);
  }

  /**
   * The tasks `parallel_for(start, end, f)` submits, in submission order:
   * none when `start >= end`, otherwise one per block of the partition of
   * the length `end - start` among `n` workers, with offsets counted from 0.
   */
  function BlockTasks(body: nat, start: nat, end: nat, n: nat): (ts: seq<Task>)
    ensures |ts| == if start < end then n else 0
  {
    if start >= end then []
    else
      var bs := Blocks(end - start, n);
      seq(n, t requires 0 <= t < n => Bound(body, bs[t].lo, bs[t].hi))
  }

  /** Whether offset `i` is handed to the body by task number `t` of `ts`. */
  ghost predicate Submits(ts: seq<Task>, t: nat, i: nat)
  {
    t < |ts| && ts[t].Bound? && ts[t].blockStart <= i < ts[t].blockEnd
  }

  /** Whether offset `i` is handed to the body by some task of `ts`. */
  ghost predicate Handed(ts: seq<Task>, i: nat)
  {
    exists t: nat :: Submits(ts, t, i)
  }

  lemma BlockTaskAt(body: nat, start: nat, end: nat, n: nat, t: nat)
    requires start < end && t < n
    ensures BlockTasks(body, start, end, n)[t] ==
            Bound(body, BlockStart(t, end - start, n), BlockEnd(t, end - start, n))
  {
    BlockAt(t, end - start, n);
  }

  /** A task of `parallel_for` hands out an offset exactly when its block holds it. */
  lemma SubmitsIffInBlock(body: nat, start: nat, end: nat, n: nat, t: nat, i: nat)
    requires start < end
    ensures Submits(BlockTasks(body, start, end, n), t, i) <==> InBlock(Blocks(end - start, n), t, i)
  {
    if t < n {
      BlockTaskAt(body, start, end, n, t);
      BlockAt(t, end - start, n);
    }
  }

  /**
   * What `parallel_for` submits: nothing for an empty or reversed range;
   * otherwise exactly `n` tasks calling `body`, the first on offset 0, the
   * last ending at `end - start`, each block well formed and touching the
   * next, and every offset of `[0, end - start)` handed to exactly one task
   * while no other offset is handed to any.
   */
  lemma {:induction false} BlockTasksCoverRange(body: nat, start: nat, end: nat, n: nat)
    requires n > 0
    ensures start >= end ==> BlockTasks(body, start, end, n) == []
    ensures start < end ==>
              var ts := BlockTasks(body, start, end, n);
              |ts| == n &&
              (forall t :: 0 <= t < n ==> ts[t].Bound? && ts[t].body == body &&
                                          ts[t].blockStart <= ts[t].blockEnd) &&
              ts[0].blockStart == 0 && ts[n - 1].blockEnd == end - start &&
              (forall t :: 0 <= t < n - 1 ==> ts[t].blockEnd == ts[t + 1].blockStart) &&
              (forall i: nat :: i < end - start <==> Handed(ts, i)) &&
              (forall i: nat, s: nat, t: nat :: Submits(ts, s, i) && Submits(ts, t, i) ==> s == t)
  {
    if start < end {
      var len := end - start;
      var bs := Blocks(len, n);
      var ts := BlockTasks(body, start, end, n);
      BlocksPartitionRange(len, n);
      forall t | 0 <= t < n
        ensures ts[t] == Bound(body, bs[t].lo, bs[t].hi)
      {
        BlockTaskAt(body, start, end, n, t);
        BlockAt(t, len, n);
      }
      forall i: nat
        ensures i < len <==> Handed(ts, i)
      {
        if i < len {
          assert Covered(bs, i);
          var t: nat :| InBlock(bs, t, i);
          SubmitsIffInBlock(body, start, end, n, t, i);
        } else if Handed(ts, i) {
          var t: nat :| Submits(ts, t, i);
          SubmitsIffInBlock(body, start, end, n, t, i);
          assert Covered(bs, i);
        }
      }
      forall i: nat, s: nat, t: nat | Submits(ts, s, i) && Submits(ts, t, i)
        ensures s == t
      {
        SubmitsIffInBlock(body, start, end, n, s, i);
        SubmitsIffInBlock(body, start, end, n, t, i);
      }
    }
  }

  class ThreadPool {
    var running: bool                  // `_running`
    var nThreads: nat                  // `_n_threads`
    var workers: seq<ThreadState>      // `_workers`
    var busy: seq<bool>                // `_busy`
    var taskQueue: seq<Task>           // `_task_queue`, front first

    ghost var pushed: seq<Task>        // every task pushed, in push order
    ghost var dequeued: seq<Task>      // every task taken from the queue, in order
    ghost var finished: multiset<Task> // every task whose body has returned
    ghost var held: seq<Option<Task>>  // the task each worker is executing

    ghost predicate Valid()
      reads this
    {
      |workers| == nThreads && |busy| == nThreads &&
      Accounted(pushed, dequeued, taskQueue, finished, busy, held) &&
      Lifecycle(workers, running, held)
    }

    /** `ThreadPool(n_threads)`: `n` idle workers, all started, and an empty queue. */
    constructor (n: nat)
      ensures Valid() && running && nThreads == n
      ensures workers == seq(n, _ => Running) && busy == seq(n, _ => false)
      ensures taskQueue == [] && pushed == [] && finished == multiset{}
    {
      var ws: seq<ThreadState> := [];
      var t := 0;
      while t < n
        invariant t <= n && ws == seq(t, _ => Running)
      {
        ws := ws + [Running];
        t := t + 1;
      }
      running := true;
      nThreads := n;
      busy := seq(n, _ => false);
      workers := ws;
      taskQueue := [];
      pushed, dequeued, finished := [], [], multiset{};
      held := seq(n, _ => None);
      new;
      IdleHoldsNothing(busy, held);
    }

    /** `get_num_threads()`: one worker, and one busy flag, per thread. */
    function NumThreads(): (r: nat)
      reads this
      requires Valid()
      ensures r == |workers| && r == |busy|
    {
      nThreads
    }

    /** `wait()` returns once this holds: the queue is empty and no worker is busy. */
    predicate Drained(): (r: bool)
      reads this
      ensures r <==> taskQueue == [] && forall i :: 0 <= i < |busy| ==> !busy[i]
    {
      taskQueue == [] && NoneBusy(busy)
    }

    /** `push(task)`: the task joins the tail of the queue; nothing else changes. */
    method Push(task: Task)
      requires Valid()
      modifies this
      ensures Valid()
      ensures taskQueue == old(taskQueue) + [task] && pushed == old(pushed) + [task]
      ensures busy == old(busy) && workers == old(workers) && running == old(running)
      ensures nThreads == old(nThreads) && held == old(held)
      ensures dequeued == old(dequeued) && finished == old(finished)
    {
      PushKeepsAccounts(pushed, dequeued, taskQueue, finished, busy, held, task);
      taskQueue := taskQueue + [task];
      pushed := pushed + [task];
    }

    /**
     * One pass of worker `id`'s loop, from the loop test to the end of the
     * first critical section. The worker holds no task at that point. If the
     * pool is shut down the loop exits; on an empty queue only the worker's
     * own busy flag is cleared; otherwise the front task is removed and the
     * worker is marked busy, in the same step.
     */
    method WorkerStep(id: nat) returns (s: Step)
      requires Valid() && id < nThreads && workers[id] == Running && held[id] == None
      modifies this
      ensures Valid()
      ensures nThreads == old(nThreads) && workers == old(workers) && running == old(running)
      ensures pushed == old(pushed) && finished == old(finished)
      ensures !old(running) ==>
                s == Exited && taskQueue == old(taskQueue) && busy == old(busy) &&
                held == old(held) && dequeued == old(dequeued)
      ensures old(running) && old(taskQueue) == [] ==>
                s == Idle && taskQueue == old(taskQueue) && busy == old(busy)[id := false] &&
                held == old(held) && dequeued == old(dequeued)
      ensures old(running) && old(taskQueue) != [] ==>
                s == Dequeued(old(taskQueue)[0]) && taskQueue == old(taskQueue)[1..] &&
                busy == old(busy)[id := true] && held == old(held)[id := Some(old(taskQueue)[0])] &&
                dequeued == old(dequeued) + [old(taskQueue)[0]]
    {
      if !running {
        return Exited;
      }
      if |taskQueue| == 0 {
        IdleKeepsAccounts(pushed, dequeued, taskQueue, finished, busy, held, id);
        busy := busy[id := false];
        return Idle;
      }
      DequeueKeepsAccounts(pushed, dequeued, taskQueue, finished, busy, held, id);
      TakeKeepsLifecycle(workers, running, held, id, taskQueue[0]);
      var task := taskQueue[0];
      taskQueue := taskQueue[1..];
      busy := busy[id := true];
      dequeued := dequeued + [task];
      held := held[id := Some(task)];
      s := Dequeued(task);
    }

    /**
     * Worker `id` returns from the body of the task it holds: the task is
     * finished and, in the second critical section, only that worker's busy
     * flag is cleared (the `notify_all` that follows changes no state).
     */
    method FinishTask(id: nat)
      requires Valid() && id < nThreads && held[id].Some?
      modifies this
      ensures Valid()
      ensures busy == old(busy)[id := false] && held == old(held)[id := None]
      ensures finished == old(finished) + multiset{old(held)[id].value}
      ensures taskQueue == old(taskQueue) && pushed == old(pushed) && dequeued == old(dequeued)
      ensures nThreads == old(nThreads) && workers == old(workers) && running == old(running)
    {
      FinishKeepsAccounts(pushed, dequeued, taskQueue, finished, busy, held, id);
      ghost var task := held[id].value;
      held := held[id := None];
      finished := finished + multiset{task};
      busy := busy[id := false];
    }

    /**
     * `parallel_for(start, end, f)` up to its final `wait()`: pushes the
     * tasks of `BlockTasks`, one per worker, or nothing when `start >= end`.
     */
    method ParallelFor(start: nat, end: nat, body: nat)
      requires Valid()
      modifies this
      ensures Valid()
      ensures taskQueue == old(taskQueue) + BlockTasks(body, start, end, nThreads)
      ensures pushed == old(pushed) + BlockTasks(body, start, end, nThreads)
      ensures busy == old(busy) && workers == old(workers) && running == old(running)
      ensures nThreads == old(nThreads) && held == old(held)
      ensures dequeued == old(dequeued) && finished == old(finished)
    {
      if start >= end {
        return;
      }
      ghost var ts := BlockTasks(body, start, end, nThreads);
      var t := 0;
      while t < nThreads
        invariant nThreads == old(nThreads) && |ts| == nThreads
        invariant Valid() && t <= nThreads
        invariant taskQueue == old(taskQueue) + ts[..t] && pushed == old(pushed) + ts[..t]
        invariant busy == old(busy) && workers == old(workers) && running == old(running)
        invariant nThreads == old(nThreads) && held == old(held)
        invariant dequeued == old(dequeued) && finished == old(finished)
      {
        var blockSize := end - start;
        var blockStart := BlockStart(t, blockSize, nThreads);
        var blockEnd := BlockEnd(t, blockSize, nThreads);
        assert ts[t] == Bound(body, blockStart, blockEnd);
        Push(Bound(body, blockStart, blockEnd));
        assert ts[..t + 1] == ts[..t] + [ts[t]];
        t := t + 1;
      }
      assert ts[..nThreads] == ts;
    }

    /**
     * Joining worker `id` after shutdown: the worker first finishes the task
     * it holds, if any, then its loop test sees the pool shut down and it
     * exits without taking anything from the queue.
     */
    method Join(id: nat)
      requires Valid() && !running && id < nThreads && workers[id] == Running
      modifies this
      ensures Valid() && !running
      ensures workers == old(workers)[id := Joined] && held == old(held)[id := None]
      ensures finished == old(finished) + Held(old(held)[id])
      ensures busy == old(busy)[id := false]
      ensures taskQueue == old(taskQueue) && pushed == old(pushed) && dequeued == old(dequeued)
      ensures nThreads == old(nThreads)
    {
      if busy[id] {
        FinishTask(id);
      }
      var s := WorkerStep(id);
      assert s == Exited;
      workers := workers[id := Joined];
    }

    /**
     * The `for_each` of the destructor: join every worker in index order.
     * Each finishes the task it holds, if any, and none takes another.
     */
    method JoinAll()
      requires Valid() && !running
      requires forall i :: 0 <= i < nThreads ==> workers[i] == Running
      modifies this
      ensures Valid() && !running
      ensures forall i :: 0 <= i < nThreads ==> workers[i] == Joined && !busy[i]
      ensures taskQueue == old(taskQueue) && pushed == old(pushed) && dequeued == old(dequeued)
      ensures nThreads == old(nThreads)
    {
      var t := 0;
      while t < nThreads
        invariant Valid() && !running && t <= nThreads == old(nThreads)
        invariant forall i :: 0 <= i < t ==> workers[i] == Joined && !busy[i]
        invariant forall i :: t <= i < nThreads ==> workers[i] == Running
        invariant taskQueue == old(taskQueue) && pushed == old(pushed) && dequeued == old(dequeued)
      {
        Join(t);
        t := t + 1;
      }
    }

    /**
     * `~ThreadPool()`: shut the pool down and join every worker. Tasks in
     * flight are finished. Tasks still queued after each worker's last step
     * that read the running flag set are discarded, never run.
     */
    method Destroy()
      requires Valid() && running
      modifies this
      ensures Valid() && !running
      ensures forall i :: 0 <= i < nThreads ==> workers[i] == Joined && !busy[i]
      ensures finished == old(finished) + InFlight(old(held))
      ensures taskQueue == old(taskQueue) && pushed == old(pushed) && dequeued == old(dequeued)
      ensures nThreads == old(nThreads)
    {
      ghost var inFlight := InFlight(held);
      assert multiset(dequeued) == finished + inFlight;
      assert forall i :: 0 <= i < nThreads ==> workers[i] == Running;
      running := false;
      JoinAll();
      AllIdleAllFinished(dequeued, old(finished), inFlight, finished, busy, held);
    }
  }

  /**
   * No task is lost or duplicated: every task pushed is finished, being
   * executed by a busy worker, or still queued, and at most one task per
   * worker is being executed.
   */
  lemma TaskConservation(p: ThreadPool)
    requires p.Valid()
    ensures |p.pushed| == |p.finished| + BusyCount(p.busy) + |p.taskQueue|
    ensures BusyCount(p.busy) <= p.NumThreads()
  {
    BusyCountIsInFlight(p.busy, p.held);
    assert |multiset(p.dequeued)| == |p.dequeued|;
  }

  /**
   * The barrier is sound and complete: the `wait()` predicate holds exactly
   * when every task ever pushed has been taken from the queue in push order
   * and has finished, each as many times as it was pushed.
   */
  lemma BarrierSound(p: ThreadPool)
    requires p.Valid()
    ensures p.Drained() <==> p.dequeued == p.pushed && p.finished == multiset(p.pushed)
  {
    IdleHoldsNothing(p.busy, p.held);
    if p.finished == multiset(p.pushed) {
      assert multiset(p.pushed) == multiset(p.dequeued) + multiset(p.taskQueue);
      assert |multiset(p.taskQueue)| + |InFlight(p.held)| == 0;
      assert |p.taskQueue| == 0;
    }
  }
}
