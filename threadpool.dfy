/**
 * The earlier thread pool (`ThreadPool` of `threadpool.hpp`): a queue of
 * tasks drained by worker threads, with no busy flags and no barrier. Each
 * critical section under the queue mutex is one method. Ghost bookkeeping
 * records every task pushed and every task taken from the queue.
 */
module LegacyPool {
  import opened PoolTypes

  class ThreadPool {
    var running: bool               // `_running`
    var nThreads: nat               // `_n_threads`
    var threads: seq<ThreadState>   // `_threads`
    var taskQueue: seq<Task>        // `_task_queue`, front first

    ghost var pushed: seq<Task>     // every task pushed, in push order
    ghost var dequeued: seq<Task>   // every task taken from the queue, in order

    ghost predicate Valid()
      reads this
    {
      |threads| == nThreads &&
      pushed == dequeued + taskQueue &&
      (forall i :: 0 <= i < nThreads ==> threads[i] != NotStarted) &&
      (forall i :: 0 <= i < nThreads && threads[i] == Joined ==> !running)
    }

    /**
     * `ThreadPool(n_threads)`: the thread vector is resized to `n` empty
     * slots, then a worker thread is started in each slot.
     */
    constructor (n: nat)
      ensures Valid() && running && nThreads == n
      ensures threads == seq(n, _ => Running)
      ensures taskQueue == [] && pushed == []
    {
      var ts: seq<ThreadState> := seq(n, _ => NotStarted);
      var t := 0;
      while t < n
        invariant t <= n && |ts| == n
        invariant forall i :: 0 <= i < t ==> ts[i] == Running
        invariant forall i :: t <= i < n ==> ts[i] == NotStarted
      {
        ts := ts[t := Running];
        t := t + 1;
      }
      running := true;
      nThreads := n;
      threads := ts;
      taskQueue := [];
      pushed, dequeued := [], [];
    }

    /** `get_num_threads()`: one slot of the thread vector per thread. */
    function NumThreads(): (r: nat)
      reads this
      requires Valid()
      ensures r == |threads|
    {
      nThreads
    }

    /** `push(task)`: the task joins the tail of the queue; nothing else changes. */
    method Push(task: Task)
      requires Valid()
      modifies this
      ensures Valid()
      ensures taskQueue == old(taskQueue) + [task] && pushed == old(pushed) + [task]
      ensures threads == old(threads) && running == old(running) && nThreads == old(nThreads)
      ensures dequeued == old(dequeued)
    {
      assert dequeued + (taskQueue + [task]) == (dequeued + taskQueue) + [task];
      taskQueue := taskQueue + [task];
      pushed := pushed + [task];
    }

    /**
     * One pass of the loop of the worker in slot `id`, from the loop test to
     * the end of the critical section: the loop exits once the pool is shut down, an empty
     * queue is left alone, and otherwise exactly the front task is removed
     * and handed to the worker.
     */
    method WorkerStep(id: nat) returns (s: Step)
      requires Valid() && id < nThreads && threads[id] == Running
      modifies this
      ensures Valid()
      ensures threads == old(threads) && running == old(running) && nThreads == old(nThreads)
      ensures pushed == old(pushed)
      ensures !old(running) ==> s == Exited && taskQueue == old(taskQueue) && dequeued == old(dequeued)
      ensures old(running) && old(taskQueue) == [] ==>
                s == Idle && taskQueue == old(taskQueue) && dequeued == old(dequeued)
      ensures old(running) && old(taskQueue) != [] ==>
                s == Dequeued(old(taskQueue)[0]) && taskQueue == old(taskQueue)[1..] &&
                dequeued == old(dequeued) + [old(taskQueue)[0]]
    {
      if !running {
        return Exited;
      }
      if |taskQueue| == 0 {
        return Idle;
      }
      var job := taskQueue[0];
      assert taskQueue == [job] + taskQueue[1..];
      assert (dequeued + [job]) + taskQueue[1..] == dequeued + taskQueue;
      taskQueue := taskQueue[1..];
      dequeued := dequeued + [job];
      s := Dequeued(job);
    }

    /**
     * Joining thread `id` after shutdown: its loop test sees the pool shut
     * down and it exits without taking anything from the queue.
     */
    method Join(id: nat)
      requires Valid() && !running && id < nThreads && threads[id] == Running
      modifies this
      ensures Valid() && !running
      ensures threads == old(threads)[id := Joined]
      ensures taskQueue == old(taskQueue) && pushed == old(pushed) && dequeued == old(dequeued)
      ensures nThreads == old(nThreads)
    {
      var s := WorkerStep(id);
      assert s == Exited;
      threads := threads[id := Joined];
    }

    /**
     * `~ThreadPool()`: clear the running flag, then join every thread.
     * Tasks still queued after each thread's last step that read the
     * running flag set are discarded, never run.
     */
    method Destroy()
      requires Valid() && running
      modifies this
      ensures Valid() && !running
      ensures forall i :: 0 <= i < nThreads ==> threads[i] == Joined
      ensures taskQueue == old(taskQueue) && pushed == old(pushed) && dequeued == old(dequeued)
      ensures nThreads == old(nThreads)
    {
      running := false;
      var t := 0;
      while t < nThreads
        invariant Valid() && !running && t <= nThreads == old(nThreads)
        invariant forall i :: 0 <= i < t ==> threads[i] == Joined
        invariant forall i :: t <= i < nThreads ==> threads[i] == Running
        invariant taskQueue == old(taskQueue) && pushed == old(pushed) && dequeued == old(dequeued)
      {
        Join(t);
        t := t + 1;
      }
    }
  }

  /**
   * Tasks leave the queue in push order: what has been dequeued is always a
   * prefix of what has been pushed, and the queue holds the rest.
   */
  lemma DequeueOrderIsPushOrder(p: ThreadPool)
    requires p.Valid()
    ensures |p.dequeued| <= |p.pushed| && p.dequeued == p.pushed[..|p.dequeued|]
    ensures p.taskQueue == p.pushed[|p.dequeued|..]
  {
  }
}
