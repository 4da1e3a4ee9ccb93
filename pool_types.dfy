/**
 * Values shared by both versions of the pool: the tasks it stores, the
 * lifecycle of a worker thread, and what one pass of a worker's loop does.
 */
module PoolTypes {

  datatype Option<T> = None | Some(value: T)

  /**
   * A unit of work. The pool never looks inside a task; it only stores and
   * hands it out. `Opaque` is any callable given to `push`; `Bound` is the
   * callable `parallel_for` builds by binding the user's body `body` to the
   * offsets of one block.
   */
  datatype Task = Opaque(id: nat) | Bound(body: nat, blockStart: nat, blockEnd: nat)

  /**
   * A slot of the thread vector: default-constructed (no thread yet), a
   * thread running the worker loop, or a thread that has been joined.
   */
  datatype ThreadState = NotStarted | Running | Joined

  /**
   * The outcome of one pass of the worker loop: the loop test saw the pool
   * shut down, the queue was empty, or the front task was taken.
   */
  datatype Step = Exited | Idle | Dequeued(task: Task)
}
