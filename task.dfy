/** Task (lib/task.py): an id and a callable, with the lock every
    ThreadSafeWrapper gets from the base constructor. The callable is an
    input: what it returns or raises when called. */
module Tasks {
  import opened ThreadSafe
  import opened Scheduling

  class Task<T> {
    const lock: Lock
    const id: string
    const callableFunc: () -> Outcome<T>
    /** How many times `run` has called the callable. */
    ghost var invocations: nat

    /** Stores the id and the callable as given; the lock is new, so no
        two tasks share one. */
    constructor (id: string, callableFunc: () -> Outcome<T>)
      ensures this.id == id && this.callableFunc == callableFunc
      ensures fresh(lock)
      ensures invocations == 0
    {
      lock := new Lock();
      this.id := id;
      this.callableFunc := callableFunc;
      invocations := 0;
    }

    /** Calls the callable once, under the lock, and returns what it
        returns (or raises). */
    method Run() returns (r: Outcome<T>)
      modifies this
      ensures r == callableFunc()
      ensures invocations == old(invocations) + 1
    {
      invocations := invocations + 1;
      r := callableFunc();
    }
  }
}
