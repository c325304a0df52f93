/** The kernel's synchronisation records. One `next` link per thread serves the ready queue
    and every mutex and condition queue. */
module KernelObjects {

  datatype ThreadState = CREATED | READY | RUNNING | BLOCKED

  /** enum __thread_status; the value a system call leaves in register a0. */
  datatype Status = SUCCESS | NO_MEMORY | TIMED_OUT | BUSY | ERROR

  class KThread {
    var state: ThreadState
    var next: KThread?
    var waitingOn: KMutex?
    var a0: Status

    /** A thread as kthread_create leaves it. */
    constructor ()
      ensures state == READY && next == null && waitingOn == null && a0 == SUCCESS
    {
      state, next, waitingOn, a0 := READY, null, null, SUCCESS;
    }
  }

  class KMutex {
    var owner: KThread?
    var queueHead: KThread?
    var queueTail: KThread?
    var lockCount: int
    const recursive: bool

    /** kmutex_init */
    constructor (recursive: bool)
      ensures owner == null && queueHead == null && queueTail == null && lockCount == 0
      ensures this.recursive == recursive
    {
      owner, queueHead, queueTail, lockCount := null, null, null, 0;
      this.recursive := recursive;
    }
  }

  class KCond {
    var queueHead: KThread?
    var queueTail: KThread?

    /** kcond_init */
    constructor ()
      ensures queueHead == null && queueTail == null
    {
      queueHead, queueTail := null, null;
    }
  }
}
