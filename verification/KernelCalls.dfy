/** The creating system calls, over the records of the kernel and its heap together: the memory of a new
    record comes from the heap, and a call that fails leaves the heap as it was. */
module KernelCalls {
  import opened KernelObjects
  import opened HeapModel
  import opened HeapAllocator
  import opened KernelSync
  import opened ThreadMemory
  import I = QueueImage
  import Y = SyscallImage

  /** struct kmutex and struct kcond on RV32. */
  const MUTEX_BYTES := 16
  const COND_BYTES := 8

  /** syscall_thread_create; `argsOk` says that neither pointer argument is null, and the thread-local
      data takes `tdataBytes` bytes. */
  method ThreadCreate(k: Kernel, heap: Heap, argsOk: bool, tdataBytes: nat) returns (t: KThread?)
    requires k.Mirrors() && k.current in k.im.threads && I.ReadyMapped(k.im)
    requires heap.Valid() && tdataBytes < WORD_LIMIT
    modifies heap, k`head, k`tail, k`im
    modifies k.im.threads.Keys`state, k.im.threads.Keys`next, k.im.threads.Keys`waitingOn, k.im.threads.Keys`a0
    ensures k.Mirrors()
    ensures t != null <==> argsOk && ThreadFits(old(heap.st), tdataBytes)
    ensures heap.Valid() <==> !(t != null && tdataBytes == WORD_LIMIT - HEADER_SIZE)
    ensures t == null ==>
      && heap.st == old(heap.st)
      && k.im == I.SetRet(old(k.im), k.current, if argsOk then NO_MEMORY else ERROR)
    ensures t != null ==> fresh(t) && k.im == Y.CreateCall(old(k.im), t)
    ensures t != null && heap.Valid() ==>
      exists thread, stack, tdata :: Allocated(old(heap.st), heap.st, thread, stack, tdata, tdataBytes)
  {
    var thread, stack, tdata := 0, 0, 0;
    if argsOk {
      thread, stack, tdata := AllocateThread(heap, tdataBytes);
    }
    t := k.SyscallThreadCreate(argsOk, thread != 0);
    assert t != null && heap.Valid() ==> Allocated(old(heap.st), heap.st, thread, stack, tdata, tdataBytes);
  }

  /** The heap has three more runs: a thread, its stack and its thread-local data. */
  ghost predicate Allocated(s: HeapState, s': HeapState, thread: int, stack: int, tdata: int, tdataBytes: nat) {
    && thread != 0 && stack != 0 && tdata != 0 && thread != stack && stack != tdata && thread != tdata
    && s'.live == s.live + {
         Run(thread - HEADER_SIZE, BlocksFor(KTHREAD_BYTES)),
         Run(stack - HEADER_SIZE, BlocksFor(STACK_BYTES)),
         Run(tdata - HEADER_SIZE, BlocksFor(tdataBytes))}
  }

  /** syscall_mutex_create */
  method MutexCreate(k: Kernel, heap: Heap, argsOk: bool, recursive: bool) returns (m: KMutex?)
    requires k.Mirrors() && k.current in k.im.threads && heap.Valid()
    modifies heap, k`im, k.current`a0
    ensures k.Mirrors() && heap.Valid()
    ensures m == null ==>
      && heap.st == old(heap.st)
      && k.im == I.SetRet(old(k.im), k.current, if argsOk then NO_MEMORY else ERROR)
    ensures m == null && argsOk ==>
      forall i :: 0 <= i < |heap.st.free| ==> heap.st.free[i].blocks < BlocksFor(MUTEX_BYTES)
    ensures m != null ==>
      && argsOk && fresh(m) && m.recursive == recursive && k.im == Y.NewMutexCall(old(k.im), m)
      && exists r :: Grown(old(heap.st), heap.st, r) && r.blocks == BlocksFor(MUTEX_BYTES)
  {
    var ptr := 0;
    ghost var r := Run(0, 0);
    AllocSpec(heap.st, MUTEX_BYTES);
    if argsOk {
      ptr, r := Acquire(heap, MUTEX_BYTES);
    }
    m := k.SyscallMutexCreate(argsOk, ptr != 0, recursive);
  }

  /** syscall_cond_create */
  method CondCreate(k: Kernel, heap: Heap, argsOk: bool) returns (c: KCond?)
    requires k.Mirrors() && k.current in k.im.threads && heap.Valid()
    modifies heap, k`im, k.current`a0
    ensures k.Mirrors() && heap.Valid()
    ensures c == null ==>
      && heap.st == old(heap.st)
      && k.im == I.SetRet(old(k.im), k.current, if argsOk then NO_MEMORY else ERROR)
    ensures c == null && argsOk ==>
      forall i :: 0 <= i < |heap.st.free| ==> heap.st.free[i].blocks < BlocksFor(COND_BYTES)
    ensures c != null ==>
      && argsOk && fresh(c) && k.im == Y.NewCondCall(old(k.im), c)
      && exists r :: Grown(old(heap.st), heap.st, r) && r.blocks == BlocksFor(COND_BYTES)
  {
    var ptr := 0;
    ghost var r := Run(0, 0);
    AllocSpec(heap.st, COND_BYTES);
    if argsOk {
      ptr, r := Acquire(heap, COND_BYTES);
    }
    c := k.SyscallCondCreate(argsOk, ptr != 0);
  }
}
