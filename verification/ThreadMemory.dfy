/** The memory part of kthread_create: three allocations, undone in reverse on failure. */
module ThreadMemory {
  import opened HeapModel
  import opened HeapAllocator

  /** struct kthread on RV32: 16 registers, status, pc and six more words. */
  const KTHREAD_BYTES := 96
  const STACK_BYTES := 0x1000

  lemma OneRunPerAddress(s: HeapState, r: Run, q: Run)
    requires Inv(s) && r in s.live && q in s.live && r.addr == q.addr
    ensures r == q
  {
    assert r != q ==> r.Apart(q);
  }

  /** `t` is `s` with one more live run. */
  ghost predicate Grown(s: HeapState, t: HeapState, r: Run) {
    && Inv(s) && s.lo == t.lo && s.hi == t.hi
    && t.live == s.live + {r}
    && (forall q :: q in s.live ==> q.addr != r.addr)
  }

  lemma AllocGrows(s: HeapState, bytes: nat)
    requires Inv(s) && Harmless(s, bytes)
    ensures var (t, ptr) := HeapModel.Alloc(s, bytes);
      if ptr == 0 then t == s else Grown(s, t, Run(ptr - HEADER_SIZE, BlocksFor(bytes)))
  {
    AllocSpec(s, bytes);
    var (t, ptr) := HeapModel.Alloc(s, bytes);
    var r := Run(ptr - HEADER_SIZE, BlocksFor(bytes));
    forall q | ptr != 0 && q in s.live ensures q.addr != r.addr {
      assert r.Apart(q);
    }
  }

  /** One allocation of the sequence, with what its undo will need. */
  method Acquire(heap: Heap, bytes: nat) returns (ptr: int, ghost r: Run)
    requires heap.Valid() && bytes < WORD_LIMIT
    modifies heap
    ensures heap.Valid() <==> Harmless(old(heap.st), bytes)
    ensures ptr == HeapModel.Alloc(old(heap.st), bytes).1 && (!heap.Valid() ==> ptr != 0)
    ensures heap.Valid() ==> heap.st == HeapModel.Alloc(old(heap.st), bytes).0
    ensures heap.Valid() && ptr == 0 ==> heap.st == old(heap.st)
    ensures heap.Valid() && ptr != 0 ==>
              r == Run(ptr - HEADER_SIZE, BlocksFor(bytes)) && Grown(old(heap.st), heap.st, r)
  {
    if Harmless(heap.st, bytes) {
      AllocGrows(heap.st, bytes);
    }
    ptr := heap.Alloc(bytes);
    r := Run(ptr - HEADER_SIZE, BlocksFor(bytes));
  }

  /** A release of the most recent allocation takes the heap back. */
  method Undo(heap: Heap, ptr: int, ghost before: HeapState, ghost r: Run)
    requires heap.Valid()
    requires r.addr == ptr - HEADER_SIZE && Grown(before, heap.st, r)
    modifies heap
    ensures heap.Valid() && heap.st == before
  {
    assert heap.LivePointer(ptr);
    OneRunPerAddress(heap.st, r, heap.RunOf(ptr));
    heap.Dealloc(ptr);
    assert heap.st.live == before.live;
    FreeListDetermined(heap.st, before);
  }

  /** The heap has room for a stack, and then for thread-local data. */
  predicate StackFits(s: HeapState, tdataBytes: nat) {
    var (s', stack) := HeapModel.Alloc(s, STACK_BYTES);
    stack != 0 && HeapModel.Alloc(s', tdataBytes).1 != 0
  }

  /** The heap has room for a thread, and then for its stack and thread-local data. */
  predicate ThreadFits(s: HeapState, tdataBytes: nat) {
    var (s', thread) := HeapModel.Alloc(s, KTHREAD_BYTES);
    thread != 0 && StackFits(s', tdataBytes)
  }

  /** The stack and the thread-local data, or neither. */
  method AllocateStackAndData(heap: Heap, tdataBytes: nat) returns (stack: int, tdata: int)
    requires heap.Valid() && tdataBytes < WORD_LIMIT
    modifies heap
    ensures stack != 0 <==> StackFits(old(heap.st), tdataBytes)
    ensures heap.Valid() <==> !(stack != 0 && tdataBytes == WORD_LIMIT - HEADER_SIZE)
    ensures stack == 0 ==> heap.st == old(heap.st)
    ensures stack != 0 && heap.Valid() ==>
      var r2 := Run(stack - HEADER_SIZE, BlocksFor(STACK_BYTES));
      var r3 := Run(tdata - HEADER_SIZE, BlocksFor(tdataBytes));
      && tdata != 0 && stack != tdata
      && heap.st.live == old(heap.st.live) + {r2, r3}
      && (forall q :: q in old(heap.st.live) ==> q.addr != r2.addr && q.addr != r3.addr)
  {
    hide Inv, HeapModel.Alloc, BlocksFor;
    ghost var s1 := heap.st;
    ghost var r2, r3;
    tdata := 0;
    stack, r2 := Acquire(heap, STACK_BYTES);
    if stack != 0 {
      ghost var s2 := heap.st;
      tdata, r3 := Acquire(heap, tdataBytes);
      NothingFits(s2, tdataBytes);
      if tdata == 0 {
        Undo(heap, stack, s1, r2);
        stack := 0;
      }
    }
  }

  /** Without a free run no request is met. */
  lemma NothingFits(s: HeapState, bytes: nat)
    ensures s.free == [] ==> HeapModel.Alloc(s, bytes) == (s, 0)
  {
  }

  /** kthread_create up to the allocation of thread-local data of `tdataBytes` bytes. It fails exactly when
      one of the allocations does, and then the heap is exactly as it was. Only thread-local data of
      2^32 - 12 bytes can damage the heap. */
  method AllocateThread(heap: Heap, tdataBytes: nat) returns (thread: int, stack: int, tdata: int)
    requires heap.Valid() && tdataBytes < WORD_LIMIT
    modifies heap
    ensures thread != 0 <==> ThreadFits(old(heap.st), tdataBytes)
    ensures heap.Valid() <==> !(thread != 0 && tdataBytes == WORD_LIMIT - HEADER_SIZE)
    ensures thread == 0 ==> heap.st == old(heap.st)
    ensures thread != 0 && heap.Valid() ==>
      && stack != 0 && tdata != 0 && thread != stack && stack != tdata && thread != tdata
      && heap.st.live == old(heap.st.live) + {
           Run(thread - HEADER_SIZE, BlocksFor(KTHREAD_BYTES)),
           Run(stack - HEADER_SIZE, BlocksFor(STACK_BYTES)),
           Run(tdata - HEADER_SIZE, BlocksFor(tdataBytes))}
  {
    hide Inv, HeapModel.Alloc, BlocksFor, StackFits;
    ghost var s0 := heap.st;
    ghost var r1;
    stack, tdata := 0, 0;
    thread, r1 := Acquire(heap, KTHREAD_BYTES);
    if thread != 0 {
      stack, tdata := AllocateStackAndData(heap, tdataBytes);
      if stack == 0 {
        Undo(heap, thread, s0, r1);
        thread := 0;
      }
    }
  }
}
