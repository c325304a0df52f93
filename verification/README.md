# Verification of the Niski kernel and CPU

A Dafny 4.11 model of the hardest parts of the Niski computer, with proofs: the kernel allocators, the thread
synchronisation of the kernel, the multi-cycle CPU with its bus and memory, and `strtol`. `dafny verify
dfyconfig.toml` checks everything, with the options that file sets.

## Structure

| file | content |
|---|---|
| Links.dfy | doubly linked lists of headers in raw memory, shared by heap, buddy allocator and thread-local storage |
| HeapModel.dfy, HeapAllocator.dfy, ThreadMemory.dfy | first-fit heap on values, the same on linked headers, and the allocations of kthread_create |
| KernelObjects.dfy | thread, mutex and condition records |
| SyncModel.dfy, SyncRuns.dfy, SyncHistory.dfy | the queues as a transition system, its invariant, what holds over runs, and what a history says about threads, queues and owners |
| QueueImage.dfy, SyscallImage.dfy, SyscallGuards.dfy | the contents of all records as a value, how each call changes it, and when a call leaves sound records |
| Kernel.dfy, KernelCalls.dfy | the kernel functions and system calls, writing the records in place, and the creating calls on kernel and heap together |
| Isa.dfy, Bits.dfy | the instruction set, its encoding and its traps; the bits of a word |
| CpuUnits.dfy, Cpu.dfy, CpuRefinement.dfy, Interrupts.dfy | decoder, ALU and other units; the state machine; the refinement proof; selection of interrupts and numbers of causes |
| BusParts.dfy, Addresses.dfy, BusAccess.dfy, BusLiveness.dfy, BusMachines.dfy | the machines on the bus, the addresses of a memory as numbers, safety under any DMA, liveness, and the machines as clocked objects |
| Machine.dfy, MachineRuns.dfy | CPU, bus, RAM and watchdog wired together under any DMA: one clock edge, and runs |
| BuddyModel.dfy, BuddyAllocator.dfy | split and join of the buddy allocator on lists, and on linked headers |
| Slab.dfy, ThreadLocal.dfy, Conversions.dfy | slab allocator, thread-local storage, strtol |

## Heap

Addresses are bytes; a block has 64 of them and a header 12 (RV32). The state is the list of free runs and the set of
live runs. The invariant makes the free list the unique list of maximal free runs, so exact inverses and independence
of the order of frees follow for all histories. The class keeps real headers with `next` and `prev`; each method ends
in the headers of the model state. A request of 2^32 - 12 bytes makes the header addition wrap to 0 blocks;
`Heap.Alloc` states that this is the only request that damages the list, and only while that is not empty. All other
requests are covered, although those above 2^32 - 12 bytes get fewer bytes than they ask for (`BlocksHoldRequest`).

## Synchronisation

One `next` link per thread serves the ready queue and every mutex and condition queue. `Image` is the contents of all
records; the methods of `Kernel` are proved to write exactly the image that a function computes, and each system call
on images is one step of the queue system, unless it leaves nobody to run or such chains as below. The guards are
exact: a step keeps the invariant if and only if its guard, a condition on the state the call finds, holds
(`StepKeepsIffGuard`), and so it is with the records themselves (`CallKeepsIffGuard`). The unguarded cases are a
recursive count at 65535, a wait with the mutex held recursively, a broadcast while the waiters' mutex is free, a
broadcast to waiters of several mutexes, and a call that leaves nobody to run.

A broadcast locks, for each waiter in order, the mutex that the waiter waits with. The loop does not clear the `next`
link of a waiter, so waiters of several mutexes leave the chains of these mutexes running into each other:
`BroadcastChainsIff` says that, with all these mutexes owned, the chains are well formed afterwards if and only if
there is one mutex, and `TwoMutexes` gives the smallest state in which they are not. In the queue system such a waiter
is `Astray`.

A call that leaves nobody to run concerns kthread_main, which may lock, wait and be queued like any other thread:
kthread_dispatch falls back on it when nobody is ready, even when it is blocked itself, and it then runs although it
is linked into a queue. When kthread_main gives way it is not queued and keeps its RUNNING tag; the place of such a
thread is `Reserve`.

## CPU and bus

A step is one clock edge with all right-hand sides taken from the old state. The instruction set follows sections 2.2
to 2.7 and 7.1 of the RISC-V Unprivileged ISA (20191213) and section 4.1.1 of the Privileged ISA for sstatus; an
instruction is given by its fields and `Encode` is the standard's encoding. The memory port may take any number of
edges, and may report a timeout instead of an answer. Where the code differs from the standard, the model follows the
code:

* ecall puts pc into stval;
* sret leaves SPP set, and runs in user mode too, where the standard wants an illegal-instruction exception;
* an interrupt leaves the value of the latest exception in stval;
* an access inside one aligned word is carried out even when it is not naturally aligned, and only an access that
  leaves its word is reported;
* a jump to a target that is not a multiple of four is reported by the fetch of the target, not by the jump;
* MULHSU multiplies both operands as unsigned; `MulhsuExactly` says for which operands its result is right.

The events of a run are not left open: `EventsOf` lists what its edges complete for the inputs they see. A fault is
that of a timeout, an interrupt that of the selection, and without both every pass retires the instruction at pc
(`UndisturbedRetires`). Traps are precise on the registers of the CPU over whole passes.

On the bus the DMA is a second master that may do anything at any edge. Two findings are exact. A timeout of the DMA
can reach the CPU: an access of the CPU to the memory ends in a timeout, although it has been carried out, if and only
if the watchdog is about to report at the edge that grants it (`TimeoutLeaksIff`); `StallLeaksIff` and `LeakingRuns`
give the runs from reset. And the watchdog counter has $clog2 bits, so it never reaches an ALLOWED_CYCLES that is a
power of two (`WatchdogFiresIff`, `RequestsHang`).

`Machine` wires CPU, interface, arbitrator, memory interface, RAM and watchdog together, with the RAM as the only
slave that answers the CPU. Every run of it is a run of the instruction set over byte memory on which the DMA stores
between instructions (`MachineRefines`). The DMA may do anything that is `Polite`: it must not leave the watchdog
about to report at the edge that grants the CPU the RAM, and must not change the instruction that is being executed.
The first cannot be dropped (`LeakMisfits`), and a DMA that asks for nothing meets both (`SilentRuns`). Passes end
within a bound that only depends on ALLOWED_CYCLES, not counting the edges at which the DMA has the bus
(`MachineProgresses`). A fetch or an access traps exactly when it leaves its word or misses the RAM, so without
interrupts the run is a function of the first state and the stores of the DMA (`MachineComputes`,
`MachineRunsProgram`). What is asked of the program is that the words fetched encode supported instructions; without
interrupts this is asked of the instruction set alone (`Fetchable`). stvec is in direct mode. The interrupt lines may
do anything; interrupts are only taken where mode and SIE allow them (`Sensible`), and one that is pending, enabled
and allowed when a pass starts is taken at its end unless the instruction raises an exception
(`PendingInterruptIsTaken`).

## Other allocators, thread-local storage, strtol

The buddy engine works on a region aligned to its own size with an order below BLOCK_SIZES, in the unit that the
exclusive or of find_buddy uses; the exclusive or is defined bit by bit. A slab gets its page from the caller. Records
of thread-local storage are addresses with their fields kept in maps; memory for a new record is a parameter that may
be null. `strtol` reads a NUL-terminated string; 64-bit arithmetic is checked by a newtype. `strtoll` saturates at
-(2^63 - 1) for negative numbers, one above LLONG_MIN; `WideIsExactIff` gives the exact condition, and `strtol` is not
affected. These differences from section 7.22.1.4 of ISO C11 are modelled as coded: a blank is not white space; a `0x`
prefix is only skipped for base 0, and then also when no hexadecimal digit follows; without any digit the end pointer
is behind the blanks, the sign and the prefix, not at the start; and on overflow it is at the digit that did not fit.

## Model

| member | source | states |
|---|---|---|
| HeapModel.BlocksHoldRequest | Software/src/kernel/mem_alloc/heap_allocator.c:30-38 | The block count holds header plus payload if and only if the 32-bit header addition does not wrap; it is 0 for exactly one request size |
| HeapModel.BlocksAreLeast | Software/src/kernel/mem_alloc/heap_allocator.c:30-38 | No smaller number of 64-byte blocks would hold header plus payload |
| HeapModel.FirstFit | Software/src/kernel/mem_alloc/heap_allocator.c:43-47 | The search stops at the first segment that is large enough, or finds that none is |
| HeapModel.AllocSpec | Software/src/kernel/mem_alloc/heap_allocator.c:40-84 | For every request but 2^32 - 12 bytes on a non-empty free list: an allocation fails exactly when no free segment has the computed number of blocks; otherwise it returns the lowest-addressed fit, disjoint from every live run, and keeps the invariant |
| HeapModel.CanonicalUnique | Software/src/kernel/mem_alloc/heap_allocator.c:86-122 | Two ordered lists of maximal free runs that cover the same addresses are the same list |
| HeapModel.FreeListDetermined | Software/src/kernel/mem_alloc/heap_allocator.c:86-122 | The free list is a function of the set of live runs alone |
| HeapModel.ReleaseCovers | Software/src/kernel/mem_alloc/heap_allocator.c:86-122 | Inserting a run by address and joining it both ways gives an ordered list without touching segments that covers the old addresses and the returned ones |
| HeapModel.DeallocKeepsInv | Software/src/kernel/mem_alloc/heap_allocator.c:99-122 | Freeing a live run keeps order, no touching segments, and the tiling of the heap by free and live runs |
| HeapModel.DeallocUndoesAlloc | Software/src/kernel/mem_alloc/heap_allocator.c:40-122 | Freeing what was just allocated restores the exact heap, in the split and in the exact-fit branch |
| HeapModel.InitialInv | Software/src/kernel/mem_alloc/heap_allocator.c:19-28 | The initial single segment satisfies the invariant |
| HeapModel.RunKeepsInv | Software/src/kernel/mem_alloc/heap_allocator.c:40-122 | Over any run of frees of live runs and allocations, of any size but 2^32 - 12 bytes on a non-empty free list, the invariant holds: ordered, no two free segments touch, free plus live tile the heap |
| HeapModel.HistoriesAgree | Software/src/kernel/mem_alloc/heap_allocator.c:40-122 | Any two such histories that leave the same runs live leave the same heap; in particular frees commute |
| HeapModel.AllFreedIsInitial | Software/src/kernel/mem_alloc/heap_allocator.c:86-122 | Once everything is freed the heap is the single initial segment again |
| HeapAllocator.Heap.constructor | Software/src/kernel/mem_alloc/heap_allocator.c:19-28 | The header written at boot holds the initial heap, which ends less than a block before the end address, if and only if the region has room for a block |
| HeapAllocator.Heap.FindFit | Software/src/kernel/mem_alloc/heap_allocator.c:43-47 | The list walk ends at the header of the first segment that fits, or at null |
| HeapAllocator.Heap.Split | Software/src/kernel/mem_alloc/heap_allocator.c:54-68 | The remainder takes the place of the segment: both neighbours, or the head, point at it |
| HeapAllocator.Heap.Unlink | Software/src/kernel/mem_alloc/heap_allocator.c:71-77 | Both neighbours of the segment, or the head, are linked past it |
| HeapAllocator.Heap.TakeFrom | Software/src/kernel/mem_alloc/heap_allocator.c:52-81 | The headers afterwards hold the heap with the blocks taken from that segment |
| HeapAllocator.Heap.Alloc | Software/src/kernel/mem_alloc/heap_allocator.c:40-84 | The returned pointer is always that of first fit; the headers hold the heap that first fit produces, for every request but one: 2^32 - 12 bytes on a non-empty free list, which returns a pointer and damages the doubly linked list |
| HeapAllocator.Heap.TryJoinNext | Software/src/kernel/mem_alloc/heap_allocator.c:86-97 | The list afterwards holds the segment joined with its successor exactly when they touch |
| HeapAllocator.Heap.FindPrev | Software/src/kernel/mem_alloc/heap_allocator.c:102-106 | The walk ends between the last free segment below the returned one and the first above it |
| HeapAllocator.Heap.LinkIn | Software/src/kernel/mem_alloc/heap_allocator.c:108-117 | The returned segment is linked in both directions behind its predecessor |
| HeapAllocator.Heap.JoinBothWays | Software/src/kernel/mem_alloc/heap_allocator.c:119-121 | The segment is joined with the next one and then with the previous one |
| HeapAllocator.Heap.Return | Software/src/kernel/mem_alloc/heap_allocator.c:102-121 | The list work of a free, as one insertion by address with joins; all other headers keep their words |
| HeapAllocator.Heap.Dealloc | Software/src/kernel/mem_alloc/heap_allocator.c:99-122 | The headers hold the heap with the live run returned |
| ThreadMemory.AllocGrows | Software/src/kernel/mem_alloc/heap_allocator.c:40-84 | One allocation adds exactly one live run at a new address, or changes nothing |
| ThreadMemory.Acquire | Software/src/kernel/sync/thread.c:37-43 | One allocation of kthread_create, of any size, with what its undo needs |
| ThreadMemory.Undo | Software/src/kernel/sync/thread.c:42-43 | Freeing the most recent allocation takes the heap back to the state before it |
| ThreadMemory.AllocateStackAndData | Software/src/kernel/sync/thread.c:41-55 | Stack and thread-local data are both allocated exactly when first fit finds room for one and then the other; otherwise the heap is as it was |
| ThreadMemory.AllocateThread | Software/src/kernel/sync/thread.c:36-55 | The allocations of kthread_create succeed exactly when first fit finds room for thread, stack and thread-local data in turn; otherwise the heap is exactly as before; a success adds three runs, and damages the heap exactly for thread-local data of 2^32 - 12 bytes |
| SyncModel.StepQueues | Software/src/kernel/sync/mutex.c:15-78 | Every operation, guarded or not, but a broadcast to waiters of several mutexes keeps all queues duplicate-free and in agreement with the place of every thread |
| SyncModel.LockKeeps | Software/src/kernel/sync/mutex.c:25-49 | A guarded lock keeps the invariant of ownership, counts and places |
| SyncModel.LockBreaks | Software/src/kernel/sync/mutex.c:33-41 | An unguarded lock breaks it: the 16-bit count of a recursive mutex overflows, or nobody is left to run and kthread_main is made current although it is blocked |
| SyncModel.ReleaseKeeps | Software/src/kernel/sync/mutex.c:51-78 | Releasing a mutex hands it to the head of its queue, or leaves it unowned with count 0 |
| SyncModel.WaitKeeps | Software/src/kernel/sync/condition.c:6-18 | A wait by a thread that holds the mutex at most once, and leaves somebody to run, keeps the invariant |
| SyncModel.WaitBreaks | Software/src/kernel/sync/condition.c:6-18 | A wait with the mutex held recursively, or one that makes a blocked kthread_main current, breaks it |
| SyncModel.SignalAllKeeps | Software/src/kernel/sync/condition.c:35-46 | A broadcast, one lock for each waiter of the mutex it waits with, keeps the invariant when nobody waits or all wait with one owned mutex |
| SyncModel.SignalAllBreaks | Software/src/kernel/sync/condition.c:35-46 | Every other broadcast breaks it: with several mutexes some waiter becomes the last of its queue and still links to the next waiter, or owns its mutex and is in no queue; with a free mutex the first waiter is that owner |
| SyncModel.WaitersAreParked | Software/src/kernel/sync/condition.c:6-15 | In a sound system every thread in the queue of a condition waits there with a mutex of the system |
| SyncModel.ExitKeepsIff | Software/src/kernel/sync/thread.c:81-99 | An exit keeps the invariant if and only if it leaves somebody to run |
| SyncModel.DispatchKeeps | Software/src/kernel/sync/thread.c:87-99 | A dispatch restores the invariant, with exactly one thread running, if and only if a thread is ready or kthread_main is in reserve |
| SyncModel.StepKeepsIffGuard | Software/src/kernel/exceptions/syscalls.c:98-218 | For every operation of every thread, kthread_main and broadcasts to waiters of several mutexes included: the invariant is kept if and only if a guard on the state before the call holds |
| SyncModel.GuardedFindsNext | Software/src/kernel/sync/thread.c:87-99 | A guarded operation never dispatches while nobody can run |
| SyncRuns.RunKeepsInv | Software/src/kernel/exceptions/syscalls.c:98-218 | The invariant holds after any legal run |
| SyncRuns.BootRunsAreSound | Software/src/kernel/sync/thread.c:10-18 | The invariant holds after any legal run from boot |
| SyncRuns.ExactlyOnePlace | Software/src/kernel/sync/thread.c:81-99 | A live thread is in exactly one place: running, ready queue, one mutex queue or one condition queue; only kthread_main may be in reserve instead |
| SyncRuns.StepOrder | Software/src/kernel/sync/mutex.c:25-78 | One step takes the new owner from the front of the queue and puts arrivals at its back |
| SyncRuns.AcquiredInArrivalOrder | Software/src/kernel/sync/mutex.c:25-78 | Over any run the owners so far followed by the queue equal the first queue followed by the arrivals: first in, first out, no barging |
| SyncRuns.ResumesAsOwner | Software/src/kernel/exceptions/syscalls.c:98-192 | A thread on its way to a mutex, through its queue or through a condition first, owns it when it runs again |
| SyncRuns.LockGoesInside | Software/src/kernel/exceptions/syscalls.c:98-112 | The caller of a guarded mutex_lock that blocks is on its way to that mutex |
| SyncRuns.WaitGoesInside | Software/src/kernel/exceptions/syscalls.c:177-192 | The caller of a guarded cond_wait is on its way to its mutex |
| SyncRuns.CallerResumesAsOwner | Software/src/kernel/exceptions/syscalls.c:98-192 | The caller of a mutex_lock that blocks, or of a cond_wait, owns that mutex when it runs again, after any legal run in between |
| SyncRuns.StepMoves | Software/src/kernel/sync/thread.c:87-99 | A step without dispatch only appends to the ready queue; a dispatch moves every ready thread up by one and runs the first |
| SyncRuns.RunsAtItsTurn | Software/src/kernel/sync/thread.c:87-99 | A ready thread at position k runs for the first time exactly at the (k+1)-th dispatch, whatever happens in between |
| SyncHistory.StepThreads | Software/src/kernel/sync/thread.c:81-99 | Every step keeps the set of threads, but for the one it creates and the one that exits |
| SyncHistory.ThreadsAreCounted | Software/src/kernel/sync/thread.c:81-99 | Over any run there are as many threads as at first and were created, less those that exited |
| SyncHistory.StepReady | Software/src/kernel/sync/thread.c:87-99 | A dispatch runs the first ready thread, or kthread_main if there is none; a new thread, one that yields and one that is handed a mutex join the ready queue at its back, and nothing else changes it |
| SyncHistory.DispatchedInReadyOrder | Software/src/kernel/sync/thread.c:87-99 | Over any run the threads dispatched, followed by those still ready, are those ready at first followed by those that became ready, in order: nobody is lost or overtaken |
| SyncHistory.YielderIsLast | Software/src/kernel/sync/thread.c:90-91 | A thread that yields while others are ready is last in the ready queue |
| SyncHistory.YielderRunsAgain | Software/src/kernel/sync/thread.c:87-99 | It runs again exactly at the dispatch after those of all threads that were ready, whatever happens in between |
| SyncHistory.StepCounts | Software/src/kernel/sync/mutex.c:33-78 | A step of the owner that leaves one of its locks open keeps it the owner; the one that closes the last frees the mutex, or makes the head of the queue the owner; steps of other threads change neither owner nor count |
| SyncHistory.AcquiredOnce | Software/src/kernel/sync/mutex.c:15-31 | Whoever becomes the owner has one lock open |
| SyncHistory.OwnsIffNested | Software/src/kernel/sync/mutex.c:25-78 | From its acquisition a thread owns a mutex through any run if and only if at every step it has locked it more often than unlocked it; on a mutex that is not recursive further locks do not count |
| SyncHistory.LastUnlockHandsOver | Software/src/kernel/sync/mutex.c:51-78 | The unlock, or wait, that closes its last lock leaves the mutex to the head of the queue, or to nobody |
| SyncHistory.RefusedStays | Software/src/kernel/sync/mutex.c:15-56 | An unlock by another thread, a try of a taken mutex and a second lock of a mutex that is not recursive change nothing |
| SyncHistory.NewObjectsAreFree | Software/src/kernel/sync/mutex.c:7-23 | A new mutex belongs to nobody, and nobody waits on a new condition |
| SyncHistory.WaitersInOrder | Software/src/kernel/sync/condition.c:6-18 | Between two broadcasts the waiters of a condition are queued in the order of their waits |
| QueueImage.ChainAppend | Software/src/kernel/sync/scheduler.c:13-18 | Linking a thread behind the tail extends the chain by it at the end |
| QueueImage.ChainTail | Software/src/kernel/sync/scheduler.c:27-29 | Dropping the head leaves the chain of the rest |
| QueueImage.EnqueueHolds | Software/src/kernel/sync/scheduler.c:8-19 | The records after an enqueue hold the queues after it, all other chains untouched |
| QueueImage.PickHolds | Software/src/kernel/sync/scheduler.c:21-35 | The records after a dequeue hold the queues after it |
| QueueImage.BlockHolds | Software/src/kernel/sync/mutex.c:40-48 | Blocking on a mutex links the thread at the end of its chain and no other |
| QueueImage.HandOverHolds | Software/src/kernel/sync/mutex.c:65-73 | Handing a mutex over takes the head off its chain and makes it the owner; what puts it into the ready chain is EnqueueHolds |
| QueueImage.ParkHolds | Software/src/kernel/sync/condition.c:7-15 | Waiting on a condition links the thread at the end of its chain and no other |
| QueueImage.UnlockHolds | Software/src/kernel/sync/mutex.c:51-78 | The records after an unlock hold the queues after it, in every branch |
| QueueImage.DispatchHolds | Software/src/kernel/sync/thread.c:87-99 | The records after a dispatch that finds somebody to run hold the queues after it |
| QueueImage.LockExtendsSplice | Software/src/kernel/sync/condition.c:36-42 | A lock of the broadcast extends the spliced chain by one waiter, although the waiter still carries its old next link |
| QueueImage.SpliceHolds | Software/src/kernel/sync/condition.c:35-46 | The whole condition chain ends up behind the mutex chain, in order, ended by null, with the right tail |
| QueueImage.SignalAllHolds | Software/src/kernel/sync/condition.c:35-46 | The records after a broadcast to waiters of one mutex hold the queues after it, for a free and for an owned mutex |
| QueueImage.PartialStep | Software/src/kernel/sync/condition.c:36-42 | With one mutex, round i of the broadcast loop takes the records after i waiters to those after i + 1, and finds the next waiter |
| QueueImage.BroadcastCommon | Software/src/kernel/sync/condition.c:35-46 | When all waiters wait with one mutex, the row of their locks is the splice of the whole condition chain |
| QueueImage.HoldsWaitlist | Software/src/kernel/sync/condition.c:35-42 | The records of any condition of a sound system let the broadcast loop run: its waiters are linked, and the locks before do not touch the link the loop reads next |
| QueueImage.BroadcastChainsIff | Software/src/kernel/sync/condition.c:35-46 | With the mutexes of all waiters owned, the records after a broadcast hold well-formed chains if and only if all waiters wait with one mutex |
| QueueImage.TwoMutexes | Software/src/kernel/sync/condition.c:35-46 | A sound system with two waiters and two mutexes after whose broadcast the only waiter of one mutex links to the waiter of the other, and no queue is the chain |
| SyscallImage.LockCallTracks | Software/src/kernel/exceptions/syscalls.c:98-112 | mutex_lock, by any thread, is one atomic step: lock, and dispatch if blocked; unless that leaves nobody to run |
| SyscallImage.TryLockCallTracks | Software/src/kernel/exceptions/syscalls.c:140-155 | mutex_try_lock is one atomic step |
| SyscallImage.UnlockCallTracks | Software/src/kernel/exceptions/syscalls.c:114-124 | mutex_unlock is one atomic step |
| SyscallImage.WaitCallTracks | Software/src/kernel/exceptions/syscalls.c:177-192 | cond_wait, by any thread, is one atomic step: park, unlock, dispatch; unless that leaves nobody to run |
| SyscallImage.SignalAllCallTracks | Software/src/kernel/exceptions/syscalls.c:207-218 | cond_signal_all to waiters of one mutex is one atomic step |
| SyscallImage.ExitTracks | Software/src/kernel/sync/thread.c:81-85 | Thread exit is one atomic step: no current thread, then dispatch; unless that leaves nobody to run |
| SyscallImage.CreateTracks | Software/src/kernel/exceptions/syscalls.c:34-55 | thread_create is one atomic step |
| SyscallImage.CallTracksStep | Software/src/kernel/exceptions/syscalls.c:98-218 | Every call of every thread takes the linked records through exactly one step of the queue system, whether its guard holds or not, unless it dispatches while nobody is ready and kthread_main is blocked, or signals waiters of several mutexes |
| SyscallImage.CallReturns | Software/src/kernel/exceptions/syscalls.c:34-218 | Every call, also one that leaves nobody to run or broken chains, returns its status to the calling thread, even when that thread blocks first, and changes no other return value |
| SyscallImage.StatusTells | Software/src/kernel/exceptions/syscalls.c:114-155 | A try reports SUCCESS exactly when the caller becomes the owner by it and BUSY otherwise; an unlock reports SUCCESS exactly when it changes something and ERROR otherwise |
| SyscallImage.CallsAllowed | Software/src/kernel/exceptions/syscalls.c:98-218 | Records that track a system meet what every system call requires of them, a broadcast to waiters of several mutexes included |
| SyscallImage.CallsKeepQueues | Software/src/kernel/exceptions/syscalls.c:98-218 | After any number of guarded calls the chains are disjoint, acyclic, end at the recorded tails, and the invariant holds |
| SyscallGuards.CallKeepsIffGuard | Software/src/kernel/exceptions/syscalls.c:98-218 | After a call of any thread on the records of a sound system, the records are again those of a sound system with the same threads, mutexes and conditions if and only if the guard of the call holds |
| KernelSync.Kernel.constructor | Software/src/kernel/sync/thread.c:10-18 | At boot only kthread_main exists, and it is current |
| KernelSync.Kernel.Enqueue | Software/src/kernel/sync/scheduler.c:8-19 | The writes of kscheduler_enqueue, as the new contents of all records |
| KernelSync.Kernel.Dequeue | Software/src/kernel/sync/scheduler.c:21-35 | The writes of kscheduler_dequeue and the thread it returns |
| KernelSync.Kernel.MutexTryLock | Software/src/kernel/sync/mutex.c:15-23 | The writes of kmutex_try_lock and its result |
| KernelSync.Kernel.MutexLock | Software/src/kernel/sync/mutex.c:25-49 | The writes of kmutex_lock: take, count, or block at the tail |
| KernelSync.Kernel.MutexUnlock | Software/src/kernel/sync/mutex.c:51-78 | The writes of kmutex_unlock and its status, with hand-off to the head of the queue |
| KernelSync.Kernel.CondWait | Software/src/kernel/sync/condition.c:6-18 | The writes of kcond_wait: block at the tail, then unlock |
| KernelSync.Kernel.CondSignalAll | Software/src/kernel/sync/condition.c:35-46 | The broadcast loop on any waiters, as one lock for each of them in order, of the mutex it waits with |
| KernelSync.Kernel.Dispatch | Software/src/kernel/sync/thread.c:87-99 | The writes of kthread_dispatch |
| KernelSync.Kernel.Stop | Software/src/kernel/sync/thread.c:81-85 | The writes of kthread_stop |
| KernelSync.Kernel.SyscallMutexLock | Software/src/kernel/exceptions/syscalls.c:98-112 | The system call, with the error for a null pointer |
| KernelSync.Kernel.SyscallMutexTryLock | Software/src/kernel/exceptions/syscalls.c:140-155 | The system call, with ERROR for null and BUSY for a taken mutex |
| KernelSync.Kernel.SyscallMutexUnlock | Software/src/kernel/exceptions/syscalls.c:114-124 | The system call, returning the status of the unlock |
| KernelSync.Kernel.SyscallCondWait | Software/src/kernel/exceptions/syscalls.c:177-192 | The system call, with the error for a null pointer |
| KernelSync.Kernel.SyscallCondSignalAll | Software/src/kernel/exceptions/syscalls.c:207-218 | The system call on any waiters, with the error for a null pointer |
| KernelSync.Kernel.SyscallThreadCreate | Software/src/kernel/exceptions/syscalls.c:39-54 | The call on the records, given whether kthread_create found memory: ERROR for null arguments, NO_MEMORY without memory, otherwise the new thread is ready |
| KernelSync.Kernel.SyscallMutexCreate | Software/src/kernel/exceptions/syscalls.c:81-95 | The call on the records, given whether the heap had memory: ERROR for a null argument, NO_MEMORY without memory, otherwise a free mutex |
| KernelSync.Kernel.SyscallCondCreate | Software/src/kernel/exceptions/syscalls.c:160-174 | The call on the records, given whether the heap had memory: ERROR for a null argument, NO_MEMORY without memory, otherwise an empty condition |
| KernelCalls.ThreadCreate | Software/src/kernel/exceptions/syscalls.c:34-55 | The whole system call on kernel and heap: it succeeds exactly for valid arguments when first fit finds room for record, stack and thread-local data in turn; otherwise it returns ERROR or NO_MEMORY and leaves the heap as it was; a success makes the thread ready and damages the heap exactly for thread-local data of 2^32 - 12 bytes |
| KernelCalls.MutexCreate | Software/src/kernel/exceptions/syscalls.c:77-96 | The whole system call on kernel and heap: it fails exactly for a null argument or when no free segment fits, and then leaves the heap as it was |
| KernelCalls.CondCreate | Software/src/kernel/exceptions/syscalls.c:157-175 | The whole system call on kernel and heap: it fails exactly for a null argument or when no free segment fits, and then leaves the heap as it was |
| CpuUnits.DecodeEncode | Hardware/CPU/IR.v:17-103 | For every supported instruction the decoder recovers flags, registers, function code and immediate from the word that section 2 of the RISC-V Unprivileged ISA encodes it as |
| CpuUnits.EncodeInjective | Hardware/CPU/IR.v:17-103 | A word encodes at most one supported instruction |
| CpuUnits.AluComputes | Hardware/CPU/ALU.v:10-37 | The ALU computes every supported register operation, MUL, MULH and MULHU included |
| CpuUnits.SignedProduct | Hardware/CPU/ALU.v:11 | The signed product wire holds the product of the signed operands modulo 2^64 |
| CpuUnits.MulhsuExactly | Hardware/CPU/ALU.v:12-30 | The ALU result for MULHSU is the one section 7.1 of the Unprivileged ISA wants if and only if the signed factor is non-negative or the other factor is zero |
| CpuUnits.BranchDecides | Hardware/CPU/BranchTester.sv:9-19 | The branch tester decides every branch condition |
| CpuUnits.OverflowIsCrossing | Hardware/CPU/AlignmentChecker.sv:7-27 | The alignment checker reports exactly the accesses that leave their aligned word |
| CpuUnits.LoadExtends | Hardware/CPU/CPU.v:224-231 | Loaded bytes and halfwords are sign- or zero-extended as the width says |
| CpuRefinement.ExecComputes | Hardware/CPU/CPU.v:156-233 | Every instruction without memory access computes the pc, registers and CSRs that the instruction set says |
| CpuRefinement.RegistersHold | Hardware/CPU/RegFile.sv:11-16 | A register holds what was written to it last, and register 0 holds 0 |
| CpuRefinement.ExecCommits | Hardware/CPU/CPU.v:310-334 | After the execute edge the state is the computed one, or that of the interrupt after it with the computed pc saved |
| CpuRefinement.AccessEnds | Hardware/CPU/CPU.v:335-348 | An acknowledged load or store completes the instruction; an interrupt then saves pc + 4 |
| CpuRefinement.TrapView | Hardware/CPU/CPU.v:350-355 | The last edge writes exactly the pc and the trap that were recorded |
| CpuRefinement.EdgeInv | Hardware/CPU/CPU.v:282-358 | Every clock edge keeps the control invariant, whatever the memory port answers |
| CpuRefinement.EdgeRefines | Hardware/CPU/CPU.v:282-358 | Every clock edge is one event of the instruction set or none |
| CpuRefinement.EdgeRecords | Hardware/CPU/CPU.v:250-348 | An edge records a trap exactly when the event it completes ends in one |
| CpuRefinement.RunRefines | Hardware/CPU/CPU.v:282-358 | Every run, for any memory latency and any interrupts, is the run of the instruction set through the events that its edges complete, one for each pass: faults are those of the timeouts seen and interrupts those selected |
| CpuRefinement.UndisturbedRetires | Hardware/CPU/CPU.v:282-358 | Without a timeout and a selected interrupt every pass retires the instruction at pc, or finds pc misaligned |
| CpuRefinement.SelectionIsLawful | Hardware/CPU/CSRs.v:57-67 | An interrupt is only selected while the privilege mode and SIE allow it, and carries an interrupt cause; SelectedIff has the converse |
| Interrupts.SelectedIff | Hardware/CPU/CSRs.v:57-58 | An interrupt is selected if and only if some bit is set in both sip and sie and the mode and SIE allow it |
| Interrupts.CauseIsSelected | Hardware/CPU/CSRs.v:60-67 | The cause of the selected interrupt is the number of the highest such bit, with bit 31 set |
| Interrupts.TicksSetBits | Hardware/CPU/CSRs.v:133-142 | A timer tick sets bit 5 of sip, an external one bit 9, and the other bits stay |
| Interrupts.PendingInterruptIsTaken | Hardware/CPU/CPU.v:261-355 | Over a whole pass of the CPU: an interrupt that is pending, enabled and allowed at its start is taken after the instruction at pc, unless that raises an exception; an interrupt that is taken was allowed, enabled and pending, and scause is the highest one |
| Interrupts.ExceptionsAreNumbered | Hardware/CPU/ExceptionCauses.vh:1-11 | Over a whole pass of the CPU that ends in an exception scause holds its number: 0, 1, 4 to 7, 8 or 9 |
| CpuRefinement.PassesAreShort | Hardware/CPU/CPU.v:282-358 | No pass takes more than six edges besides those it waits for memory |
| CpuRefinement.ResetStarts | Hardware/CPU/CPU.v:271-280 | Reset establishes the invariant in supervisor mode at the start address |
| CpuRefinement.ExceptionsArePrecise | Hardware/CPU/CPU.v:250-355 | Over a whole pass of the CPU, from fetch to fetch: a fetch, load, store or ecall exception saves its own pc and mode, goes to stvec, and writes neither register nor memory |
| CpuRefinement.InterruptsFollowInstructions | Hardware/CPU/CPU.v:261-355 | Over a whole pass of the CPU: with an interrupt the registers and the memory are those of the completed instruction, and sepc is the pc of the next one, jump and branch targets included |
| CpuRefinement.PassesComplete | Hardware/CPU/CPU.v:282-358 | Over a whole pass of the CPU that records no trap, registers, CSRs and memory are those that the instruction at pc leaves |
| CpuRefinement.SretUndoesTrap | Hardware/CPU/CSRs.v:118-131 | sret after a trap, with sepc and sstatus intact, restores pc, privilege mode, SIE and the other status bits |
| CpuRefinement.StatusAtTrap | Hardware/CPU/CSRs.v:118-126 | Trap entry puts the mode into SPP and SIE into SPIE, clears SIE, and leaves the other bits of sstatus |
| CpuRefinement.StatusAtReturn | Hardware/CPU/CSRs.v:127-130 | sret takes SIE from SPIE, sets SPIE, and leaves the other bits of sstatus |
| Cpu.Core.Raise | Hardware/CPU/CPU.v:250-259 | The registers written by an exception |
| Cpu.Core.Interrupt | Hardware/CPU/CPU.v:261-269 | The registers written by an interrupt |
| Cpu.Core.Execute | Hardware/CPU/CPU.v:310-334 | The registers written in the execute state |
| Cpu.Core.FinishAccess | Hardware/CPU/CPU.v:335-348 | The registers written in the memory wait state |
| Cpu.Core.OnClock | Hardware/CPU/CPU.v:282-363 | One clock edge in place, every unit reading only the registers from before it |
| BusAccess.GrantsExclude | Hardware/Bus/Arbitrator.sv:14-17 | At most one master is granted, and one is when any asks |
| BusAccess.GrantsStay | Hardware/Bus/Arbitrator.sv:14-59 | A granted CPU request is never revoked under any DMA request pattern, nor a granted DMA request |
| BusAccess.PauseGoesToCpu | Hardware/Bus/Arbitrator.sv:14-59 | On an idle bus, and whenever the DMA has paused, the CPU is granted first |
| Addresses.OrderOfNumbers | Hardware/Memory/BusInterface.sv:18 | Words compare as the numbers that their bits stand for |
| Addresses.SumOfNumbers | Hardware/Memory/BusInterface.sv:18 | A sum of words that stays in the address space is the sum of their numbers |
| Addresses.HitIffInside | Hardware/Memory/BusInterface.sv:18 | A memory answers for exactly the size addresses from its start on, as numbers, when its range ends below the end of the address space |
| Addresses.HitIffWord | Hardware/Memory/BusInterface.sv:18-30 | From the start on an address hits exactly when its word is one of the size / 4 words of the memory |
| Addresses.WordOfByte | Hardware/Memory/BusInterface.sv:27-33 | Byte n of a memory is in word n / 4 and lane n % 4 |
| Addresses.OneByteEach | Hardware/Memory/BusInterface.sv:27-33 | No two bytes of a memory share word and lane |
| BusAccess.SharesWord | Hardware/Memory/BusInterface.sv:30 | Two addresses share a memory word exactly when they differ in the byte offset only |
| BusAccess.StoreIsExact | Hardware/Memory/BusInterface.sv:30-33 | A store that passes the alignment check changes exactly its own bytes |
| BusAccess.GrantCarriesOut | Hardware/Memory/RAM.sv:17-27 | With the CPU granted one edge writes the addressed word under the mask, or puts it at the output |
| BusAccess.AckAnswers | Hardware/CPU/BusInterface.v:70-84 | A request to the memory is answered at the edge after its grant at the latest, by a timeout exactly when the watchdog is notifying |
| BusAccess.SlaveSees | Hardware/CPU/BusInterface.v:33-37 | A slave sees the address, the direction, the mask and, for a write, the data of the request that is granted, of the CPU or of the DMA |
| BusAccess.SlaveAnswers | Hardware/CPU/BusInterface.v:70-84 | A granted request outside the memory ends at the edge at which its slave acknowledges it or the watchdog notifies, in done if and only if the watchdog does not; a read then holds the data of the slave |
| BusAccess.AnswerStopsCount | Hardware/Bus/Watchdog.v:35-43 | The watchdog stops counting exactly when the access of either master is answered, by the memory or by another slave, and then its counter is 0 |
| BusAccess.TimeoutLeaksIff | Hardware/Bus/Watchdog.v:28-52 | An access of the CPU to the memory is carried out and answered two edges after its grant, by a timeout if and only if at the grant the watchdog is notifying, or counting at its limit without an answer, for the DMA |
| BusLiveness.StallLeaksIff | Hardware/Bus/Watchdog.v:28-52 | From reset, behind a DMA access that nobody answers for k edges, the CPU's access to the memory ends in a timeout if and only if k exceeds ALLOWED_CYCLES, for every limit that the counter can hold |
| BusLiveness.LeakingRuns | Hardware/Bus/Watchdog.v:28-52 | Concrete runs from reset in which the timeout reaches the CPU, one for each of the two watchdog states |
| BusAccess.ServingKept | Hardware/CPU/BusInterface.v:51-94 | Under any DMA pattern the port holds the request, the grant and the right data until the answer |
| BusAccess.MemoryIsAtomic | Hardware/Memory/RAM.sv:17-27 | Every edge changes the memory bytes as one atomic store of one master or not at all; the second write of the handshake changes nothing |
| BusAccess.ReadReturnsBytes | Hardware/Memory/BusInterface.sv:27 | A read that is answered returns the bytes addressed |
| BusAccess.EachRequestIsAnsweredOnce | Hardware/CPU/BusInterface.v:51-94 | Over any run each request gets exactly one answer, unless it is pending |
| BusParts.ClogFrom | Hardware/Bus/Watchdog.v:12 | $clog2 is the least width whose power of two is not below its argument |
| BusLiveness.HoldsAllButPowers | Hardware/Bus/Watchdog.v:10-12 | The counter register can hold ALLOWED_CYCLES if and only if that is not a power of two |
| BusLiveness.WatchdogFiresIff | Hardware/Bus/Watchdog.v:28-52 | An unanswered access is reported if and only if ALLOWED_CYCLES is not a power of two, and then after ALLOWED_CYCLES + 2 edges exactly |
| BusLiveness.PatienceAfterRun | Hardware/Bus/Watchdog.v:28-52 | After any run from reset, an access that nobody answers is reported after exactly ALLOWED_CYCLES + 2 edges, or after one less when the access before it was reported |
| BusLiveness.NeverReports | Hardware/Bus/Watchdog.v:28-52 | A watchdog whose limit is a power of two reports nothing over any run |
| BusLiveness.GrantedEdge | Hardware/CPU/BusInterface.v:51-94 | At every edge a pending request comes nearer to its answer, or the DMA has the bus and it comes no further away |
| BusLiveness.RequestsEnd | Hardware/CPU/BusInterface.v:51-94 | With the DMA silent every CPU request ends within ALLOWED_CYCLES + 5 edges, for any slave; SlaveHeardIff says how |
| BusLiveness.SlaveHeardIff | Hardware/CPU/BusInterface.v:70-84 | A slave that first acknowledges a granted request at edge k is heard if and only if the watchdog has not notified by then: the request ends at that edge in done, with the data of the slave, and otherwise in a timeout when the watchdog notifies |
| BusLiveness.RequestsHang | Hardware/Bus/Watchdog.v:35-43 | When ALLOWED_CYCLES is a power of two, a request that nobody answers is pending for ever |
| BusMachines.CpuInterface.OnClock | Hardware/CPU/BusInterface.v:51-99 | The registers of the bus interface after one clock edge |
| BusMachines.Arbitrator.OnClock | Hardware/Bus/Arbitrator.sv:32-64 | The arbitrator state after one clock edge |
| BusMachines.MemoryInterface.OnClock | Hardware/Memory/BusInterface.sv:41-59 | The handshake state after one clock edge |
| BusMachines.Ram.OnClock | Hardware/Memory/RAM.sv:17-27 | The byte lanes written in the array are those of the word map; data_out takes the word from before the write |
| BusMachines.WriteShows | Hardware/Memory/RAM.sv:20-23 | The masked write of one array element is the masked write of the word map |
| BusMachines.WatchdogTimer.OnClock | Hardware/Bus/Watchdog.v:28-57 | The watchdog registers after one clock edge |
| Machine.StoresAgree | Hardware/Memory/BusInterface.sv:30-33 | A store through shift and mask writes the bytes that the instruction set writes |
| Machine.DmaWriteKeepsSame | Hardware/Memory/BusInterface.sv:30-33 | A store of the DMA, with any mask, changes the RAM and the byte memory alike |
| Machine.DmaWriteIsExact | Hardware/Memory/BusInterface.sv:30-33 | A store of the DMA within a word writes exactly the bytes under its mask at its address |
| Machine.ReadsAgree | Hardware/Memory/BusInterface.sv:27 | The shifted output holds the bytes that the instruction set reads |
| Machine.AsksOn | Hardware/CPU/CPU.v:292-299 | A CPU that is not answered goes on showing the same request |
| Machine.AsksNoMore | Hardware/CPU/CPU.v:292-348 | A CPU that is answered drops its request at once |
| Machine.BusAnswers | Hardware/CPU/BusInterface.v:66-84 | The interface answers the CPU as the byte memory of the instruction set would |
| Machine.OnlyMissesTimeOut | Hardware/Memory/BusInterface.sv:18-28 | An access to the RAM is never answered by a timeout, and one outside it always is |
| Machine.OnlyOutsideTimesOut | Hardware/Memory/BusInterface.sv:18-28 | An access times out exactly when its address, as a number, is not one of the size addresses from the start of the RAM on |
| Machine.FetchedStays | Hardware/Memory/BusInterface.sv:30-33 | A store of the DMA that leaves the word being executed as it is leaves the fetched instruction the one at pc |
| Machine.ClockRefines | Hardware/CPU/CPU.v:282-358 | One edge of CPU, interface, arbitrator, memory interface, RAM and watchdog together, with the DMA doing anything that is polite, is one step of the CPU over byte memory, which then takes the store of the DMA if there is one |
| MachineRuns.EdgeFits | Hardware/Memory/BusInterface.sv:18-28 | An edge completes a fault only for a pc or an address outside the RAM, and an instruction only when it was fetched from the RAM and accesses nothing outside it |
| MachineRuns.LeakMisfits | Hardware/Bus/Watchdog.v:28-52 | If the watchdog leaks when the CPU is granted the RAM, then two edges later its instruction faults on an address that the RAM has: what is asked of the DMA cannot be dropped |
| MachineRuns.OneEventForEachPass | Hardware/CPU/CPU.v:282-358 | A run of the instruction set through a script has one event for each pass of the script |
| MachineRuns.MachineRefines | Hardware/CPU/CPU.v:282-358 | Every run of the wired-up machine, under any polite DMA, is the run of the instruction set through the events of its edges, one for each pass, and the stores of the DMA in between: a fault only where the pc or the address misses the RAM, everything else fetched from the RAM and accessing it; and the RAM holds the bytes of that run |
| MachineRuns.RamRunsAreReplays | Hardware/CPU/CPU.v:282-358 | Runs that fit the RAM and have no interrupt are decided by the architectural state and the stores of the DMA |
| MachineRuns.MachineComputes | Hardware/CPU/CPU.v:282-358 | Without interrupts the machine computes: after any number of edges its architectural state is that after as many steps of the instruction set on the RAM as passes have ended, with the stores of the DMA in between, provided that these steps fetch supported instructions |
| MachineRuns.SilentRuns | Hardware/Bus/Arbitrator.sv:14-17 | A DMA that asks for nothing is polite throughout, from reset or any state in which the watchdog does not count for it |
| MachineRuns.MachineRunsProgram | Hardware/CPU/CPU.v:282-358 | With the DMA silent and no interrupts: if the instruction set alone, started on the RAM, only fetches supported instructions, then after any number of edges the machine is where the instruction set is after as many steps as passes have ended, and at least one pass ends every 2 * ALLOWED_CYCLES + 16 edges |
| MachineRuns.MachineProgresses | Hardware/Bus/Watchdog.v:28-52 | Under any polite DMA a pass ends at least every 2 * ALLOWED_CYCLES + 16 clock edges, not counting those at which the DMA keeps the CPU from the bus |
| MachineRuns.MachineStarts | Hardware/CPU/BusInterface.v:41-49 | The machine out of reset satisfies the coupling invariant, and its watchdog counts for nobody |
| BuddyModel.BuddyIsOtherHalf | Software/src/kernel/mem_alloc/buddy_allocator.c:12-14 | The exclusive or gives, for an aligned block, the other half of the block twice as long; it is its own inverse |
| BuddyModel.JoinSpec | Software/src/kernel/mem_alloc/buddy_allocator.c:63-73 | If only the inserted block may have a free buddy, joining ends with no free buddies, aligned blocks without overlap, and the same addresses free |
| BuddyModel.HalvesMerge | Software/src/kernel/mem_alloc/buddy_allocator.c:63-73 | Two free buddies are never of the highest order: the join loop stays inside the list array |
| BuddyModel.ReleaseSpec | Software/src/kernel/mem_alloc/buddy_allocator.c:129-130 | Inserting a returned block and joining adds exactly its addresses and leaves no free buddies |
| BuddyModel.SplitLists | Software/src/kernel/mem_alloc/buddy_allocator.c:75-87 | A split puts one new block in front of every list strictly between the orders, and two in front of the lower one |
| BuddyModel.SplitSpec | Software/src/kernel/mem_alloc/buddy_allocator.c:75-87 | A split keeps the free addresses, the alignment and the absence of overlap, and changes the lists by exactly those blocks |
| BuddyModel.JoinUndoesSplit | Software/src/kernel/mem_alloc/buddy_allocator.c:63-87 | Taking the head after a split, giving it back and joining restores every list exactly |
| BuddyAllocator.Buddies.RemoveBlock | Software/src/kernel/mem_alloc/buddy_allocator.c:35-43 | The linked lists afterwards are the old ones without the block |
| BuddyAllocator.Buddies.InsertBlock | Software/src/kernel/mem_alloc/buddy_allocator.c:45-52 | The linked lists afterwards are the old ones with the block in front of its order |
| BuddyAllocator.Buddies.ContainsBlock | Software/src/kernel/mem_alloc/buddy_allocator.c:54-61 | The walk finds the block exactly when it is in the list of that order |
| BuddyAllocator.Buddies.Merge | Software/src/kernel/mem_alloc/buddy_allocator.c:65-71 | One round of the join loop on the headers |
| BuddyAllocator.Buddies.RecursiveJoin | Software/src/kernel/mem_alloc/buddy_allocator.c:63-73 | The join loop terminates with the lists that joining gives |
| BuddyAllocator.Buddies.Halve | Software/src/kernel/mem_alloc/buddy_allocator.c:80-83 | One round of the split loop on the headers |
| BuddyAllocator.Buddies.RecursiveSplit | Software/src/kernel/mem_alloc/buddy_allocator.c:75-87 | The split loop leaves the lists that splitting gives |
| Slab.RoomForSlots | Software/src/kernel/mem_alloc/slab_allocator.c:14 | A page has room for a number of slots with their indices if and only if that is at most the computed number, which is at least one exactly for sizes up to 998 |
| Slab.SlotInPage | Software/src/kernel/mem_alloc/slab_allocator.c:5-17 | Every slot lies inside the page behind the index array, the first one directly behind it |
| Slab.SlotsApart | Software/src/kernel/mem_alloc/slab_allocator.c:50 | Slots do not overlap and lie side by side |
| Slab.IndexInverts | Software/src/kernel/mem_alloc/slab_allocator.c:63 | The division of kslab_dealloc finds the slot of any address inside it |
| Slab.ChainUnique | Software/src/kernel/mem_alloc/slab_allocator.c:79-80 | The index array decides the free list |
| Slab.CountTells | Software/src/kernel/mem_alloc/slab_allocator.c:76-83 | The list reaches every slot exactly when nothing is outstanding |
| Slab.Takes | Software/src/kernel/mem_alloc/slab_allocator.c:46-54 | Taking hands out the first free slot, which was not outstanding |
| Slab.ServedInOrder | Software/src/kernel/mem_alloc/slab_allocator.c:46-54 | Without returns a slab hands out the slots of its free list in their order, and refuses exactly when all are out |
| Slab.Gives | Software/src/kernel/mem_alloc/slab_allocator.c:65-66 | Returning an outstanding slot puts it in front of the list |
| Slab.GivesIff | Software/src/kernel/mem_alloc/slab_allocator.c:65-66 | Returning a slot leaves a free list if and only if the slot was outstanding; a second return closes a cycle |
| Slab.GiveUndoesTake | Software/src/kernel/mem_alloc/slab_allocator.c:46-69 | Returning the slot just taken restores every index |
| Slab.HistoryKeepsList | Software/src/kernel/mem_alloc/slab_allocator.c:46-69 | After any history the free list is a duplicate-free path to 0xFFFF whose complement is exactly the outstanding slots |
| Slab.Slab.constructor | Software/src/kernel/mem_alloc/slab_allocator.c:7-32 | A new slab chains all slots in order, as many as have room in the page; none is outstanding |
| Slab.Slab.Alloc | Software/src/kernel/mem_alloc/slab_allocator.c:46-54 | Null when the list is empty, otherwise the address of its first slot |
| Slab.Slab.Dealloc | Software/src/kernel/mem_alloc/slab_allocator.c:56-69 | False for an address outside the slots, otherwise the slot that the address lies in is in front of the list; the list survives if and only if that slot was outstanding |
| Slab.Slab.HasFreeSlots | Software/src/kernel/mem_alloc/slab_allocator.c:74 | True exactly when a slot is free |
| Slab.Slab.HasAllocatedSlots | Software/src/kernel/mem_alloc/slab_allocator.c:76-83 | The count along the list tells whether a slot is outstanding |
| ThreadLocal.PushKeepsLists | Software/src/kernel/sync/thread_local.c:62-72 | A new record in front of one list of a dimension keeps all lists of that dimension |
| ThreadLocal.NewValue | Software/src/kernel/sync/thread_local.c:54-60 | A record for a new pair extends the finite map by that pair |
| ThreadLocal.OtherValue | Software/src/kernel/sync/thread_local.c:48-50 | Writing the record found changes the finite map at its pair only |
| ThreadLocal.LocalStorage.Find | Software/src/kernel/sync/thread_local.c:47-48 | The walk through the records of a thread finds the record of the pair exactly when there is one |
| ThreadLocal.LocalStorage.Get | Software/src/kernel/sync/thread_local.c:37-44 | The value set last for the pair, or null |
| ThreadLocal.LocalStorage.LinkData | Software/src/kernel/sync/thread_local.c:62-66 | The record is first in the list of its thread, the other lists are as before |
| ThreadLocal.LocalStorage.LinkThread | Software/src/kernel/sync/thread_local.c:68-72 | The record is first in the list of its storage, the other lists are as before |
| ThreadLocal.LocalStorage.Set | Software/src/kernel/sync/thread_local.c:46-75 | The finite map is updated at the pair, or nothing changes and NO_MEMORY is returned; both dimensions keep holding the same records, one for each pair |
| ThreadLocal.LocalStorage.Create | Software/src/kernel/sync/thread_local.c:6-15 | A new storage has no records; null without memory |
| ThreadLocal.LocalStorage.AddThread | Software/src/kernel/sync/thread.c:68 | A new thread has no records, and the map of values is unchanged |
| Conversions.OverflowTest | Software/src/std/stdlib/conv_functions.c:55 | The test before a digit is taken in holds exactly when the value would exceed LLONG_MAX |
| Conversions.ValueFromFront | Software/src/std/stdlib/conv_functions.c:40-67 | The digit loop computes the positional value: the first digit weighs the base to the number of digits behind it |
| Conversions.ReadDigits | Software/src/std/stdlib/conv_functions.c:40-67 | The loop returns the value of the longest digit run, or stops at the first digit that does not fit; no 64-bit overflow |
| Conversions.StrToLL | Software/src/std/stdlib/conv_functions.c:18-73 | The value saturated at LLONG_MAX in magnitude, with ERANGE exactly when it saturates |
| Conversions.WideIsExactIff | Software/src/std/stdlib/conv_functions.c:55-63 | strtoll is the clamped mathematical value if and only if the text denotes a number above LLONG_MIN |
| Conversions.StrToL | Software/src/std/stdlib/conv_functions.c:5-16 | The mathematical value clamped to [LONG_MIN, LONG_MAX], with ERANGE exactly when it clamps; the end is behind the digits unless they exceed LLONG_MAX |
| Conversions.DigitIff | Software/src/std/stdlib/conv_functions.c:43-51 | A digit has two characters in the letters, lower and upper case, and one below ten; no other character is that digit |
| Conversions.UpperIsDenoted | Software/src/std/stdlib/conv_functions.c:18-73 | A text denotes the same number in upper case |
| Conversions.PartsAreRead | Software/src/std/stdlib/conv_functions.c:18-73 | A text of control characters 9 to 13, a sign, the prefix that goes with base 0, digits and a rest is read as these parts: it denotes the signed value of the digits and ends behind them |
| Conversions.RenderedIsDenoted | Software/src/std/stdlib/conv_functions.c:18-73 | Every integer written in any base from 2 to 36, in lower or upper case, denotes itself when read back |
| Conversions.PrefixedIsDenoted | Software/src/std/stdlib/conv_functions.c:28-38 | With base 0 a number reads back from 0x and hexadecimal digits, 0 and octal digits, and decimal digits |

## Left out

- kheap_try_expand: takes the shrinking path when it grows, so it does not keep the heap invariant.
- free(NULL): not handled by kheap_dealloc; only live pointers are freed.
- kbuddy_init, kbuddy_alloc, kbuddy_dealloc: they mix page and byte orders, and the guard of the split is never true.
- kcache_*: its dealloc does not return slots of full slabs.
- Slab constructors and destructors (function pointers), and kslab_destroy.
- kcond_signal: queues a thread on the mutex without clearing its next link.
- Destroy functions of mutexes, conditions, threads and thread-local storage; detach; signals.
- The argument a0 of a new thread, its stack contents and its status word: a created thread is only queued; its record and its heap address are not identified.
- SyncModel.StepQueues: excludes a broadcast to waiters of several mutexes, which breaks the queues (SyncModel.SignalAllBreaks).
- QueueImage.DispatchHolds: excludes a dispatch while nobody is ready and kthread_main is blocked; the code then runs kthread_main out of a queue.
- SyscallImage.LockCallTracks: excludes a lock that blocks and leaves nobody to run; what the call does then is in SyscallGuards.CallKeepsIffGuard.
- SyscallImage.WaitCallTracks: excludes a wait that leaves nobody to run, likewise.
- SyscallImage.ExitTracks: excludes an exit that leaves nobody to run, likewise.
- SyscallImage.SignalAllCallTracks: excludes a broadcast to waiters of several mutexes, likewise.
- SyscallImage.CallTracksStep: excludes these calls; no queues describe the records after them.
- KernelSync.Kernel.SyscallThreadCreate: whether there is memory is a parameter here; KernelCalls.ThreadCreate decides it on the heap.
- KernelSync.Kernel.SyscallMutexCreate: likewise, decided in KernelCalls.MutexCreate.
- KernelSync.Kernel.SyscallCondCreate: likewise, decided in KernelCalls.CondCreate.
- Timer interrupts and register saving around system calls: a call is one atomic step of the running thread.
- CSR instructions, DIV, REM, unknown opcodes, vectored stvec, the cycle and time counters, the setting with 16 registers.
- The clearing of sip bits by software: interrupt lines only set them.
- Devices, ROM, DMA engine and PLIC: on the bus they are an arbitrary master and arbitrary slaves; in Machine the CPU reaches only the RAM.
- The cut of mem_addr to the width of the memory's address port: on a hit the index fits, elsewhere the word read is not used.
- Addresses of memory regions that reach the end of the 32-bit space: the sum in the hit test then wraps, as in the code, and nothing hits.
- CpuRefinement.ResetStarts: assumes that stvec, which reset does not write, is not in vectored mode.
- MachineRuns.MachineRefines: assumes a polite DMA; a store of the CPU that the leaking watchdog reports is carried out and faults (BusAccess.TimeoutLeaksIff), and an instruction that the DMA overwrites while it is executed is not the one at pc: neither is a step of the instruction set.
- Slab.Slab.constructor: requires a size from 1 to 998; for larger ones the code writes outside its index array, for 0 its dealloc divides by zero.
- strtoul, strtoull: the same loops on unsigned numbers.
