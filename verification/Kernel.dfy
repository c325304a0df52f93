/** The kernel's scheduler, mutexes and conditions, working on the records in place. */
module KernelSync {
  import opened KernelObjects
  import I = QueueImage
  import S = SyncModel
  import Y = SyscallImage

  ghost predicate ThreadsAre(ts: I.Threads)
    reads ts.Keys`state, ts.Keys`next, ts.Keys`waitingOn, ts.Keys`a0
  {
    forall t :: t in ts ==> ts[t] == I.ThreadWords(t.state, t.next, t.waitingOn, t.a0)
  }

  ghost predicate MutexesAre(ms: map<KMutex, I.MutexWords>)
    reads ms.Keys`owner, ms.Keys`lockCount, ms.Keys`queueHead, ms.Keys`queueTail
  {
    forall m :: m in ms ==> ms[m] == I.MutexWords(m.owner, m.lockCount, m.queueHead, m.queueTail)
  }

  ghost predicate CondsAre(cs: map<KCond, I.CondWords>)
    reads cs.Keys`queueHead, cs.Keys`queueTail
  {
    forall c :: c in cs ==> cs[c] == I.CondWords(c.queueHead, c.queueTail)
  }

  class Kernel {
    const main: KThread
    var current: KThread?
    var head: KThread?
    var tail: KThread?

    /** What the records contain. */
    ghost var im: I.Image

    ghost predicate Mirrors()
      reads this`current, this`head, this`tail, this`im
      reads im.threads.Keys`state, im.threads.Keys`next, im.threads.Keys`waitingOn, im.threads.Keys`a0
      reads im.mutexes.Keys, im.conds.Keys
    {
      && current == im.current && head == im.head && tail == im.tail
      && ThreadsAre(im.threads) && MutexesAre(im.mutexes) && CondsAre(im.conds)
    }

    /** The kernel at boot: only kthread_main exists, and it is current. */
    constructor (main: KThread)
      modifies main
      ensures Mirrors() && fresh(this) && this.main == main
      ensures Y.Tracks(im, S.Sys(main, main, [], map[], map[], map[main := S.Running]))
    {
      this.main := main;
      current, head, tail := main, null, null;
      im := I.Image(main, null, null, map[main := I.ThreadWords(RUNNING, null, null, SUCCESS)], map[], map[]);
      new;
      main.state, main.next, main.waitingOn, main.a0 := RUNNING, null, null, SUCCESS;
    }

    // ---- Writes to one record ----------------------------------------------------------------------

    /** t->state = KTHREAD_STATE_BLOCKED; t->waiting_on = m; */
    method MarkBlocked(t: KThread, m: KMutex)
      requires Mirrors() && t in im.threads
      modifies this`im, t`state, t`waitingOn
      ensures Mirrors()
      ensures im == old(im).(threads := old(im).threads[t := old(im).threads[t].(state := BLOCKED, waitingOn := m)])
    {
      t.state := BLOCKED;
      t.waitingOn := m;
      im := im.(threads := im.threads[t := im.threads[t].(state := BLOCKED, waitingOn := m)]);
    }

    /** a->next = t; */
    method LinkTo(a: KThread, t: KThread)
      requires Mirrors() && a in im.threads
      modifies this`im, a`next
      ensures Mirrors() && im == old(im).(threads := I.SetNext(old(im).threads, a, t))
    {
      a.next := t;
      im := im.(threads := I.SetNext(im.threads, a, t));
    }

    /** The value a system call returns to the current thread. */
    method SetRet(v: Status)
      requires Mirrors() && current in im.threads
      modifies this`im, current`a0
      ensures Mirrors() && im == I.SetRet(old(im), current, v)
    {
      current.a0 := v;
      im := I.SetRet(im, current, v);
    }

    /** t->state = state; */
    method SetState(t: KThread, state: ThreadState)
      requires Mirrors() && t in im.threads
      modifies this`im, t`state
      ensures Mirrors() && im == I.SetState(old(im), t, state)
    {
      t.state := state;
      im := I.SetState(im, t, state);
    }

    /** m->owner = owner; m->lock_count = count; */
    method SetOwner(m: KMutex, owner: KThread?, count: int)
      requires Mirrors() && m in im.mutexes
      modifies this`im, m`owner, m`lockCount
      ensures Mirrors() && im == I.SetOwner(old(im), m, owner, count)
    {
      m.owner := owner;
      m.lockCount := count;
      im := I.SetOwner(im, m, owner, count);
    }

    /** All four words of a mutex. */
    method SetMutex(m: KMutex, owner: KThread?, count: int, head: KThread?, tail: KThread?)
      requires Mirrors() && m in im.mutexes
      modifies this`im, m
      ensures Mirrors()
      ensures im == old(im).(mutexes := old(im).mutexes[m := I.MutexWords(owner, count, head, tail)])
    {
      m.owner, m.lockCount, m.queueHead, m.queueTail := owner, count, head, tail;
      im := im.(mutexes := im.mutexes[m := I.MutexWords(owner, count, head, tail)]);
    }

    /** c->queue_head = head; c->queue_tail = tail; */
    method SetCondQueue(c: KCond, head: KThread?, tail: KThread?)
      requires Mirrors() && c in im.conds
      modifies this`im, c
      ensures Mirrors() && im == old(im).(conds := old(im).conds[c := I.CondWords(head, tail)])
    {
      c.queueHead := head;
      c.queueTail := tail;
      im := im.(conds := im.conds[c := I.CondWords(head, tail)]);
    }

    /** t->next = NULL; t->waiting_on = NULL; */
    method Detach(t: KThread)
      requires Mirrors() && t in im.threads
      modifies this`im, t`next, t`waitingOn
      ensures Mirrors()
      ensures im == old(im).(threads := old(im).threads[t := old(im).threads[t].(next := null, waitingOn := null)])
    {
      t.next := null;
      t.waitingOn := null;
      im := im.(threads := im.threads[t := im.threads[t].(next := null, waitingOn := null)]);
    }

    /** The start of kscheduler_enqueue: t->state = KTHREAD_STATE_READY; and no links. */
    method MakeReady(t: KThread)
      requires Mirrors() && t in im.threads
      modifies this`im, t`state, t`next, t`waitingOn
      ensures Mirrors()
      ensures im == old(im).(threads := old(im).threads[t :=
                old(im).threads[t].(state := READY, next := null, waitingOn := null)])
    {
      t.state := READY;
      t.next := null;
      t.waitingOn := null;
      im := im.(threads := im.threads[t := im.threads[t].(state := READY, next := null, waitingOn := null)]);
    }

    /** kscheduler_head = first; kscheduler_tail = last; */
    method SetReady(first: KThread?, last: KThread?)
      requires Mirrors()
      modifies this`im, this`head, this`tail
      ensures Mirrors() && im == old(im).(head := first, tail := last)
    {
      head, tail := first, last;
      im := im.(head := first, tail := last);
    }

    // ---- scheduler.c ---------------------------------------------------------------------------

    /** kscheduler_enqueue */
    method Enqueue(t: KThread)
      requires Mirrors() && t in im.threads && I.ReadyMapped(im)
      modifies this`head, this`tail, this`im
      modifies im.threads.Keys`state, im.threads.Keys`next, im.threads.Keys`waitingOn
      ensures Mirrors() && im == I.Enqueue(old(im), t)
    {
      MakeReady(t);
      if head != null {
        LinkTo(tail, t);
        SetReady(head, t);
      } else {
        SetReady(t, t);
      }
    }

    /** kscheduler_dequeue */
    method Dequeue() returns (t: KThread?)
      requires Mirrors() && I.ReadyMapped(im)
      modifies this`head, this`tail, this`im
      modifies im.threads.Keys`state, im.threads.Keys`next, im.threads.Keys`waitingOn
      ensures Mirrors() && im == I.Dequeue(old(im)) && t == old(im).head
    {
      if head == null {
        return null;
      }
      t := head;
      SetReady(t.next, if t.next == null then null else tail);
      Detach(t);
    }

    // ---- mutex.c ---------------------------------------------------------------------------------

    /** kmutex_try_lock */
    method MutexTryLock(m: KMutex, t: KThread) returns (ok: bool)
      requires Mirrors() && m in im.mutexes
      modifies this`im, m
      ensures Mirrors() && ok == (old(im).mutexes[m].owner == null)
      ensures im == if ok then I.SetOwner(old(im), m, t, 1) else old(im)
    {
      ok := m.owner == null;
      if ok {
        SetOwner(m, t, 1);
      }
    }

    /** kmutex_lock */
    method MutexLock(m: KMutex, t: KThread)
      requires Mirrors() && t in im.threads && I.MutexMapped(im, m)
      modifies this`im, m
      modifies im.threads.Keys`state, im.threads.Keys`next, im.threads.Keys`waitingOn
      ensures Mirrors() && im == I.Lock(old(im), m, t)
    {
      if m.owner == null {
        SetOwner(m, t, 1);
      } else if m.owner == t {
        if m.recursive {
          SetOwner(m, t, (m.lockCount + 1) % S.COUNT_LIMIT);
        }
      } else {
        MarkBlocked(t, m);
        if m.queueHead == null {
          SetMutex(m, m.owner, m.lockCount, t, t);
        } else {
          LinkTo(m.queueTail, t);
          SetMutex(m, m.owner, m.lockCount, m.queueHead, t);
        }
      }
    }

    /** The end of kmutex_unlock: the first waiter leaves the queue as the owner. */
    method HandOver(m: KMutex) returns (next: KThread)
      requires Mirrors() && I.MutexMapped(im, m) && im.mutexes[m].head != null
      modifies this`im, m
      ensures Mirrors() && im == I.HandOver(old(im), m) && next == old(im).mutexes[m].head
    {
      next := m.queueHead;
      SetMutex(m, next, 1, next.next, if next.next == null then null else m.queueTail);
    }

    /** kmutex_unlock */
    method MutexUnlock(m: KMutex, t: KThread) returns (status: Status)
      requires Mirrors() && I.MutexMapped(im, m) && I.ReadyMapped(im)
      modifies this`head, this`tail, this`im, m
      modifies im.threads.Keys`state, im.threads.Keys`next, im.threads.Keys`waitingOn
      ensures Mirrors() && im == I.Unlock(old(im), m, t)
      ensures status == if old(im).mutexes[m].owner == t then SUCCESS else ERROR
    {
      status := if m.owner == t then SUCCESS else ERROR;
      if m.owner == t {
        var left := (m.lockCount + S.COUNT_LIMIT - 1) % S.COUNT_LIMIT;
        if m.recursive && left > 0 {
          SetOwner(m, t, left);
        } else if m.queueHead == null {
          SetOwner(m, null, left);
        } else {
          var next := HandOver(m);
          Enqueue(next);
        }
      }
    }

    // ---- condition.c --------------------------------------------------------------------------------

    /** The start of kcond_wait: the thread blocks at the end of the queue of the condition. */
    method ParkOn(c: KCond, m: KMutex, t: KThread)
      requires Mirrors() && t in im.threads && I.CondMapped(im, c)
      modifies this`im, c
      modifies im.threads.Keys`state, im.threads.Keys`next, im.threads.Keys`waitingOn
      ensures Mirrors() && im == I.Park(old(im), c, m, t)
    {
      MarkBlocked(t, m);
      if c.queueHead == null {
        SetCondQueue(c, t, t);
      } else {
        LinkTo(c.queueTail, t);
        SetCondQueue(c, c.queueHead, t);
      }
    }

    /** kcond_wait */
    method CondWait(c: KCond, m: KMutex, t: KThread)
      requires Mirrors() && t in im.threads
      requires I.CondMapped(im, c) && I.MutexMapped(im, m) && I.ReadyMapped(im)
      modifies this`head, this`tail, this`im, c, m
      modifies im.threads.Keys`state, im.threads.Keys`next, im.threads.Keys`waitingOn
      ensures I.MutexMapped(I.Park(old(im), c, m, t), m) && I.ReadyMapped(I.Park(old(im), c, m, t))
      ensures Mirrors() && im == I.Unlock(I.Park(old(im), c, m, t), m, t)
    {
      I.ParkMapped(im, c, m, t);
      ParkOn(c, m, t);
      var _ := MutexUnlock(m, t);
    }

    /** kmutex_lock of a waiter, on the mutex that it waits with. */
    method LockOwn(thread: KThread) returns (next: KThread?)
      requires Mirrors() && I.Lockable(im, thread)
      modifies this`im, im.mutexes.Keys
      modifies im.threads.Keys`state, im.threads.Keys`next, im.threads.Keys`waitingOn
      ensures Mirrors() && im == I.LockOwn(old(im), thread) && next == old(im).threads[thread].next
    {
      next := thread.next;
      MutexLock(thread.waitingOn, thread);
    }

    /** One round of the loop of kcond_signal_all, with the waiters `p` to go. */
    method LockFirst(thread: KThread, ghost p: seq<KThread>) returns (next: KThread?)
      requires Mirrors() && I.Waitlist(im, p) && p != [] && thread == p[0]
      modifies this`im, im.mutexes.Keys
      modifies im.threads.Keys`state, im.threads.Keys`next, im.threads.Keys`waitingOn
      ensures Mirrors() && I.Waitlist(im, p[1..]) && next == I.First(p[1..])
      ensures I.LockAll(im, p[1..]) == I.LockAll(old(im), p)
      ensures im.threads.Keys == old(im).threads.Keys && im.mutexes.Keys == old(im).mutexes.Keys
      ensures im.conds == old(im).conds
    {
      hide I.LockOwn, I.Lockable, I.OffTails;
      I.WaitlistStep(im, p);
      I.RoundKeeps(im, p);
      next := LockOwn(thread);
    }

    /** kcond_signal_all, for the waiters `p`. */
    method CondSignalAll(c: KCond, ghost p: seq<KThread>)
      requires Mirrors() && I.Waitlist(im, p)
      requires c in im.conds && im.conds[c].head == I.First(p)
      modifies this`im, c, im.mutexes.Keys
      modifies im.threads.Keys`state, im.threads.Keys`next, im.threads.Keys`waitingOn
      ensures Mirrors() && im == I.Broadcast(old(im), c, p)
    {
      var thread := c.queueHead;
      ghost var q := p;
      while thread != null
        invariant Mirrors() && I.Waitlist(im, q) && thread == I.First(q)
        invariant I.LockAll(im, q) == I.LockAll(old(im), p)
        invariant im.threads.Keys == old(im).threads.Keys && im.mutexes.Keys == old(im).mutexes.Keys
        invariant im.conds == old(im).conds
        decreases |q|
      {
        thread := LockFirst(thread, q);
        q := q[1..];
      }
      SetCondQueue(c, null, null);
    }

    // ---- thread.c ---------------------------------------------------------------------------------------

    /** kthread_dispatch */
    method Dispatch()
      requires Mirrors() && I.ReadyMapped(im) && main in im.threads
      requires current == null || current in im.threads
      modifies this`current, this`head, this`tail, this`im
      modifies im.threads.Keys`state, im.threads.Keys`next, im.threads.Keys`waitingOn
      ensures Mirrors() && im == I.Dispatch(old(im), main)
    {
      var prev := current;
      if prev != null && prev.state != BLOCKED && prev != main {
        Enqueue(prev);
      }
      var next := Dequeue();
      if next == null {
        next := main;
      }
      current := next;
      im := im.(current := next);
      SetState(next, RUNNING);
    }

    /** kthread_stop */
    method Stop()
      requires Mirrors() && I.ReadyMapped(im) && main in im.threads
      modifies this`current, this`head, this`tail, this`im
      modifies im.threads.Keys`state, im.threads.Keys`next, im.threads.Keys`waitingOn
      ensures Mirrors() && im == I.Dispatch(old(im).(current := null), main)
    {
      current := null;
      im := im.(current := null);
      Dispatch();
    }

    // ---- syscalls.c -------------------------------------------------------------------------------------

    /** kmutex_lock by the running thread, and the return value. */
    method Locking(m: KMutex)
      requires Mirrors() && current in im.threads && I.MutexMapped(im, m)
      modifies this`im, m
      modifies im.threads.Keys`state, im.threads.Keys`next, im.threads.Keys`waitingOn, im.threads.Keys`a0
      ensures Mirrors() && im == Y.Locking(old(im), m)
    {
      MutexLock(m, current);
      SetRet(SUCCESS);
    }

    /** syscall_mutex_lock */
    method SyscallMutexLock(m: KMutex?)
      requires Mirrors() && current in im.threads && main in im.threads
      requires m != null ==> I.MutexMapped(im, m) && I.ReadyMapped(im)
      modifies this`current, this`head, this`tail, this`im, Y.Maybe(m)
      modifies im.threads.Keys`state, im.threads.Keys`next, im.threads.Keys`waitingOn, im.threads.Keys`a0
      ensures Mirrors()
      ensures im == if m == null then I.SetRet(old(im), old(current), ERROR) else Y.LockCall(old(im), m, main)
    {
      if m == null {
        SetRet(ERROR);
      } else {
        Y.LockingMapped(im, m);
        Locking(m);
        if current.state == BLOCKED {
          Dispatch();
        }
      }
    }

    /** syscall_mutex_try_lock */
    method SyscallMutexTryLock(m: KMutex?)
      requires Mirrors() && current in im.threads && (m != null ==> m in im.mutexes)
      modifies this`im, current`a0, Y.Maybe(m)
      ensures Mirrors()
      ensures im == if m == null then I.SetRet(old(im), current, ERROR) else Y.TryLockCall(old(im), m)
    {
      if m == null {
        SetRet(ERROR);
      } else {
        var ok := MutexTryLock(m, current);
        SetRet(if ok then SUCCESS else BUSY);
      }
    }

    /** syscall_mutex_unlock */
    method SyscallMutexUnlock(m: KMutex?)
      requires Mirrors() && current in im.threads
      requires m != null ==> I.MutexMapped(im, m) && I.ReadyMapped(im)
      modifies this`head, this`tail, this`im, Y.Maybe(m)
      modifies im.threads.Keys`state, im.threads.Keys`next, im.threads.Keys`waitingOn, im.threads.Keys`a0
      ensures Mirrors()
      ensures im == if m == null then I.SetRet(old(im), current, ERROR) else Y.UnlockCall(old(im), m)
    {
      if m == null {
        SetRet(ERROR);
      } else {
        Y.UnlockKeepsStatesOf(im, m, current);
        var status := MutexUnlock(m, current);
        SetRet(status);
      }
    }

    /** kcond_wait by the running thread, and the return value. */
    method Waiting(c: KCond, m: KMutex)
      requires Mirrors() && Y.Waitable(im, c, m)
      modifies this`head, this`tail, this`im, c, m
      modifies im.threads.Keys`state, im.threads.Keys`next, im.threads.Keys`waitingOn, im.threads.Keys`a0
      ensures Mirrors() && im == Y.Waiting(old(im), c, m)
    {
      Y.WaitingMapped(im, c, m);
      CondWait(c, m, current);
      SetRet(SUCCESS);
    }

    /** syscall_cond_wait */
    method SyscallCondWait(c: KCond?, m: KMutex?)
      requires Mirrors() && current in im.threads && main in im.threads
      requires c != null && m != null ==> Y.Waitable(im, c, m)
      modifies this`current, this`head, this`tail, this`im, Y.Maybe(m), Y.MaybeCond(c)
      modifies im.threads.Keys`state, im.threads.Keys`next, im.threads.Keys`waitingOn, im.threads.Keys`a0
      ensures Mirrors()
      ensures im == if c == null || m == null then I.SetRet(old(im), old(current), ERROR)
                    else Y.WaitCall(old(im), c, m, main)
    {
      if c == null || m == null {
        SetRet(ERROR);
      } else {
        Y.WaitingMapped(im, c, m);
        Waiting(c, m);
        if current.state == BLOCKED {
          Dispatch();
        }
      }
    }

    /** syscall_cond_signal_all, for the waiters `p`. */
    method SyscallCondSignalAll(c: KCond?, ghost p: seq<KThread>)
      requires Mirrors() && current in im.threads
      requires c != null ==> I.Waitlist(im, p) && c in im.conds && im.conds[c].head == I.First(p)
      modifies this`im, im.mutexes.Keys, Y.MaybeCond(c)
      modifies im.threads.Keys`state, im.threads.Keys`next, im.threads.Keys`waitingOn, im.threads.Keys`a0
      ensures Mirrors()
      ensures im == if c == null then I.SetRet(old(im), current, ERROR) else Y.SignalAllCall(old(im), c, p)
    {
      if c == null {
        SetRet(ERROR);
      } else {
        Y.LockAllNames(im, p);
        Y.BroadcastNames(im, c, p);
        CondSignalAll(c, p);
        SetRet(SUCCESS);
      }
    }

    /** syscall_thread_create; `argsOk` says that neither pointer argument is null, `hasMemory`
        that kthread_create found memory. */
    method SyscallThreadCreate(argsOk: bool, hasMemory: bool) returns (t: KThread?)
      requires Mirrors() && current in im.threads && I.ReadyMapped(im)
      modifies this`head, this`tail, this`im
      modifies im.threads.Keys`state, im.threads.Keys`next, im.threads.Keys`waitingOn, im.threads.Keys`a0
      ensures Mirrors() && (t != null <==> argsOk && hasMemory)
      ensures t == null ==> im == I.SetRet(old(im), current, if argsOk then NO_MEMORY else ERROR)
      ensures t != null ==> fresh(t) && im == Y.CreateCall(old(im), t)
    {
      if !argsOk || !hasMemory {
        SetRet(if argsOk then NO_MEMORY else ERROR);
        return null;
      }
      t := new KThread();
      im := im.(threads := im.threads[t := Y.NEW_THREAD]);
      Enqueue(t);
      SetRet(SUCCESS);
    }

    /** syscall_mutex_create */
    method SyscallMutexCreate(argsOk: bool, hasMemory: bool, recursive: bool) returns (m: KMutex?)
      requires Mirrors() && current in im.threads
      modifies this`im, current`a0
      ensures Mirrors() && (m != null <==> argsOk && hasMemory)
      ensures m == null ==> im == I.SetRet(old(im), current, if argsOk then NO_MEMORY else ERROR)
      ensures m != null ==> fresh(m) && m.recursive == recursive && im == Y.NewMutexCall(old(im), m)
    {
      if !argsOk || !hasMemory {
        SetRet(if argsOk then NO_MEMORY else ERROR);
        return null;
      }
      m := new KMutex(recursive);
      im := im.(mutexes := im.mutexes[m := I.MutexWords(null, 0, null, null)]);
      SetRet(SUCCESS);
    }

    /** syscall_cond_create */
    method SyscallCondCreate(argsOk: bool, hasMemory: bool) returns (c: KCond?)
      requires Mirrors() && current in im.threads
      modifies this`im, current`a0
      ensures Mirrors() && (c != null <==> argsOk && hasMemory)
      ensures c == null ==> im == I.SetRet(old(im), current, if argsOk then NO_MEMORY else ERROR)
      ensures c != null ==> fresh(c) && im == Y.NewCondCall(old(im), c)
    {
      if !argsOk || !hasMemory {
        SetRet(if argsOk then NO_MEMORY else ERROR);
        return null;
      }
      c := new KCond();
      im := im.(conds := im.conds[c := I.CondWords(null, null)]);
      SetRet(SUCCESS);
    }
  }
}
