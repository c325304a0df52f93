/** The guards of the system calls are exact on the records: a call leaves records of a sound system if and
    only if its guard holds. */
module SyscallGuards {
  import opened KernelObjects
  import opened I = QueueImage
  import opened Y = SyscallImage
  import S = SyncModel

  /** The two systems have the same threads, mutexes and conditions. */
  ghost predicate SameNames(s: S.Sys, s': S.Sys) {
    && s'.idle == s.idle && s'.place.Keys == s.place.Keys
    && s'.mutexes.Keys == s.mutexes.Keys && s'.conds.Keys == s.conds.Keys
  }

  // ---- Records that no sound system explains -------------------------------------------------------------------

  /** A thread that is blocked on a mutex it owns; */
  lemma BlockedOwnerBreaks(im: Image, s: S.Sys, t: KThread, m: KMutex)
    requires Tracks(im, s) && t in s.place && m in s.mutexes
    requires t in im.threads && im.threads[t].state == BLOCKED && im.threads[t].waitingOn == m
    requires m in im.mutexes && im.mutexes[m].owner == t
    ensures !S.Inv(s)
  {
    assert Tagged(im.threads, t, s.place[t]) && MutexHeld(im, m, s.mutexes[m]);
    assert !S.ClaimOk(s, t);
  }

  /** a current thread that waits for a mutex; */
  lemma BlockedRunnerBreaks(im: Image, s: S.Sys)
    requires im.current != null && im.current in im.threads && im.threads[im.current].waitingOn != null
    ensures !Tracks(im, s)
  {
    if Tracks(im, s) {
      RunnerWaitsForNone(im, s);
    }
  }

  lemma RunnerWaitsForNone(im: Image, s: S.Sys)
    requires Tracks(im, s)
    ensures im.current != null && im.current in im.threads && im.threads[im.current].waitingOn == null
  {
    assert Tagged(im.threads, s.current, s.place[s.current]);
  }

  /** a mutex whose last waiter has a link; */
  lemma LinkedTailBreaks(im: Image, s: S.Sys, m: KMutex)
    requires m in s.mutexes && m in im.mutexes && im.mutexes[m].tail != null && im.mutexes[m].tail in im.threads
    requires im.threads[im.mutexes[m].tail].next != null
    ensures !Tracks(im, s)
  {
    if Tracks(im, s) {
      TailIsUnlinked(im, s, m);
    }
  }

  lemma TailIsUnlinked(im: Image, s: S.Sys, m: KMutex)
    requires Tracks(im, s) && m in s.mutexes && m in im.mutexes && im.mutexes[m].tail != null
    ensures im.mutexes[m].tail in im.threads && im.threads[im.mutexes[m].tail].next == null
  {
    assert MutexHeld(im, m, s.mutexes[m]);
    TailEndsChain(im.threads, s.mutexes[m].queue, im.mutexes[m].head, im.mutexes[m].tail);
  }

  /** an owner that holds its mutex zero times. */
  lemma ZeroCountBreaks(im: Image, s: S.Sys, m: KMutex)
    requires Tracks(im, s) && m in s.mutexes && m in im.mutexes
    requires im.mutexes[m].owner != null && im.mutexes[m].count == 0
    ensures !S.Inv(s)
  {
    assert MutexHeld(im, m, s.mutexes[m]);
    assert !S.MutexOk(s, m);
  }

  // ---- A dispatch that finds nobody ------------------------------------------------------------------------------

  /** kthread_main is made current while it waits for a mutex. */
  lemma StuckDispatch(im: Image, s: S.Sys)
    requires Entering(im, s) && !S.Runs(s, s.current) && s.ready == []
    requires s.place[s.idle].OnMutex? || s.place[s.idle].OnCond?
    ensures ReadyMapped(im) && s.idle in im.threads && (im.current == null || im.current in im.threads)
    ensures var im' := Dispatch(im, s.idle);
      im'.current == s.idle && s.idle in im'.threads && im'.threads[s.idle].waitingOn != null
  {
    GiveWayHolds(im, s);
    HoldsMapped(im, s);
    IdleMapped(im, s);
    HeadIsFirst(GiveWay(im, s.idle), s);
    assert Tagged(GiveWay(im, s.idle).threads, s.idle, s.place[s.idle]);
  }

  /** Without a ready thread and a reserve, kthread_main waits. */
  lemma IdleWaits(s: S.Sys)
    requires S.Inv(s) && s.ready == [] && !S.InReserve(s) && s.current != s.idle
    ensures s.place[s.idle].OnMutex? || s.place[s.idle].OnCond?
  {
    assert S.ClaimOk(s, s.idle) && S.Listed(s, s.idle);
  }

  lemma StuckLock(im: Image, s: S.Sys, m: KMutex)
    requires Tracks(im, s) && S.Inv(s) && m in s.mutexes && S.Blocks(s, m) && !S.Relieved(s)
    ensures MutexMapped(im, m) && ReadyMapped(im) && im.current in im.threads && s.idle in im.threads
    ensures var im' := LockCall(im, m, s.idle);
      im'.current == s.idle && s.idle in im'.threads && im'.threads[s.idle].waitingOn != null
  {
    hide Dispatch, Locking, Holds, S.QueuesOk;
    HoldsMapped(im, s);
    TracksMapped(im, s);
    LockingMapped(im, m);
    LockingBlocks(im, s, m);
    S.LockSwitches(s, m);
    if s.current != s.idle {
      IdleWaits(s);
    }
    StuckDispatch(Locking(im, m), S.Join(s, m, s.current));
  }

  lemma StuckWait(im: Image, s: S.Sys, c: KCond, m: KMutex)
    requires Tracks(im, s) && S.Inv(s) && c in s.conds && m in s.mutexes
    requires S.Stuck(S.Unlock(S.Park(s, c, m, s.current), m))
    ensures Waitable(im, c, m) && s.idle in im.threads
    ensures var im' := WaitCall(im, c, m, s.idle);
      im'.current == s.idle && s.idle in im'.threads && im'.threads[s.idle].waitingOn != null
  {
    hide Dispatch, Waiting, Holds, S.QueuesOk;
    TracksMapped(im, s);
    WaitEnters(im, s, c, m);
    WaitingMapped(im, c, m);
    WaitLeaves(s, c, m);
    var s1 := S.Unlock(S.Park(s, c, m, s.current), m);
    StuckDispatch(Waiting(im, c, m), s1);
  }

  lemma WaitLeaves(s: S.Sys, c: KCond, m: KMutex)
    requires S.Inv(s) && c in s.conds && m in s.mutexes && S.Stuck(S.Unlock(S.Park(s, c, m, s.current), m))
    ensures var s1 := S.Unlock(S.Park(s, c, m, s.current), m);
      && !S.Runs(s1, s1.current) && s1.ready == [] && s1.idle == s.idle
      && s1.idle in s1.place && (s1.place[s1.idle].OnMutex? || s1.place[s1.idle].OnCond?)
  {
    if s.current != s.idle {
      IdleWaits(s);
    }
  }

  lemma StuckExit(im: Image, s: S.Sys)
    requires Tracks(im, s) && S.Inv(s) && s.current != s.idle && !S.Relieved(s)
    ensures ReadyMapped(im) && s.idle in im.threads
    ensures var im' := StopCall(im, s.idle);
      im'.current == s.idle && s.idle in im'.threads && im'.threads[s.idle].waitingOn != null
  {
    hide Dispatch, Holds, S.QueuesOk;
    IdleWaits(s);
    StoppedEnters(im, s);
    StuckDispatch(im.(current := null), S.Stopped(s));
  }

  // ---- Unguarded calls -------------------------------------------------------------------------------------------

  lemma UnguardedLock(im: Image, s: S.Sys, m: KMutex, s': S.Sys)
    requires Callable(im, s, S.DoLock(m)) && S.Inv(s) && !S.Guard(s, S.DoLock(m))
    requires SameNames(S.Lock(s, m), s') && Tracks(CallImage(im, s, S.DoLock(m)), s')
    ensures !S.Inv(s')
  {
    hide LockCall, Holds, S.QueuesOk, S.ClaimOk, S.Dispatch;
    var im' := CallImage(im, s, S.DoLock(m));
    if S.Blocks(s, m) {
      StuckLock(im, s, m);
      BlockedRunnerBreaks(im', s');
    } else {
      CallTracksStep(im, s, S.DoLock(m));
      CountHeld(im', S.Lock(s, m), m);
      ZeroCountBreaks(im', s', m);
    }
  }

  lemma CountHeld(im: Image, s: S.Sys, m: KMutex)
    requires Tracks(im, s) && m in s.mutexes
    ensures m in im.mutexes && im.mutexes[m].owner == s.mutexes[m].owner && im.mutexes[m].count == s.mutexes[m].count
  {
    assert MutexHeld(im, m, s.mutexes[m]);
  }

  lemma UnguardedWait(im: Image, s: S.Sys, c: KCond, m: KMutex, s': S.Sys)
    requires Callable(im, s, S.DoWait(c, m)) && S.Inv(s) && !S.Guard(s, S.DoWait(c, m))
    requires SameNames(S.Wait(s, c, m), s') && Tracks(CallImage(im, s, S.DoWait(c, m)), s')
    ensures !S.Inv(s')
  {
    hide WaitCall, Holds, S.QueuesOk, S.ClaimOk, S.Dispatch, S.Inv;
    var op, im' := S.DoWait(c, m), CallImage(im, s, S.DoWait(c, m));
    if S.Stuck(S.Unlock(S.Park(s, c, m, s.current), m)) {
      StuckWait(im, s, c, m);
      BlockedRunnerBreaks(im', s');
    } else {
      UnguardedWaitIsNested(s, c, m);
      CallTracksStep(im, s, op);
      S.NestedWaitStays(s, c, m);
      CountHeld(im', S.Wait(s, c, m), m);
      ParkedTagged(im', S.Wait(s, c, m), s.current, c, m);
      BlockedOwnerBreaks(im', s', s.current, m);
    }
  }

  lemma UnguardedWaitIsNested(s: S.Sys, c: KCond, m: KMutex)
    requires S.Inv(s) && S.WellTyped(s, S.DoWait(c, m)) && !S.Guard(s, S.DoWait(c, m))
    requires !S.Stuck(S.Unlock(S.Park(s, c, m, s.current), m))
    ensures s.mutexes[m].owner == s.current && s.mutexes[m].count > 1
  {
    if !(s.mutexes[m].owner == s.current && s.mutexes[m].count > 1) {
      S.WaitSwitches(s, c, m);
    }
  }

  lemma ParkedTagged(im: Image, s: S.Sys, t: KThread, c: KCond, m: KMutex)
    requires Tracks(im, s) && t in s.place && s.place[t] == S.OnCond(c, m)
    ensures t in im.threads && im.threads[t].state == BLOCKED && im.threads[t].waitingOn == m
  {
    assert Tagged(im.threads, t, s.place[t]);
  }

  /** Locks of others, and one's own, leave the mutex that a thread waits with. */
  lemma {:induction false} LockAllKeepsWaiting(im: Image, p: seq<KThread>, u: KThread)
    requires AllLockable(im, p) && u in im.threads
    ensures u in LockAll(im, p).threads && LockAll(im, p).threads[u].waitingOn == im.threads[u].waitingOn
    decreases |p|
  {
    if p != [] {
      assert p[0] in p;
      AllStayLockable(im, p);
      LockKeepsWaiting(im, p[0], u);
      LockAllKeepsWaiting(LockOwn(im, p[0]), p[1..], u);
    }
  }

  lemma LockKeepsWaiting(im: Image, t: KThread, u: KThread)
    requires Lockable(im, t) && u in im.threads
    ensures u in LockOwn(im, t).threads && LockOwn(im, t).threads[u].waitingOn == im.threads[u].waitingOn
  {
  }

  lemma FreeBroadcast(im: Image, s: S.Sys, c: KCond, s': S.Sys)
    requires Callable(im, s, S.DoSignalAll(c)) && S.Inv(s) && !S.Guard(s, S.DoSignalAll(c)) && S.OneMutex(s, c)
    requires SameNames(S.SignalAll(s, c), s') && Tracks(CallImage(im, s, S.DoSignalAll(c)), s')
    ensures !S.Inv(s')
  {
    hide Holds, S.QueuesOk, S.ClaimOk, S.SignalAll, Broadcast, S.OneMutex, S.Inv;
    var p, m, im' := s.conds[c], S.FirstWanted(s, c), CallImage(im, s, S.DoSignalAll(c));
    assert p[0] in p;
    CallTracksStep(im, s, S.DoSignalAll(c));
    HoldsWaitlist(im, s, c);
    TakerBlocked(s, c);
    CountHeld(im', S.SignalAll(s, c), m);
    LostTagged(im', S.SignalAll(s, c), p[0]);
    LockAllKeepsWaiting(im, p, p[0]);
    assert Parked(im, s, p[0]);
    BroadcastNames(im, c, p);
    BlockedOwnerBreaks(im', s', p[0], m);
  }

  /** The first waiter on a free mutex gets it and is in no queue. */
  lemma TakerBlocked(s: S.Sys, c: KCond)
    requires S.Inv(s) && S.WellTyped(s, S.DoSignalAll(c)) && S.OneMutex(s, c) && s.conds[c] != []
    requires s.mutexes[S.FirstWanted(s, c)].owner == null
    ensures var s', t, m := S.SignalAll(s, c), s.conds[c][0], S.FirstWanted(s, c);
      t in s'.place && s'.place[t].Lost? && m in s'.mutexes && s'.mutexes[m].owner == t
  {
    hide S.SignalAll;
    assert s.conds[c][0] in s.conds[c];
    S.CommonWaits(s, c);
    S.SignalAllCommon(s, c, S.FirstWanted(s, c));
  }

  lemma LostTagged(im: Image, s: S.Sys, t: KThread)
    requires Tracks(im, s) && t in s.place && s.place[t].Lost?
    ensures t in im.threads && im.threads[t].state == BLOCKED
  {
    assert Tagged(im.threads, t, s.place[t]);
  }

  lemma {:induction false} LockWaitersNames(s: S.Sys, q: seq<KThread>)
    ensures SameNames(s, S.LockWaiters(s, q))
    decreases |q|
  {
    if q != [] {
      LockWaitersNames(S.LockWaiter(s, q[0]), q[1..]);
    }
  }

  lemma SignalAllNames(s: S.Sys, c: KCond)
    requires c in s.conds
    ensures SameNames(s, S.SignalAll(s, c))
  {
    LockWaitersNames(s, s.conds[c]);
  }

  lemma MixedBroadcastBreaks(im: Image, s: S.Sys, c: KCond, s': S.Sys)
    requires Callable(im, s, S.DoSignalAll(c)) && S.Inv(s) && !S.OneMutex(s, c)
    requires SameNames(S.SignalAll(s, c), s') && Tracks(CallImage(im, s, S.DoSignalAll(c)), s')
    ensures !S.Inv(s')
  {
    hide Holds, S.QueuesOk, S.ClaimOk, S.SignalAll, Broadcast, S.OneMutex, S.Inv;
    var im' := CallImage(im, s, S.DoSignalAll(c));
    SignalAllNames(s, c);
    var t, m, next := MixedBroadcast(im, s, c);
    assert S.WaiterOk(s, c, t) && t in s.place.Keys && m in s.mutexes.Keys;
    if im'.mutexes[m].owner == t {
      BlockedOwnerBreaks(im', s', t, m);
    } else {
      LinkedTailBreaks(im', s', m);
    }
  }

  /** After an unguarded call no sound system explains the records. */
  lemma UnguardedCallBreaks(im: Image, s: S.Sys, op: S.Op, s': S.Sys)
    requires Callable(im, s, op) && S.Inv(s) && !S.Guard(s, op)
    requires SameNames(S.Step(s, op), s')
    ensures !(Tracks(CallImage(im, s, op), s') && S.Inv(s'))
  {
    hide Tracks, S.Inv, CallImage, SameNames, S.OneMutex, S.Waiters;
    if op.DoExit? {
      UnguardedExit(im, s, s');
    } else if Tracks(CallImage(im, s, op), s') {
      match op {
        case DoLock(m) => UnguardedLock(im, s, m, s');
        case DoWait(c, m) => UnguardedWait(im, s, c, m, s');
        case DoSignalAll(c) =>
          if S.OneMutex(s, c) {
            FreeBroadcast(im, s, c, s');
          } else {
            MixedBroadcastBreaks(im, s, c, s');
          }
      }
    }
  }

  lemma UnguardedExit(im: Image, s: S.Sys, s': S.Sys)
    requires Callable(im, s, S.DoExit) && S.Inv(s) && !S.Guard(s, S.DoExit)
    ensures !Tracks(CallImage(im, s, S.DoExit), s')
  {
    hide StopCall, Holds, S.QueuesOk, S.ClaimOk;
    StuckExit(im, s);
    BlockedRunnerBreaks(CallImage(im, s, S.DoExit), s');
  }

  /** Main result: the records after a call, of any thread, are those of a sound system over the same threads,
      mutexes and conditions if and only if the guard of the call holds. */
  lemma CallKeepsIffGuard(im: Image, s: S.Sys, op: S.Op)
    requires Callable(im, s, op) && S.Inv(s)
    ensures (exists s' :: SameNames(S.Step(s, op), s') && Tracks(CallImage(im, s, op), s') && S.Inv(s'))
            <==> S.Guard(s, op)
  {
    hide Tracks, S.Inv, CallImage, S.Guard;
    if S.Guard(s, op) {
      GuardedSettles(s, op);
      CallTracksStep(im, s, op);
      S.StepKeepsIffGuard(s, op);
      assert SameNames(S.Step(s, op), S.Step(s, op));
    } else {
      forall s' | SameNames(S.Step(s, op), s') ensures !(Tracks(CallImage(im, s, op), s') && S.Inv(s')) {
        UnguardedCallBreaks(im, s, op, s');
      }
    }
  }
}
