/** Each system call on memory images takes the system one step. */
module SyscallImage {
  import opened KernelObjects
  import opened I = QueueImage
  import S = SyncModel

  /** The image holds the queues of `s`, and the current thread runs. */
  ghost predicate Tracks(im: Image, s: S.Sys) {
    && Holds(im, s) && S.QueuesOk(s) && S.CurrentOk(s)
    && im.current == s.current
  }

  lemma TracksMapped(im: Image, s: S.Sys)
    requires Tracks(im, s)
    ensures s.idle in im.threads && im.current in im.threads && im.threads[im.current].state == RUNNING
  {
    assert Tagged(im.threads, s.idle, s.place[s.idle]) && Tagged(im.threads, s.current, s.place[s.current]);
  }

  /** The same when kthread_dispatch is entered: the current thread may have blocked or exited. */
  ghost predicate Entering(im: Image, s: S.Sys) {
    && Holds(im, s) && S.QueuesOk(s) && im.current == s.current && s.idle in s.place
    && (s.current == null || (s.current in s.place && !s.place[s.current].Ready? && !s.place[s.current].Reserve?))
  }

  /** Nobody's return value changes, except `t` gets `v`. */
  ghost predicate Returned(im: Image, im': Image, t: KThread, v: Status) {
    forall u :: u in im.threads ==> u in im'.threads && im'.threads[u].a0 == if u == t then v else im.threads[u].a0
  }

  ghost predicate SameReturns(im: Image, im': Image) {
    forall u :: u in im.threads ==> u in im'.threads && im'.threads[u].a0 == im.threads[u].a0
  }

  lemma DispatchReturns(im: Image, main: KThread)
    requires ReadyMapped(im) && main in im.threads && (im.current == null || im.current in im.threads)
    ensures SameReturns(im, Dispatch(im, main))
  {
  }

  lemma DispatchRuns(s: S.Sys)
    requires S.QueuesOk(s) && s.idle in s.place && !S.Stuck(S.Yielded(s))
    ensures S.CurrentOk(S.Dispatch(s)) && S.Dispatch(s).idle == s.idle
  {
  }

  lemma DispatchTracks(im: Image, s: S.Sys)
    requires Entering(im, s) && !S.Stuck(S.Yielded(s))
    ensures ReadyMapped(im) && s.idle in im.threads && (im.current == null || im.current in im.threads)
    ensures Tracks(Dispatch(im, s.idle), S.Dispatch(s))
  {
    DispatchHolds(im, s);
    S.DispatchQueues(s);
    DispatchRuns(s);
  }

  lemma RetHolds(im: Image, s: S.Sys, t: KThread, v: Status)
    requires Holds(im, s) && t in im.threads
    ensures Holds(SetRet(im, t, v), s)
  {
    WordsFrame(im, s, t, im.threads[t].(a0 := v));
  }

  // ---- mutex_lock, mutex_try_lock, mutex_unlock -------------------------------------------------

  /** A new owner or count of `m`, and a return value: the current thread goes on. */
  lemma OwnerTracks(im: Image, s: S.Sys, m: KMutex, owner: KThread?, count: int, v: Status)
    requires Tracks(im, s) && m in s.mutexes
    ensures m in im.mutexes
    ensures Tracks(SetRet(SetOwner(im, m, owner, count), im.current, v),
                   S.SetMutex(s, m, s.mutexes[m].(owner := owner, count := count)))
  {
    var s' := S.SetMutex(s, m, s.mutexes[m].(owner := owner, count := count));
    SetOwnerHolds(im, s, m, owner, count);
    S.SetMutexQueues(s, m, s.mutexes[m].(owner := owner, count := count));
    RetHolds(SetOwner(im, m, owner, count), s', im.current, v);
  }

  lemma RetTracks(im: Image, s: S.Sys, v: Status)
    requires Tracks(im, s)
    ensures Tracks(SetRet(im, im.current, v), s)
  {
    RetHolds(im, s, im.current, v);
  }

  lemma BlockEnters(im: Image, s: S.Sys, m: KMutex)
    requires Tracks(im, s) && m in s.mutexes
    ensures MutexMapped(im, m) && im.current in im.threads
    ensures Entering(SetRet(Block(im, m, im.current), im.current, SUCCESS), S.Join(s, m, s.current))
  {
    HoldsMapped(im, s);
    TracksMapped(im, s);
    BlockHolds(im, s, m, s.current);
    S.JoinQueues(s, m, s.current);
    RetHolds(Block(im, m, s.current), S.Join(s, m, s.current), s.current, SUCCESS);
  }

  /** syscall_mutex_lock, up to the point where it looks whether the thread has blocked */
  function Locking(im: Image, m: KMutex): Image
    requires im.current != null && im.current in im.threads && m in im.mutexes
    requires im.mutexes[m].head != null ==> im.mutexes[m].tail != null && im.mutexes[m].tail in im.threads
  {
    SetRet(Lock(im, m, im.current), im.current, SUCCESS)
  }

  lemma LockingGoesOn(im: Image, s: S.Sys, m: KMutex)
    requires Tracks(im, s) && m in s.mutexes
    requires s.mutexes[m].owner == null || s.mutexes[m].owner == s.current
    ensures MutexMapped(im, m)
    ensures Tracks(Locking(im, m), S.Lock(s, m))
  {
    HoldsMapped(im, s);
    var t, ms := im.current, s.mutexes[m];
    assert MutexHeld(im, m, ms);
    if ms.owner == null {
      OwnerTracks(im, s, m, t, 1, SUCCESS);
    } else if m.recursive {
      OwnerTracks(im, s, m, t, (ms.count + 1) % S.COUNT_LIMIT, SUCCESS);
    } else {
      RetTracks(im, s, SUCCESS);
    }
  }

  lemma LockingBlocks(im: Image, s: S.Sys, m: KMutex)
    requires Tracks(im, s) && m in s.mutexes && S.Blocks(s, m)
    ensures MutexMapped(im, m) && im.current in im.threads
    ensures Entering(Locking(im, m), S.Join(s, m, s.current))
    ensures Locking(im, m).threads[s.current].state == BLOCKED
  {
    HoldsMapped(im, s);
    assert MutexHeld(im, m, s.mutexes[m]);
    BlockEnters(im, s, m);
  }

  /** syscall_mutex_lock */
  ghost function LockCall(im: Image, m: KMutex, main: KThread): Image
    requires im.current != null && im.current in im.threads && main in im.threads
    requires MutexMapped(im, m) && ReadyMapped(im)
  {
    LockingMapped(im, m);
    var im1 := Locking(im, m);
    if im1.threads[im.current].state == BLOCKED then Dispatch(im1, main) else im1
  }

  lemma LockingMapped(im: Image, m: KMutex)
    requires im.current != null && im.current in im.threads && MutexMapped(im, m) && ReadyMapped(im)
    ensures ReadyMapped(Locking(im, m)) && Locking(im, m).current == im.current
    ensures Locking(im, m).threads.Keys == im.threads.Keys
  {
  }

  /** A lock by the running thread is one step, if somebody can run when it blocks. */
  lemma LockCallTracks(im: Image, s: S.Sys, m: KMutex)
    requires Tracks(im, s) && m in s.mutexes
    requires S.Blocks(s, m) ==> !S.Stuck(S.Join(s, m, s.current))
    ensures MutexMapped(im, m) && ReadyMapped(im) && im.current in im.threads && s.idle in im.threads
    ensures Tracks(LockCall(im, m, s.idle), S.Lock(s, m))
  {
    HoldsMapped(im, s);
    TracksMapped(im, s);
    if S.Blocks(s, m) {
      LockingBlocks(im, s, m);
      DispatchTracks(Locking(im, m), S.Join(s, m, s.current));
    } else {
      LockingGoesOn(im, s, m);
      LockingState(im, s, m);
    }
  }

  lemma LockingState(im: Image, s: S.Sys, m: KMutex)
    requires Tracks(im, s) && m in s.mutexes && MutexMapped(im, m)
    requires s.mutexes[m].owner == null || s.mutexes[m].owner == s.current
    ensures Locking(im, m).threads[im.current].state == RUNNING
  {
    assert MutexHeld(im, m, s.mutexes[m]);
  }

  lemma LockingReturns(im: Image, m: KMutex)
    requires im.current != null && im.current in im.threads && MutexMapped(im, m)
    ensures Returned(im, Locking(im, m), im.current, SUCCESS)
  {
  }

  /** syscall_mutex_try_lock */
  function TryLockCall(im: Image, m: KMutex): Image
    requires im.current != null && im.current in im.threads && m in im.mutexes
  {
    if im.mutexes[m].owner != null then SetRet(im, im.current, BUSY)
    else SetRet(SetOwner(im, m, im.current, 1), im.current, SUCCESS)
  }

  lemma TryLockCallTracks(im: Image, s: S.Sys, m: KMutex)
    requires Tracks(im, s) && m in s.mutexes
    ensures m in im.mutexes && im.mutexes[m].owner == s.mutexes[m].owner
    ensures Tracks(TryLockCall(im, m), S.TryLock(s, m))
  {
    assert MutexHeld(im, m, s.mutexes[m]);
    if s.mutexes[m].owner == null {
      OwnerTracks(im, s, m, im.current, 1, SUCCESS);
    } else {
      RetTracks(im, s, BUSY);
    }
  }

  /** syscall_mutex_unlock */
  ghost function UnlockCall(im: Image, m: KMutex): Image
    requires im.current != null && im.current in im.threads
    requires MutexMapped(im, m) && ReadyMapped(im)
  {
    SetRet(Unlock(im, m, im.current), im.current, if im.mutexes[m].owner == im.current then SUCCESS else ERROR)
  }

  lemma UnlockKeepsCurrent(s: S.Sys, m: KMutex)
    requires S.QueuesOk(s) && m in s.mutexes && s.current in s.place && s.idle in s.place
    requires s.place[s.current].Running? || s.place[s.current].OnCond?
    ensures var s' := S.Unlock(s, m);
      && s'.current == s.current && s'.idle == s.idle && s'.idle in s'.place
      && s.current in s'.place && s'.place[s.current] == s.place[s.current]
  {
    assert S.MutexQueueOk(s, m);
    assert s.mutexes[m].queue != [] ==> s.mutexes[m].queue[0] in s.mutexes[m].queue;
  }

  lemma UnlockKeepsStates(im: Image, m: KMutex, t: KThread)
    requires MutexMapped(im, m) && ReadyMapped(im) && im.mutexes[m].head != t && t in im.threads
    ensures var im' := Unlock(im, m, t);
      t in im'.threads && im'.threads[t].state == im.threads[t].state && im'.current == im.current
    ensures im.threads.Keys == Unlock(im, m, t).threads.Keys
  {
  }

  lemma UnlockKeepsStatesOf(im: Image, m: KMutex, t: KThread)
    requires MutexMapped(im, m) && ReadyMapped(im) && t in im.threads
    ensures Unlock(im, m, t).current == im.current && t in Unlock(im, m, t).threads
  {
  }

  lemma UnlockReturns(im: Image, m: KMutex, t: KThread)
    requires MutexMapped(im, m) && ReadyMapped(im)
    ensures SameReturns(im, Unlock(im, m, t))
  {
  }

  lemma UnlockCallTracks(im: Image, s: S.Sys, m: KMutex)
    requires Tracks(im, s) && m in s.mutexes
    ensures MutexMapped(im, m) && ReadyMapped(im)
    ensures im.mutexes[m].owner == s.mutexes[m].owner
    ensures Tracks(UnlockCall(im, m), S.Unlock(s, m))
  {
    HoldsMapped(im, s);
    UnlockHolds(im, s, m);
    S.ReleaseQueues(s, m);
    UnlockKeepsCurrent(s, m);
    assert MutexHeld(im, m, s.mutexes[m]) && S.MutexQueueOk(s, m);
    assert s.mutexes[m].queue != [] ==> im.mutexes[m].head in s.mutexes[m].queue;
    UnlockKeepsStates(im, m, s.current);
    RetHolds(Unlock(im, m, s.current), S.Unlock(s, m), s.current,
             if im.mutexes[m].owner == s.current then SUCCESS else ERROR);
  }

  // ---- cond_wait, cond_signal_all ------------------------------------------------------------------

  ghost predicate Waitable(im: Image, c: KCond, m: KMutex) {
    && im.current != null && im.current in im.threads
    && CondMapped(im, c) && MutexMapped(im, m) && ReadyMapped(im)
  }

  ghost function Waiting(im: Image, c: KCond, m: KMutex): Image
    requires Waitable(im, c, m)
  {
    SetRet(Unlock(Park(im, c, m, im.current), m, im.current), im.current, SUCCESS)
  }

  lemma WaitingMapped(im: Image, c: KCond, m: KMutex)
    requires Waitable(im, c, m)
    ensures var t, im1 := im.current, Park(im, c, m, im.current);
      && MutexMapped(im1, m) && ReadyMapped(im1)
      && Unlock(im1, m, t).current == t && t in Unlock(im1, m, t).threads
      && ReadyMapped(Waiting(im, c, m)) && Waiting(im, c, m).current == t
      && Waiting(im, c, m).threads.Keys == im.threads.Keys
  {
  }

  lemma WaitEnters(im: Image, s: S.Sys, c: KCond, m: KMutex)
    requires Tracks(im, s) && c in s.conds && m in s.mutexes
    ensures Waitable(im, c, m)
    ensures Entering(Waiting(im, c, m), S.Unlock(S.Park(s, c, m, s.current), m))
    ensures Waiting(im, c, m).threads[im.current].state == BLOCKED
  {
    HoldsMapped(im, s);
    TracksMapped(im, s);
    var t := s.current;
    var im1, s1 := Park(im, c, m, t), S.Park(s, c, m, t);
    ParkHolds(im, s, c, m, t);
    S.ParkQueues(s, c, m, t);
    UnlockHolds(im1, s1, m);
    S.ReleaseQueues(s1, m);
    UnlockKeepsCurrent(s1, m);
    assert MutexHeld(im1, m, s1.mutexes[m]) && S.MutexQueueOk(s1, m);
    assert s1.mutexes[m].queue != [] ==> im1.mutexes[m].head in s1.mutexes[m].queue;
    UnlockKeepsStates(im1, m, t);
    RetHolds(Unlock(im1, m, t), S.Unlock(s1, m), t, SUCCESS);
  }

  /** syscall_cond_wait: the thread has blocked, so kthread_dispatch follows. */
  ghost function WaitCall(im: Image, c: KCond, m: KMutex, main: KThread): Image
    requires Waitable(im, c, m) && main in im.threads
  {
    WaitingMapped(im, c, m);
    var im1 := Waiting(im, c, m);
    if im1.threads[im.current].state == BLOCKED then Dispatch(im1, main) else im1
  }

  /** A wait by the running thread is one step, if somebody can run when it has blocked. */
  lemma WaitCallTracks(im: Image, s: S.Sys, c: KCond, m: KMutex)
    requires Tracks(im, s) && c in s.conds && m in s.mutexes
    requires !S.Stuck(S.Unlock(S.Park(s, c, m, s.current), m))
    ensures Waitable(im, c, m) && s.idle in im.threads
    ensures Tracks(WaitCall(im, c, m, s.idle), S.Wait(s, c, m))
  {
    hide Holds, S.QueuesOk, Waiting, Dispatch, S.Stuck;
    WaitEnters(im, s, c, m);
    TracksMapped(im, s);
    var s1 := S.Unlock(S.Park(s, c, m, s.current), m);
    assert s1.idle == s.idle && S.Wait(s, c, m) == S.Dispatch(s1);
    EnteredTracks(Waiting(im, c, m), s1, WaitCall(im, c, m, s.idle));
  }

  /** Entering the kernel blocked, the dispatch that follows completes the step. */
  lemma EnteredTracks(im: Image, s: S.Sys, after: Image)
    requires Entering(im, s) && !S.Stuck(S.Yielded(s)) && (ReadyMapped(im) ==> after == Dispatch(im, s.idle))
    ensures Tracks(after, S.Dispatch(s))
  {
    DispatchTracks(im, s);
  }

  lemma WaitingReturns(im: Image, c: KCond, m: KMutex)
    requires Waitable(im, c, m)
    ensures Returned(im, Waiting(im, c, m), im.current, SUCCESS)
  {
    UnlockReturns(Park(im, c, m, im.current), m, im.current);
  }

  /** syscall_cond_signal_all */
  ghost function SignalAllCall(im: Image, c: KCond, p: seq<KThread>): Image
    requires im.current != null && im.current in im.threads && AllLockable(im, p)
  {
    LockAllNames(im, p);
    SetRet(Broadcast(im, c, p), im.current, SUCCESS)
  }

  /** The locks of a broadcast keep the records, the return values and the current thread. */
  lemma {:induction false} LockAllNames(im: Image, p: seq<KThread>)
    requires AllLockable(im, p)
    ensures SameReturns(im, LockAll(im, p)) && LockAll(im, p).current == im.current
    ensures LockAll(im, p).threads.Keys == im.threads.Keys && LockAll(im, p).mutexes.Keys == im.mutexes.Keys
    decreases |p|
  {
    if p != [] {
      hide Lockable, LockOwn;
      assert p[0] in p;
      AllStayLockable(im, p);
      LockReturns(im, p[0]);
      LockKeepsLockable(im, p[0], p[0]);
      LockAllNames(LockOwn(im, p[0]), p[1..]);
    }
  }

  lemma LockReturns(im: Image, t: KThread)
    requires Lockable(im, t)
    ensures SameReturns(im, LockOwn(im, t)) && LockOwn(im, t).current == im.current
  {
  }

  /** A broadcast to waiters of one mutex is one step. */
  lemma SignalAllCallTracks(im: Image, s: S.Sys, c: KCond)
    requires Tracks(im, s) && S.Waiters(s, c) && S.OneMutex(s, c)
    ensures AllLockable(im, s.conds[c]) && im.current in im.threads
    ensures Tracks(SignalAllCall(im, c, s.conds[c]), S.SignalAll(s, c))
  {
    hide Holds, S.QueuesOk, S.SignalAll, Broadcast, S.OneMutex;
    TracksMapped(im, s);
    CommonBroadcast(im, s, c);
    LockAllNames(im, s.conds[c]);
    BroadcastNames(im, c, s.conds[c]);
    S.SignalAllQueues(s, c);
    SignalAllRuns(s, c);
    RetHolds(Broadcast(im, c, s.conds[c]), S.SignalAll(s, c), im.current, SUCCESS);
  }

  lemma BroadcastNames(im: Image, c: KCond, p: seq<KThread>)
    requires AllLockable(im, p)
    ensures var im' := Broadcast(im, c, p);
      im'.threads == LockAll(im, p).threads && im'.current == LockAll(im, p).current
  {
  }

  lemma SignalAllRuns(s: S.Sys, c: KCond)
    requires S.QueuesOk(s) && S.Waiters(s, c) && S.OneMutex(s, c) && S.CurrentOk(s)
    ensures S.CurrentOk(S.SignalAll(s, c)) && S.SignalAll(s, c).current == s.current
    ensures S.SignalAll(s, c).idle == s.idle
  {
    hide S.SignalAll;
    assert S.CondQueueOk(s, c);
    if s.conds[c] == [] {
      S.NobodyWaits(s, c);
    } else {
      S.CommonWaits(s, c);
      S.SignalAllCommon(s, c, S.FirstWanted(s, c));
    }
  }

  // ---- thread_exit, thread_create, and new records ------------------------------------------------------

  /** kthread_stop */
  ghost function StopCall(im: Image, main: KThread): Image
    requires ReadyMapped(im) && main in im.threads
  {
    Dispatch(im.(current := null), main)
  }

  /** The current thread stops: its words stay as they are. */
  lemma StoppedHolds(im: Image, s: S.Sys)
    requires Tracks(im, s)
    ensures Holds(im.(current := null), S.Stopped(s))
  {
    var im1, s1 := im.(current := null), S.Stopped(s);
    forall m | m in s1.mutexes ensures MutexHeld(im1, m, s1.mutexes[m]) {
      assert MutexHeld(im, m, s.mutexes[m]);
    }
    forall c | c in s1.conds ensures CondHeld(im1, c, s1.conds[c]) {
      assert CondHeld(im, c, s.conds[c]);
    }
    forall t | t in s1.place ensures Tagged(im1.threads, t, s1.place[t]) {
      assert Tagged(im.threads, t, s.place[t]);
    }
  }

  lemma StoppedEnters(im: Image, s: S.Sys)
    requires Tracks(im, s)
    ensures ReadyMapped(im) && s.idle in im.threads
    ensures Entering(im.(current := null), S.Stopped(s))
  {
    StoppedHolds(im, s);
    S.LeaveQueues(s);
    HoldsMapped(im, s);
    TracksMapped(im, s);
  }

  /** An exit is one step, if somebody can run then. */
  lemma ExitTracks(im: Image, s: S.Sys)
    requires Tracks(im, s) && !S.Stuck(S.Stopped(s))
    ensures ReadyMapped(im) && s.idle in im.threads
    ensures Tracks(StopCall(im, s.idle), S.Exit(s))
  {
    StoppedEnters(im, s);
    DispatchTracks(im.(current := null), S.Stopped(s));
  }

  /** What kthread_create leaves in the words of a new thread. */
  const NEW_THREAD := ThreadWords(READY, null, null, SUCCESS)

  function Maybe(m: KMutex?): set<KMutex> {
    if m == null then {} else {m}
  }

  function MaybeCond(c: KCond?): set<KCond> {
    if c == null then {} else {c}
  }

  ghost function CreateCall(im: Image, t: KThread): Image
    requires ReadyMapped(im) && im.current != null && im.current in im.threads
  {
    SetRet(Enqueue(im.(threads := im.threads[t := NEW_THREAD]), t), im.current, SUCCESS)
  }

  function NewMutexCall(im: Image, m: KMutex): Image
    requires im.current != null && im.current in im.threads
  {
    SetRet(im.(mutexes := im.mutexes[m := MutexWords(null, 0, null, null)]), im.current, SUCCESS)
  }

  function NewCondCall(im: Image, c: KCond): Image
    requires im.current != null && im.current in im.threads
  {
    SetRet(im.(conds := im.conds[c := CondWords(null, null)]), im.current, SUCCESS)
  }

  /** A record that no queue knows changes nothing for the queues. */
  lemma NewRecordHolds(im: Image, s: S.Sys, t: KThread)
    requires Holds(im, s) && t !in im.threads
    ensures Holds(im.(threads := im.threads[t := NEW_THREAD]), s)
  {
    var im1 := im.(threads := im.threads[t := NEW_THREAD]);
    forall u | u in s.place ensures Tagged(im1.threads, u, s.place[u]) {
      assert Tagged(im.threads, u, s.place[u]);
    }
    ChainFrame(im.threads, im1.threads, s.ready, im.head, im.tail);
    forall m | m in s.mutexes ensures MutexHeld(im1, m, s.mutexes[m]) {
      assert MutexHeld(im, m, s.mutexes[m]);
      MutexFrame(im, im1, s, m);
    }
    forall c | c in s.conds ensures CondHeld(im1, c, s.conds[c]) {
      assert CondHeld(im, c, s.conds[c]);
      CondFrame(im, im1, s, c);
    }
  }

  /** A thread new to the image is put into the ready queue. */
  lemma CreateTracks(im: Image, s: S.Sys, t: KThread)
    requires Tracks(im, s) && t !in im.threads
    ensures t !in s.place && ReadyMapped(im)
    ensures Tracks(CreateCall(im, t), S.Enqueue(s, t, null))
  {
    var im1 := im.(threads := im.threads[t := NEW_THREAD]);
    NewRecordHolds(im, s, t);
    HoldsMapped(im, s);
    HoldsMapped(im1, s);
    EnqueueHolds(im1, s, t, null);
    S.EnqueueQueues(s, t, null);
    TailIsMapped(im.threads, s.ready, im.head, im.tail);
    assert im.head != null ==> s.place[im.tail].Ready?;
    RetHolds(Enqueue(im1, t), S.Enqueue(s, t, null), im.current, SUCCESS);
  }

  lemma NewMutexTracks(im: Image, s: S.Sys, m: KMutex)
    requires Tracks(im, s) && m !in s.mutexes
    ensures Tracks(NewMutexCall(im, m), S.SetMutex(s, m, S.MutexState(null, 0, [])))
  {
    var im1 := im.(mutexes := im.mutexes[m := MutexWords(null, 0, null, null)]);
    var s1 := S.SetMutex(s, m, S.MutexState(null, 0, []));
    S.SetMutexQueues(s, m, S.MutexState(null, 0, []));
    forall m' | m' in s1.mutexes ensures MutexHeld(im1, m', s1.mutexes[m']) {
      assert m' in s.mutexes ==> MutexHeld(im, m', s.mutexes[m']);
    }
    forall c | c in s1.conds ensures CondHeld(im1, c, s1.conds[c]) {
      assert CondHeld(im, c, s.conds[c]);
    }
    RetHolds(im1, s1, im.current, SUCCESS);
  }

  lemma NewCondTracks(im: Image, s: S.Sys, c: KCond)
    requires Tracks(im, s) && c !in s.conds
    ensures Tracks(NewCondCall(im, c), s.(conds := s.conds[c := []]))
  {
    var im1, s1 := im.(conds := im.conds[c := CondWords(null, null)]), s.(conds := s.conds[c := []]);
    S.NewCondQueues(s, c);
    forall m | m in s1.mutexes ensures MutexHeld(im1, m, s1.mutexes[m]) {
      assert MutexHeld(im, m, s.mutexes[m]);
    }
    forall c' | c' in s1.conds ensures CondHeld(im1, c', s1.conds[c']) {
      assert c' in s.conds ==> CondHeld(im, c', s.conds[c']);
    }
    RetHolds(im1, s1, im.current, SUCCESS);
  }

  // ---- One call, one step -----------------------------------------------------------------------------------

  /** The running thread makes the call on this image: a new thread is new. */
  ghost predicate Callable(im: Image, s: S.Sys, op: S.Op) {
    Tracks(im, s) && S.WellTyped(s, op) && (op.Create? ==> op.t !in im.threads)
  }

  /** The call leaves chains and somebody to run them: a dispatch finds a thread, and a broadcast is to
      waiters of one mutex. */
  ghost predicate Settles(s: S.Sys, op: S.Op)
    requires S.WellTyped(s, op)
  {
    S.FindsNext(s, op) && (op.DoSignalAll? ==> S.OneMutex(s, op.c))
  }

  /** The image after the call of `op` on non-null arguments. */
  ghost function CallImage(im: Image, s: S.Sys, op: S.Op): Image
    requires Callable(im, s, op)
  {
    HoldsMapped(im, s);
    TracksMapped(im, s);
    match op
    case Create(t) => CreateCall(im, t)
    case NewMutex(m) => NewMutexCall(im, m)
    case NewCond(c) => NewCondCall(im, c)
    case DoTryLock(m) => TryLockCall(im, m)
    case DoLock(m) => LockCall(im, m, s.idle)
    case DoUnlock(m) =>
      UnlockKeepsStatesOf(im, m, im.current);
      UnlockCall(im, m)
    case DoWait(c, m) => WaitCall(im, c, m, s.idle)
    case DoSignalAll(c) =>
      HoldsWaitlist(im, s, c);
      SignalAllCall(im, c, s.conds[c])
    case Yield => Dispatch(im, s.idle)
    case DoExit => StopCall(im, s.idle)
  }

  lemma YieldTracks(im: Image, s: S.Sys)
    requires Tracks(im, s)
    ensures ReadyMapped(im) && s.idle in im.threads && im.current in im.threads
    ensures Tracks(Dispatch(im, s.idle), S.Dispatch(s))
  {
    DispatchTracks(im, s);
  }

  /** Refinement: every call of the running thread that settles is one step of the system, whether or not
      the guard of that step holds. */
  lemma CallTracksStep(im: Image, s: S.Sys, op: S.Op)
    requires Callable(im, s, op) && Settles(s, op)
    ensures Tracks(CallImage(im, s, op), S.Step(s, op))
  {
    hide Tracks, Waitable, LockCall, UnlockCall, WaitCall, SignalAllCall, Dispatch, CreateCall, StopCall, S.Stuck,
         S.Waiters, S.OneMutex;
    match op {
      case Create(t) => CreateTracks(im, s, t);
      case NewMutex(m) => NewMutexTracks(im, s, m);
      case NewCond(c) => NewCondTracks(im, s, c);
      case DoTryLock(m) => TryLockCallTracks(im, s, m);
      case DoLock(m) => LockCallTracks(im, s, m);
      case DoUnlock(m) => UnlockCallTracks(im, s, m);
      case DoWait(c, m) => WaitCallTracks(im, s, c, m);
      case DoSignalAll(c) => SignalAllCallTracks(im, s, c);
      case Yield => YieldTracks(im, s);
      case DoExit => ExitTracks(im, s);
    }
  }

  /** The running threads make the guarded calls `ops` one after the other. */
  ghost predicate Calls(im: Image, s: S.Sys, ops: seq<S.Op>, im': Image, s': S.Sys)
    decreases |ops|
  {
    if ops == [] then im' == im && s' == s
    else
      && Callable(im, s, ops[0]) && S.Guard(s, ops[0])
      && Calls(CallImage(im, s, ops[0]), S.Step(s, ops[0]), ops[1..], im', s')
  }

  /** A guarded call settles. */
  lemma GuardedSettles(s: S.Sys, op: S.Op)
    requires S.Inv(s) && S.WellTyped(s, op) && S.Guard(s, op)
    ensures Settles(s, op)
  {
    S.GuardedFindsNext(s, op);
  }

  /** After any number of calls the records hold the queues of a system that satisfies its invariant:
      the chains are disjoint, well formed and end at the recorded tails. */
  lemma {:induction false} CallsKeepQueues(im: Image, s: S.Sys, ops: seq<S.Op>, im': Image, s': S.Sys)
    requires Tracks(im, s) && S.Inv(s) && Calls(im, s, ops, im', s')
    ensures Tracks(im', s') && S.Inv(s')
    decreases |ops|
  {
    hide Tracks, S.Inv, S.Guard, S.WellTyped, CallImage, S.Step;
    if ops != [] {
      GuardedSettles(s, ops[0]);
      CallTracksStep(im, s, ops[0]);
      S.StepKeepsIffGuard(s, ops[0]);
      CallsKeepQueues(CallImage(im, s, ops[0]), S.Step(s, ops[0]), ops[1..], im', s');
    }
  }

  /** An image that tracks a system meets what the kernel's system calls require of the records. */
  lemma CallsAllowed(im: Image, s: S.Sys)
    requires Tracks(im, s)
    ensures im.current in im.threads && s.idle in im.threads && ReadyMapped(im)
    ensures forall m :: m in s.mutexes ==> MutexMapped(im, m)
    ensures forall c, m :: c in s.conds && m in s.mutexes ==> Waitable(im, c, m)
    ensures forall c :: S.Waiters(s, c) ==>
              Waitlist(im, s.conds[c]) && c in im.conds && im.conds[c].head == First(s.conds[c])
  {
    HoldsMapped(im, s);
    TracksMapped(im, s);
    forall c | S.Waiters(s, c)
      ensures Waitlist(im, s.conds[c]) && c in im.conds && im.conds[c].head == First(s.conds[c])
    {
      HoldsWaitlist(im, s, c);
    }
  }

  /** What the call returns to its caller. */
  ghost function CallStatus(s: S.Sys, op: S.Op): Status
    requires S.WellTyped(s, op)
  {
    match op
    case DoTryLock(m) => if s.mutexes[m].owner == null then SUCCESS else BUSY
    case DoUnlock(m) => if s.mutexes[m].owner == s.current then SUCCESS else ERROR
    case _ => SUCCESS
  }

  /** The status tells the caller what happened: it took the free mutex, or gave up one that it owned. */
  lemma StatusTells(s: S.Sys, op: S.Op)
    requires S.Inv(s) && S.WellTyped(s, op)
    ensures op.DoTryLock? ==>
              (CallStatus(s, op) == SUCCESS <==>
                 s.mutexes[op.m].owner != s.current && S.Step(s, op).mutexes[op.m].owner == s.current)
              && CallStatus(s, op) in {SUCCESS, BUSY}
    ensures op.DoUnlock? ==>
              (CallStatus(s, op) == SUCCESS <==> S.Step(s, op) != s) && CallStatus(s, op) in {SUCCESS, ERROR}
  {
    hide S.QueuesOk, S.ClaimOk;
    if op.DoUnlock? {
      UnlockTells(s, op.m);
    }
  }

  lemma UnlockTells(s: S.Sys, m: KMutex)
    requires S.Inv(s) && m in s.mutexes
    ensures s.mutexes[m].owner == s.current <==> S.Unlock(s, m) != s
  {
    hide S.QueuesOk, S.ClaimOk;
    if s.mutexes[m].owner == s.current {
      assert S.MutexOk(s, m);
      ReleaseShows(s, m);
    }
  }

  lemma ReleaseShows(s: S.Sys, m: KMutex)
    requires m in s.mutexes && S.MutexOk(s, m) && s.mutexes[m].owner != null
    ensures S.Release(s, m).mutexes[m] != s.mutexes[m]
  {
    var q := s.mutexes[m].queue;
    assert q != [] ==> |q[1..]| < |q|;
  }

  lemma DispatchAfter(im: Image, im1: Image, t: KThread, v: Status, main: KThread)
    requires Returned(im, im1, t, v) && ReadyMapped(im1) && main in im1.threads
    requires im1.current == null || im1.current in im1.threads
    ensures Returned(im, Dispatch(im1, main), t, v)
  {
    hide Dispatch, ReadyMapped;
    DispatchReturns(im1, main);
  }

  lemma LockCallReturns(im: Image, m: KMutex, main: KThread)
    requires im.current != null && im.current in im.threads && main in im.threads
    requires MutexMapped(im, m) && ReadyMapped(im)
    ensures Returned(im, LockCall(im, m, main), im.current, SUCCESS)
  {
    hide Locking, Returned, Dispatch;
    LockingMapped(im, m);
    LockingReturns(im, m);
    if Locking(im, m).threads[im.current].state == BLOCKED {
      DispatchAfter(im, Locking(im, m), im.current, SUCCESS, main);
    }
  }

  lemma WaitCallReturns(im: Image, c: KCond, m: KMutex, main: KThread)
    requires Waitable(im, c, m) && main in im.threads
    ensures Returned(im, WaitCall(im, c, m, main), im.current, SUCCESS)
  {
    hide Waiting, Returned, Dispatch;
    WaitingMapped(im, c, m);
    WaitingReturns(im, c, m);
    if Waiting(im, c, m).threads[im.current].state == BLOCKED {
      DispatchAfter(im, Waiting(im, c, m), im.current, SUCCESS, main);
    }
  }

  lemma UnlockCallReturns(im: Image, m: KMutex)
    requires im.current != null && im.current in im.threads && MutexMapped(im, m) && ReadyMapped(im)
    ensures Returned(im, UnlockCall(im, m), im.current, if im.mutexes[m].owner == im.current then SUCCESS else ERROR)
  {
    hide Unlock;
    UnlockReturns(im, m, im.current);
  }

  lemma SignalAllCallReturns(im: Image, c: KCond, p: seq<KThread>)
    requires im.current != null && im.current in im.threads && AllLockable(im, p)
    ensures Returned(im, SignalAllCall(im, c, p), im.current, SUCCESS)
  {
    hide LockAll, AllLockable;
    LockAllNames(im, p);
  }

  lemma CreateCallReturns(im: Image, t: KThread)
    requires ReadyMapped(im) && im.current != null && im.current in im.threads && t !in im.threads
    ensures Returned(im, CreateCall(im, t), im.current, SUCCESS)
  {
  }

  /** Every call returns its status to the thread that makes it, even when that thread blocks first, and
      leaves the return values of all other threads alone. */
  lemma CallReturns(im: Image, s: S.Sys, op: S.Op)
    requires Callable(im, s, op)
    ensures if op.Yield? || op.DoExit? then SameReturns(im, CallImage(im, s, op))
            else Returned(im, CallImage(im, s, op), s.current, CallStatus(s, op))
  {
    hide Holds, S.QueuesOk, LockCall, UnlockCall, WaitCall, SignalAllCall, Dispatch, CreateCall, S.Stuck;
    CallsAllowed(im, s);
    match op {
      case Create(t) => CreateCallReturns(im, t);
      case NewMutex(m) =>
      case NewCond(c) =>
      case DoTryLock(m) => TryLockCallTracks(im, s, m);
      case DoLock(m) => LockCallReturns(im, m, s.idle);
      case DoUnlock(m) =>
        UnlockCallTracks(im, s, m);
        UnlockCallReturns(im, m);
      case DoWait(c, m) => WaitCallReturns(im, c, m, s.idle);
      case DoSignalAll(c) => SignalAllCallReturns(im, c, s.conds[c]);
      case Yield => DispatchReturns(im, s.idle);
      case DoExit => DispatchReturns(im.(current := null), s.idle);
    }
  }
}
