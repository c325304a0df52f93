/** What holds over whole runs of the synchronisation system. */
module SyncRuns {
  import opened KernelObjects
  import opened SyncModel

  // ---- Runs ------------------------------------------------------------------------------

  ghost predicate Legal(s: Sys, ops: seq<Op>)
    decreases |ops|
  {
    ops == [] || (WellTyped(s, ops[0]) && Guard(s, ops[0]) && Legal(Step(s, ops[0]), ops[1..]))
  }

  ghost function After(s: Sys, ops: seq<Op>): Sys
    requires Legal(s, ops)
    decreases |ops|
  {
    if ops == [] then s else After(Step(s, ops[0]), ops[1..])
  }

  /** The state the kernel boots in: only the idle thread exists, and it runs. */
  ghost function Boot(idle: KThread): Sys {
    Sys(idle, idle, [], map[], map[], map[idle := Running])
  }

  lemma {:induction false} RunKeepsInv(s: Sys, ops: seq<Op>)
    requires Inv(s) && Legal(s, ops)
    ensures Inv(After(s, ops))
    decreases |ops|
  {
    if ops != [] {
      StepKeepsIffGuard(s, ops[0]);
      RunKeepsInv(Step(s, ops[0]), ops[1..]);
    }
  }

  /** Every legal run from boot satisfies the invariant. */
  lemma BootRunsAreSound(idle: KThread, ops: seq<Op>)
    requires Legal(Boot(idle), ops)
    ensures Inv(After(Boot(idle), ops))
  {
    RunKeepsInv(Boot(idle), ops);
  }

  // ---- One place ---------------------------------------------------------------------------

  /** A live thread is the running one, or in the ready queue, or in the queue of exactly one
      mutex, or in the queue of exactly one condition; never in two of these. Only kthread_main can be
      in none, and then it is in reserve. */
  lemma ExactlyOnePlace(s: Sys, t: KThread)
    requires Inv(s) && t in s.place
    ensures var running, ready := t == s.current, t in s.ready;
      var onMutex := exists m :: m in s.mutexes && t in s.mutexes[m].queue;
      var onCond := exists c :: c in s.conds && t in s.conds[c];
      && (running || ready || onMutex || onCond || (t == s.idle && s.place[t].Reserve?))
      && (s.place[t].Reserve? ==> !running && !ready && !onMutex && !onCond)
      && !(running && (ready || onMutex || onCond))
      && !(ready && (onMutex || onCond)) && !(onMutex && onCond)
    ensures forall m, m' :: m in s.mutexes && m' in s.mutexes && t in s.mutexes[m].queue && t in s.mutexes[m'].queue
              ==> m == m'
    ensures forall c, c' :: c in s.conds && c' in s.conds && t in s.conds[c] && t in s.conds[c'] ==> c == c'
  {
    assert Listed(s, t) && ClaimOk(s, t);
    forall m | m in s.mutexes && t in s.mutexes[m].queue ensures s.place[t] == OnMutex(m) {
      assert MutexQueueOk(s, m);
    }
    forall c | c in s.conds && t in s.conds[c] ensures s.place[t].OnCond? && s.place[t].cond == c {
      assert CondQueueOk(s, c);
    }
  }

  // ---- Arrival order -------------------------------------------------------------------------

  function QueueOf(s: Sys, m: KMutex): seq<KThread> {
    if m in s.mutexes then s.mutexes[m].queue else []
  }

  /** The threads that start to compete for `m` in one step, in order. */
  ghost function Arrived(s: Sys, op: Op, m: KMutex): seq<KThread>
    requires WellTyped(s, op)
  {
    match op
    case DoTryLock(m') => if m' == m && s.mutexes[m].owner == null then [s.current] else []
    case DoLock(m') => if m' == m && s.mutexes[m].owner != s.current then [s.current] else []
    case DoSignalAll(c) => if s.conds[c] != [] && FirstWanted(s, c) == m then s.conds[c] else []
    case _ => []
  }

  /** The thread that becomes the owner of `m` between two states, if any. */
  function Acquired(s: Sys, s': Sys, m: KMutex): seq<KThread> {
    if m in s.mutexes && m in s'.mutexes && s'.mutexes[m].owner != null && s'.mutexes[m].owner != s.mutexes[m].owner
    then [s'.mutexes[m].owner] else []
  }

  ghost function Arrivals(s: Sys, ops: seq<Op>, m: KMutex): seq<KThread>
    requires Legal(s, ops)
    decreases |ops|
  {
    if ops == [] then [] else Arrived(s, ops[0], m) + Arrivals(Step(s, ops[0]), ops[1..], m)
  }

  ghost function Acquisitions(s: Sys, ops: seq<Op>, m: KMutex): seq<KThread>
    requires Legal(s, ops)
    decreases |ops|
  {
    if ops == [] then []
    else Acquired(s, Step(s, ops[0]), m) + Acquisitions(Step(s, ops[0]), ops[1..], m)
  }

  lemma DispatchKeepsMutexes(s: Sys)
    ensures Dispatch(s).mutexes == s.mutexes && Dispatch(s).conds == s.conds
  {
  }

  /** Giving up `m` hands it to the first waiter and leaves the other mutexes alone. */
  lemma ReleaseOrder(s: Sys, m: KMutex, m': KMutex)
    requires m in s.mutexes && s.mutexes[m].owner == s.current != null
    requires s.current !in s.mutexes[m].queue
    ensures Acquired(s, Release(s, m), m') + QueueOf(Release(s, m), m') == QueueOf(s, m')
  {
    var q := s.mutexes[m].queue;
    if q != [] {
      assert q[0] in q && [q[0]] + q[1..] == q;
    }
  }

  lemma WaitOrder(s: Sys, c: KCond, m': KMutex, m: KMutex)
    requires QueuesOk(s) && c in s.conds && m' in s.mutexes && s.current != null
    requires s.mutexes[m'].owner == s.current ==> s.current !in s.mutexes[m'].queue
    ensures Acquired(s, Wait(s, c, m'), m) + QueueOf(Wait(s, c, m'), m) == QueueOf(s, m)
  {
    hide Dispatch, QueuesOk;
    var parked := Park(s, c, m', s.current);
    if s.mutexes[m'].owner == s.current {
      ReleaseOrder(parked, m', m);
    }
    DispatchKeepsMutexes(Unlock(parked, m'));
  }

  lemma SignalAllOrder(s: Sys, c: KCond, m: KMutex)
    requires Inv(s) && WellTyped(s, DoSignalAll(c)) && Guard(s, DoSignalAll(c))
    ensures Acquired(s, SignalAll(s, c), m) + QueueOf(SignalAll(s, c), m)
            == QueueOf(s, m) + Arrived(s, DoSignalAll(c), m)
  {
    hide SignalAll, ClaimOk;
    if s.conds[c] == [] {
      NobodyWaits(s, c);
    } else {
      CommonWaits(s, c);
      SignalAllCommon(s, c, FirstWanted(s, c));
    }
  }

  /** One step takes owners from the front of the queue and puts arrivals at its back. */
  lemma StepOrder(s: Sys, op: Op, m: KMutex)
    requires Inv(s) && WellTyped(s, op) && Guard(s, op)
    ensures Acquired(s, Step(s, op), m) + QueueOf(Step(s, op), m) == QueueOf(s, m) + Arrived(s, op, m)
  {
    hide Dispatch, Listed, ClaimOk, Release, Wait;
    forall m' | m' in s.mutexes
      ensures MutexOk(s, m')
      ensures s.mutexes[m'].owner == s.current ==> s.current !in s.mutexes[m'].queue
    {
      assert MutexOk(s, m') && MutexQueueOk(s, m');
    }
    match op {
      case DoUnlock(m') =>
        if s.mutexes[m'].owner == s.current {
          ReleaseOrder(s, m', m);
        }
      case DoWait(c, m') => WaitOrder(s, c, m', m);
      case DoLock(m') => DispatchKeepsMutexes(Join(s, m', s.current));
      case Yield => DispatchKeepsMutexes(s);
      case DoExit => DispatchKeepsMutexes(Stopped(s));
      case DoSignalAll(c) => SignalAllOrder(s, c, m);
      case _ =>
    }
  }

  /** No barging: over any run, the owners of a mutex so far, followed by its queue, are the
      initial queue followed by the arrivals. A mutex is acquired in arrival order. */
  lemma {:induction false} AcquiredInArrivalOrder(s: Sys, ops: seq<Op>, m: KMutex)
    requires Inv(s) && Legal(s, ops)
    ensures Acquisitions(s, ops, m) + QueueOf(After(s, ops), m) == QueueOf(s, m) + Arrivals(s, ops, m)
    decreases |ops|
  {
    if ops != [] {
      var s' := Step(s, ops[0]);
      StepKeepsIffGuard(s, ops[0]);
      StepOrder(s, ops[0], m);
      AcquiredInArrivalOrder(s', ops[1..], m);
      Regroup(Acquired(s, s', m), Acquisitions(s', ops[1..], m), QueueOf(s, m), QueueOf(s', m),
              QueueOf(After(s, ops), m), Arrived(s, ops[0], m), Arrivals(s', ops[1..], m));
    }
  }

  lemma Regroup<T>(a: seq<T>, a': seq<T>, q: seq<T>, q': seq<T>, q'': seq<T>, r: seq<T>, r': seq<T>)
    requires a + q' == q + r && a' + q'' == q' + r'
    ensures (a + a') + q'' == q + (r + r')
  {
    calc {
      (a + a') + q'';
      a + (a' + q'');
      a + (q' + r');
      (a + q') + r';
      (q + r) + r';
      q + (r + r');
    }
  }

  // ---- Resuming with the mutex -----------------------------------------------------------------

  /** `t` is inside mutex_lock or cond_wait on `m` and has not run again. */
  ghost predicate Inside(s: Sys, t: KThread, m: KMutex) {
    t in s.place && m in s.mutexes &&
    match s.place[t]
    case OnMutex(m') => m' == m
    case OnCond(_, m') => m' == m
    case Ready(m') => m' == m
    case _ => false
  }

  /** `t` runs for the first time in the last state of the run. */
  ghost predicate FirstRun(s: Sys, ops: seq<Op>, t: KThread)
    requires Legal(s, ops)
    decreases |ops|
  {
    ops != [] &&
    var s' := Step(s, ops[0]);
    if s'.current == t then |ops| == 1 else FirstRun(s', ops[1..], t)
  }

  /** Dispatching either leaves `t` where it is or runs it with the mutex it was handed. */
  lemma DispatchInside(s: Sys, t: KThread, m: KMutex)
    requires Switching(s) && Inside(s, t, m) && !Stuck(Yielded(s))
    ensures var s' := Dispatch(s);
      Inside(s', t, m) || (s'.current == t && m in s'.mutexes && s'.mutexes[m].owner == t)
  {
    assert ClaimOk(s, t);
  }

  lemma ReleaseInside(s: Sys, m': KMutex, t: KThread, m: KMutex)
    requires QueuesOk(s) && m' in s.mutexes && Inside(s, t, m)
    ensures Inside(Release(s, m'), t, m)
  {
    assert MutexQueueOk(s, m');
  }

  lemma StepInside(s: Sys, op: Op, t: KThread, m: KMutex)
    requires Inv(s) && WellTyped(s, op) && Guard(s, op) && Inside(s, t, m)
    ensures var s' := Step(s, op);
      Inside(s', t, m) || (s'.current == t && m in s'.mutexes && s'.mutexes[m].owner == t)
  {
    hide Dispatch, QueuesOk;
    match op {
      case Yield => YieldInside(s, t, m);
      case DoExit => ExitInside(s, t, m);
      case DoLock(m') => LockInside(s, m', t, m);
      case DoUnlock(m') => ReleaseInside(s, m', t, m);
      case DoWait(c, m') => WaitInside(s, c, m', t, m);
      case DoSignalAll(c) => SignalAllInside(s, c, t, m);
      case _ =>
    }
  }

  lemma LockInside(s: Sys, m': KMutex, t: KThread, m: KMutex)
    requires Inv(s) && WellTyped(s, DoLock(m')) && Guard(s, DoLock(m')) && Inside(s, t, m)
    ensures var s' := Lock(s, m');
      Inside(s', t, m) || (s'.current == t && m in s'.mutexes && s'.mutexes[m].owner == t)
  {
    hide Dispatch, QueuesOk;
    if Blocks(s, m') {
      LockSwitches(s, m');
      DispatchInside(Join(s, m', s.current), t, m);
    }
  }

  lemma SignalAllInside(s: Sys, c: KCond, t: KThread, m: KMutex)
    requires Inv(s) && WellTyped(s, DoSignalAll(c)) && Guard(s, DoSignalAll(c)) && Inside(s, t, m)
    ensures Inside(SignalAll(s, c), t, m)
  {
    hide SignalAll;
    assert CondQueueOk(s, c);
    if s.conds[c] == [] {
      NobodyWaits(s, c);
    } else {
      CommonWaits(s, c);
      SignalAllCommon(s, c, FirstWanted(s, c));
    }
  }

  lemma YieldInside(s: Sys, t: KThread, m: KMutex)
    requires Inv(s) && Inside(s, t, m)
    ensures var s' := Dispatch(s);
      Inside(s', t, m) || (s'.current == t && m in s'.mutexes && s'.mutexes[m].owner == t)
  {
    DispatchInside(s, t, m);
  }

  lemma ExitInside(s: Sys, t: KThread, m: KMutex)
    requires Inv(s) && Guard(s, DoExit) && Inside(s, t, m)
    ensures var s' := Exit(s);
      Inside(s', t, m) || (s'.current == t && m in s'.mutexes && s'.mutexes[m].owner == t)
  {
    StoppedSwitches(s);
    DispatchInside(Stopped(s), t, m);
  }

  lemma WaitInside(s: Sys, c: KCond, m': KMutex, t: KThread, m: KMutex)
    requires Inv(s) && WellTyped(s, DoWait(c, m')) && Guard(s, DoWait(c, m')) && Inside(s, t, m)
    ensures var s' := Wait(s, c, m');
      Inside(s', t, m) || (s'.current == t && m in s'.mutexes && s'.mutexes[m].owner == t)
  {
    var parked := Park(s, c, m', s.current);
    ParkQueues(s, c, m', s.current);
    assert Inside(parked, t, m);
    ReleaseInside(parked, m', t, m);
    WaitSwitches(s, c, m');
    DispatchInside(Unlock(parked, m'), t, m);
  }

  lemma StepResumes(s: Sys, op: Op, t: KThread, m: KMutex)
    requires Inv(s) && WellTyped(s, op) && Guard(s, op) && Inside(s, t, m)
    ensures var s' := Step(s, op);
      && Inv(s')
      && (if s'.current == t then m in s'.mutexes && s'.mutexes[m].owner == t else Inside(s', t, m))
  {
    StepKeepsIffGuard(s, op);
    StepInside(s, op, t, m);
    assert Inside(Step(s, op), t, m) ==> ClaimOk(Step(s, op), t);
  }

  /** A thread that resumes from mutex_lock or cond_wait owns that mutex. */
  lemma {:induction false} ResumesAsOwner(s: Sys, ops: seq<Op>, t: KThread, m: KMutex)
    requires Inv(s) && Legal(s, ops) && Inside(s, t, m) && FirstRun(s, ops, t)
    ensures m in After(s, ops).mutexes && After(s, ops).current == t && After(s, ops).mutexes[m].owner == t
    decreases |ops|
  {
    StepResumes(s, ops[0], t, m);
    if |ops| == 1 {
      assert After(s, ops) == After(Step(s, ops[0]), []);
    } else {
      ResumesAsOwner(Step(s, ops[0]), ops[1..], t, m);
    }
  }

  /** A guarded mutex_lock that blocks puts its caller inside; */
  lemma LockGoesInside(s: Sys, m: KMutex)
    requires Inv(s) && WellTyped(s, DoLock(m)) && Guard(s, DoLock(m)) && Blocks(s, m)
    ensures Inside(Lock(s, m), s.current, m)
  {
    hide Dispatch, QueuesOk;
    RunnerNotReady(s);
    LockSwitches(s, m);
    DispatchKeepsWaiter(Join(s, m, s.current), s.current);
  }

  lemma ReleaseReadies(s: Sys, m: KMutex, t: KThread)
    requires m in s.mutexes && t !in s.ready && t !in s.mutexes[m].queue
    ensures t !in Release(s, m).ready
  {
  }

  /** and so does a guarded cond_wait. */
  lemma WaitGoesInside(s: Sys, c: KCond, m: KMutex)
    requires Inv(s) && WellTyped(s, DoWait(c, m)) && Guard(s, DoWait(c, m))
    ensures Inside(Wait(s, c, m), s.current, m)
  {
    hide Dispatch, QueuesOk;
    var parked := Park(s, c, m, s.current);
    RunnerNotReady(s);
    RunnerNotQueued(s, m);
    WaitSwitches(s, c, m);
    ReleaseReadies(parked, m, s.current);
    DispatchKeepsWaiter(Unlock(parked, m), s.current);
  }

  lemma RunnerNotQueued(s: Sys, m: KMutex)
    requires QueuesOk(s) && CurrentOk(s) && m in s.mutexes
    ensures s.current !in s.mutexes[m].queue
  {
    assert MutexQueueOk(s, m);
  }

  /** The thread that makes a mutex_lock that blocks, or a cond_wait, owns that mutex when it runs again. */
  lemma CallerResumesAsOwner(s: Sys, op: Op, ops: seq<Op>, m: KMutex)
    requires Inv(s) && WellTyped(s, op) && Guard(s, op)
    requires (op == DoLock(m) && Blocks(s, m)) || (op.DoWait? && op.m == m)
    requires Legal(Step(s, op), ops) && FirstRun(Step(s, op), ops, s.current)
    ensures var s' := After(Step(s, op), ops);
      s'.current == s.current && m in s'.mutexes && s'.mutexes[m].owner == s.current
  {
    hide Dispatch, QueuesOk, Inv;
    StepKeepsIffGuard(s, op);
    if op.DoLock? {
      LockGoesInside(s, m);
    } else {
      WaitGoesInside(s, op.c, m);
    }
    ResumesAsOwner(Step(s, op), ops, s.current, m);
  }

  // ---- Waiting for the processor ---------------------------------------------------------------

  ghost predicate Dispatches(s: Sys, op: Op)
    requires WellTyped(s, op)
  {
    match op
    case Yield => true
    case DoExit => true
    case DoWait(_, _) => true
    case DoLock(m) => s.mutexes[m].owner != null && s.mutexes[m].owner != s.current
    case _ => false
  }

  ghost function DispatchCount(s: Sys, ops: seq<Op>): nat
    requires Legal(s, ops)
    decreases |ops|
  {
    if ops == [] then 0
    else (if Dispatches(s, ops[0]) then 1 else 0) + DispatchCount(Step(s, ops[0]), ops[1..])
  }

  lemma DispatchMoves(s: Sys, k: nat)
    requires k < |s.ready| && (k > 0 ==> s.ready[0] != s.ready[k])
    ensures var s' := Dispatch(s);
      if k == 0 then s'.current == s.ready[0]
      else s'.current != s.ready[k] && k - 1 < |s'.ready| && s'.ready[k - 1] == s.ready[k]
  {
  }

  lemma ReleaseOnlyAppends(s: Sys, m: KMutex)
    requires m in s.mutexes
    ensures s.ready <= Release(s, m).ready
  {
  }

  lemma {:induction false} SignalAllStays(s: Sys, q: seq<KThread>)
    ensures LockWaiters(s, q).ready == s.ready && LockWaiters(s, q).current == s.current
    decreases |q|
  {
    if q != [] {
      SignalAllStays(LockWaiter(s, q[0]), q[1..]);
    }
  }

  lemma StepMoves(s: Sys, op: Op, k: nat)
    requires Inv(s) && WellTyped(s, op) && Guard(s, op) && k < |s.ready|
    ensures var s' := Step(s, op);
      if !Dispatches(s, op) then s'.current == s.current && s.ready <= s'.ready
      else if k == 0 then s'.current == s.ready[0]
      else s'.current != s.ready[k] && k - 1 < |s'.ready| && s'.ready[k - 1] == s.ready[k]
  {
    hide Dispatch, CurrentOk, ClaimOk, MutexOk;
    match op {
      case Yield => DispatchMoves(s, k);
      case DoExit => DispatchMoves(Stopped(s), k);
      case DoWait(c, m) =>
        ReleaseOnlyAppends(Park(s, c, m, s.current), m);
        DispatchMoves(Unlock(Park(s, c, m, s.current), m), k);
      case DoLock(m) =>
        if Dispatches(s, op) {
          DispatchMoves(Join(s, m, s.current), k);
        }
      case DoUnlock(m) => ReleaseOnlyAppends(s, m);
      case DoSignalAll(c) => SignalAllStays(s, s.conds[c]);
      case _ =>
    }
  }

  /** A ready thread at position k runs for the first time exactly at the (k+1)-th dispatch,
      whatever is created, unlocked or broadcast in between. */
  lemma {:induction false} RunsAtItsTurn(s: Sys, ops: seq<Op>, k: nat)
    requires Inv(s) && Legal(s, ops) && k < |s.ready|
    ensures FirstRun(s, ops, s.ready[k]) <==>
            DispatchCount(s, ops) == k + 1 && LegalPrefix(s, ops) && DispatchCount(s, ops[..|ops| - 1]) == k
    decreases |ops|
  {
    hide Step, Guard, WellTyped;
    if |ops| == 1 {
      StepMoves(s, ops[0], k);
      assert ops[..0] == [];
      OneStepCount(s, ops);
    } else if |ops| > 1 {
      var s', rest := Step(s, ops[0]), ops[1..];
      var t := s.ready[k];
      StepKeepsIffGuard(s, ops[0]);
      StepMoves(s, ops[0], k);
      LegalInit(s, ops);
      assert ops[..|ops| - 1][1..] == rest[..|rest| - 1];
      if Dispatches(s, ops[0]) {
        if k > 0 {
          RunsAtItsTurn(s', rest, k - 1);
        }
      } else {
        assert s'.ready[k] == t;
        RunsAtItsTurn(s', rest, k);
      }
    }
  }

  lemma OneStepCount(s: Sys, ops: seq<Op>)
    requires Legal(s, ops) && |ops| == 1
    ensures DispatchCount(s, ops) == if Dispatches(s, ops[0]) then 1 else 0
  {
    assert ops[1..] == [];
  }

  lemma {:induction false} LegalInit(s: Sys, ops: seq<Op>)
    requires Legal(s, ops) && ops != []
    ensures Legal(s, ops[..|ops| - 1])
    decreases |ops|
  {
    if |ops| > 1 {
      LegalInit(Step(s, ops[0]), ops[1..]);
      assert ops[..|ops| - 1][1..] == ops[1..][..|ops| - 2];
    }
  }

  ghost predicate LegalPrefix(s: Sys, ops: seq<Op>) {
    ops != [] && Legal(s, ops[..|ops| - 1])
  }
}
