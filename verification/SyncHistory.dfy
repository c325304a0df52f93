/** What a history of calls says about the state it leads to: which threads there are, who is ready in which
    order, who owns a mutex and for how long, and who waits on a condition. */
module SyncHistory {
  import opened KernelObjects
  import opened SyncModel
  import opened SyncRuns

  // ---- No thread is lost ----------------------------------------------------------------------

  function Arrives(op: Op): set<KThread> {
    if op.Create? then {op.t} else {}
  }

  function Leaves(s: Sys, op: Op): set<KThread> {
    if op.DoExit? && s.current != null && s.current != s.idle then {s.current} else {}
  }

  lemma DispatchThreads(s: Sys)
    requires s.idle in s.place && (forall t :: t in s.ready ==> t in s.place)
    ensures Dispatch(s).place.Keys == s.place.Keys
  {
  }

  lemma {:induction false} LockWaitersThreads(s: Sys, q: seq<KThread>)
    ensures LockWaiters(s, q).place.Keys == s.place.Keys
    decreases |q|
  {
    if q != [] {
      LockWaitersThreads(LockWaiter(s, q[0]), q[1..]);
    }
  }

  lemma ReleaseThreads(s: Sys, m: KMutex)
    requires m in s.mutexes && forall t :: t in s.mutexes[m].queue ==> t in s.place
    ensures Release(s, m).place.Keys == s.place.Keys
    ensures forall t :: t in Release(s, m).ready ==> t in s.ready || t in s.place
    ensures Release(s, m).idle == s.idle
  {
  }

  /** Every step keeps the threads, but for one that is created and one that exits. */
  lemma StepThreads(s: Sys, op: Op)
    requires Inv(s) && WellTyped(s, op)
    ensures Step(s, op).place.Keys == s.place.Keys + Arrives(op) - Leaves(s, op)
  {
    hide Dispatch, Release, MutexOk, ClaimOk;
    match op {
      case Yield => DispatchThreads(s);
      case DoExit =>
        assert s.current != s.idle ==> s.current !in s.ready;
        DispatchThreads(Stopped(s));
      case DoLock(m) => DispatchThreads(Join(s, m, s.current));
      case DoUnlock(m) =>
        assert MutexQueueOk(s, m);
        ReleaseThreads(s, m);
      case DoWait(c, m) =>
        assert MutexQueueOk(s, m);
        var parked := Park(s, c, m, s.current);
        ReleaseThreads(parked, m);
        DispatchThreads(Unlock(parked, m));
      case DoSignalAll(c) => LockWaitersThreads(s, s.conds[c]);
      case _ =>
    }
  }

  ghost function Created(ops: seq<Op>): nat {
    if ops == [] then 0 else (if ops[0].Create? then 1 else 0) + Created(ops[1..])
  }

  ghost function Exited(s: Sys, ops: seq<Op>): nat
    requires Legal(s, ops)
    decreases |ops|
  {
    if ops == [] then 0 else |Leaves(s, ops[0])| + Exited(Step(s, ops[0]), ops[1..])
  }

  /** Over any run there are as many threads as there were, and were created, less those that exited. */
  lemma {:induction false} ThreadsAreCounted(s: Sys, ops: seq<Op>)
    requires Inv(s) && Legal(s, ops)
    ensures |After(s, ops).place.Keys| == |s.place.Keys| + Created(ops) - Exited(s, ops)
    decreases |ops|
  {
    hide Inv, Step, Guard;
    if ops != [] {
      StepThreads(s, ops[0]);
      StepKeepsIffGuard(s, ops[0]);
      ThreadsAreCounted(Step(s, ops[0]), ops[1..]);
      CountThreads(s, ops[0]);
    }
  }

  lemma CountThreads(s: Sys, op: Op)
    requires Inv(s) && WellTyped(s, op)
    ensures |s.place.Keys + Arrives(op) - Leaves(s, op)| == |s.place.Keys| + |Arrives(op)| - |Leaves(s, op)|
    ensures |Arrives(op)| == if op.Create? then 1 else 0
  {
    assert Leaves(s, op) <= s.place.Keys && (Arrives(op) * s.place.Keys == {});
    assert op.Create? ==> Leaves(s, op) == {};
  }

  // ---- The ready queue ---------------------------------------------------------------------------

  /** The threads that a step makes ready: a new one, one that yields, and one that is handed a mutex. */
  ghost function Readied(s: Sys, op: Op): seq<KThread>
    requires WellTyped(s, op)
  {
    match op
    case Create(t) => [t]
    case Yield => if s.current == s.idle then [] else [s.current]
    case DoUnlock(m) => Acquired(s, Step(s, op), m)
    case DoWait(_, m) => Acquired(s, Step(s, op), m)
    case _ => []
  }

  /** The thread that a dispatch takes from the ready queue. */
  ghost function Started(s: Sys, op: Op): seq<KThread>
    requires WellTyped(s, op)
  {
    if Dispatches(s, op) && s.ready + Readied(s, op) != [] && Step(s, op).current != null
    then [Step(s, op).current] else []
  }

  /** The first thread of `queue` runs and the others are ready; kthread_main runs if there is none. */
  predicate RunsFirst(s: Sys, queue: seq<KThread>, idle: KThread) {
    && s.current != null
    && if queue == [] then s.current == idle && s.ready == [] else [s.current] + s.ready == queue
  }

  lemma YieldReady(s: Sys)
    requires Inv(s)
    ensures var queue, s' := s.ready + (if s.current == s.idle then [] else [s.current]), Dispatch(s);
      RunsFirst(s', queue, s.idle)
  {
    var queue := s.ready + (if s.current == s.idle then [] else [s.current]);
    assert queue != [] ==> [queue[0]] + queue[1..] == queue;
  }

  lemma BlockReady(s: Sys)
    requires !Runs(s, s.current)
    ensures RunsFirst(Dispatch(s), s.ready, s.idle)
  {
    assert s.ready != [] ==> [s.ready[0]] + s.ready[1..] == s.ready;
  }

  lemma ReleaseReady(s: Sys, m: KMutex)
    requires m in s.mutexes && s.mutexes[m].owner == s.current != null && s.current !in s.mutexes[m].queue
    ensures Release(s, m).ready == s.ready + Acquired(s, Release(s, m), m) && Release(s, m).current == s.current
  {
    var q := s.mutexes[m].queue;
    assert q != [] ==> q[0] in q;
  }

  lemma UnlockReady(s: Sys, m: KMutex)
    requires m in s.mutexes && s.current != null
    requires s.mutexes[m].owner == s.current ==> s.current !in s.mutexes[m].queue
    ensures Unlock(s, m).ready == s.ready + Acquired(s, Unlock(s, m), m) && Unlock(s, m).current == s.current
    ensures Unlock(s, m).idle == s.idle
  {
    if s.mutexes[m].owner == s.current {
      ReleaseReady(s, m);
    }
  }

  lemma WaitReady(s: Sys, c: KCond, m: KMutex)
    requires Inv(s) && WellTyped(s, DoWait(c, m))
    ensures var queue, s' := s.ready + Acquired(s, Wait(s, c, m), m), Wait(s, c, m);
      RunsFirst(s', queue, s.idle)
  {
    hide Dispatch, QueuesOk, Release, MutexOk, ClaimOk;
    var parked := Park(s, c, m, s.current);
    var s1 := Unlock(parked, m);
    RunnerNotQueued(s, m);
    UnlockReady(parked, m);
    ReleaseParks(parked, m, s.current);
    DispatchKeepsMutexes(s1);
    BlockReady(s1);
  }

  lemma ReleaseParks(s: Sys, m: KMutex, t: KThread)
    requires m in s.mutexes && t in s.place && s.place[t].OnCond? && t !in s.mutexes[m].queue
    ensures t in Unlock(s, m).place && Unlock(s, m).place[t] == s.place[t]
  {
  }

  /** What a step does to the ready queue: a dispatch takes its first thread, and kthread_main when there is none;
      threads that become ready join at its back. */
  lemma StepReady(s: Sys, op: Op)
    requires Inv(s) && WellTyped(s, op)
    ensures Started(s, op) + Step(s, op).ready == s.ready + Readied(s, op)
    ensures Step(s, op).current
            == if !Dispatches(s, op) then s.current else if Started(s, op) == [] then s.idle else Started(s, op)[0]
  {
    hide Dispatch, QueuesOk, Release, MutexOk, ClaimOk, Wait;
    match op {
      case Yield => YieldReady(s);
      case DoExit => BlockReady(Stopped(s));
      case DoLock(m) =>
        if Dispatches(s, op) {
          BlockReady(Join(s, m, s.current));
        }
      case DoUnlock(m) =>
        RunnerNotQueued(s, m);
        UnlockReady(s, m);
      case DoWait(c, m) => WaitReady(s, c, m);
      case DoSignalAll(c) => SignalAllStays(s, s.conds[c]);
      case _ =>
    }
  }

  ghost function Readyings(s: Sys, ops: seq<Op>): seq<KThread>
    requires Legal(s, ops)
    decreases |ops|
  {
    if ops == [] then [] else Readied(s, ops[0]) + Readyings(Step(s, ops[0]), ops[1..])
  }

  ghost function Starts(s: Sys, ops: seq<Op>): seq<KThread>
    requires Legal(s, ops)
    decreases |ops|
  {
    if ops == [] then [] else Started(s, ops[0]) + Starts(Step(s, ops[0]), ops[1..])
  }

  /** Over any run the threads that were dispatched, followed by those still ready, are those that were ready at
      first, followed by those that became ready, in that order: nobody is lost, and nobody is overtaken. */
  lemma {:induction false} DispatchedInReadyOrder(s: Sys, ops: seq<Op>)
    requires Inv(s) && Legal(s, ops)
    ensures Starts(s, ops) + After(s, ops).ready == s.ready + Readyings(s, ops)
    decreases |ops|
  {
    hide Inv, Step, Guard, Started, Readied;
    if ops != [] {
      var s' := Step(s, ops[0]);
      StepKeepsIffGuard(s, ops[0]);
      StepReady(s, ops[0]);
      DispatchedInReadyOrder(s', ops[1..]);
      Regroup(Started(s, ops[0]), Starts(s', ops[1..]), s.ready, s'.ready, After(s, ops).ready, Readied(s, ops[0]),
              Readyings(s', ops[1..]));
    }
  }

  /** A thread that yields while others are ready runs again exactly at the dispatch that comes after theirs. */
  lemma YielderRunsAgain(s: Sys, ops: seq<Op>)
    requires Inv(s) && Legal(s, [Yield] + ops) && s.current != s.idle && s.ready != [] && ops != []
    ensures FirstRun(s, [Yield] + ops, s.current)
            <==> DispatchCount(s, [Yield] + ops) == |s.ready| + 1
                 && LegalPrefix(s, [Yield] + ops) && DispatchCount(s, ([Yield] + ops)[..|ops|]) == |s.ready|
  {
    hide Inv, Step, Guard;
    var all, s', n := [Yield] + ops, Step(s, Yield), |s.ready|;
    assert all[0] == Yield && all[1..] == ops;
    StepKeepsIffGuard(s, Yield);
    StepReady(s, Yield);
    YielderIsLast(s);
    RunsAtItsTurn(s', ops, n - 1);
    LegalInit(s, all);
    assert all[..|ops|][0] == Yield && all[..|ops|][1..] == ops[..|ops| - 1];
  }

  /** It is last in the ready queue. */
  lemma YielderIsLast(s: Sys)
    requires Inv(s) && s.current != s.idle && s.ready != []
    ensures var s' := Step(s, Yield);
      s'.current != s.current && |s'.ready| == |s.ready| && s'.ready[|s.ready| - 1] == s.current
  {
    YieldReady(s);
    RunnerNotReady(s);
    var s' := Dispatch(s);
    assert ([s'.current] + s'.ready)[|s.ready|] == s.current;
    assert ([s'.current] + s'.ready)[0] == s.ready[0] && s.ready[0] in s.ready;
  }

  // ---- How long a mutex is owned --------------------------------------------------------------------

  /** By how much the owner of `m` nests its locks with this step. */
  function Nesting(s: Sys, op: Op, m: KMutex): int {
    if !(m in s.mutexes && s.mutexes[m].owner == s.current) then 0
    else
      match op
      case DoLock(m') => if m' == m && m.recursive then 1 else 0
      case DoUnlock(m') => if m' == m then -1 else 0
      case DoWait(_, m') => if m' == m then -1 else 0
      case _ => 0
  }

  /** The locks of the owner that are still open after a run, when `depth` were before. */
  ghost function Depth(s: Sys, ops: seq<Op>, m: KMutex, depth: int): int
    requires Legal(s, ops)
    decreases |ops|
  {
    if ops == [] then depth else Depth(Step(s, ops[0]), ops[1..], m, depth + Nesting(s, ops[0], m))
  }

  /** The owner has an open lock after every step. */
  ghost predicate StaysOpen(s: Sys, ops: seq<Op>, m: KMutex, depth: int)
    requires Legal(s, ops)
    decreases |ops|
  {
    ops == []
    || (depth + Nesting(s, ops[0], m) > 0
        && StaysOpen(Step(s, ops[0]), ops[1..], m, depth + Nesting(s, ops[0], m)))
  }

  /** `t` owns the mutex in every state of the run. */
  ghost predicate Owns(s: Sys, ops: seq<Op>, m: KMutex, t: KThread?)
    requires Legal(s, ops)
    decreases |ops|
  {
    && m in s.mutexes && s.mutexes[m].owner == t
    && (ops == [] || Owns(Step(s, ops[0]), ops[1..], m, t))
  }

  /** The mutex after its owner, at nesting depth `depth`, has made a step of `nesting`. */
  ghost predicate Counted(s: Sys, s': Sys, m: KMutex, depth: int)
    requires m in s.mutexes
  {
    var ms := s.mutexes[m];
    m in s'.mutexes &&
    if depth > 0 then s'.mutexes[m].owner == ms.owner && s'.mutexes[m].count == depth
    else s'.mutexes[m].owner != ms.owner && s'.mutexes[m].owner == if ms.queue == [] then null else ms.queue[0]
  }

  lemma ReleaseCounts(s: Sys, m': KMutex, m: KMutex)
    requires m in s.mutexes && m' in s.mutexes && s.mutexes[m'].owner == s.current != null
    requires MutexOk(s, m') && s.mutexes[m].owner != null && MutexOk(s, m)
    requires s.current !in s.mutexes[m'].queue
    ensures Counted(s, Release(s, m'), m, s.mutexes[m].count - if m' == m then 1 else 0)
  {
    var q := s.mutexes[m'].queue;
    assert q != [] ==> q[0] in q;
  }

  lemma WaitCounts(s: Sys, c: KCond, m': KMutex, m: KMutex)
    requires Inv(s) && WellTyped(s, DoWait(c, m')) && Guard(s, DoWait(c, m'))
    requires m in s.mutexes && s.mutexes[m].owner != null
    ensures Counted(s, Wait(s, c, m'), m, s.mutexes[m].count + Nesting(s, DoWait(c, m'), m))
  {
    hide Dispatch, QueuesOk, Release, MutexOk, ClaimOk;
    var parked := Park(s, c, m', s.current);
    RunnerNotQueued(s, m');
    MutexesOk(s, m);
    MutexesOk(s, m');
    if s.mutexes[m'].owner == s.current {
      MutexOkElsewhere(s, parked, m);
      MutexOkElsewhere(s, parked, m');
      ReleaseCounts(parked, m', m);
    }
    DispatchKeepsMutexes(Unlock(parked, m'));
    CountIsPositive(s, m);
  }

  lemma MutexesOk(s: Sys, m: KMutex)
    requires Inv(s) && m in s.mutexes
    ensures MutexOk(s, m)
  {
  }

  lemma MutexOkElsewhere(s: Sys, s': Sys, m: KMutex)
    requires m in s.mutexes && m in s'.mutexes && MutexOk(s, m) && s'.mutexes[m] == s.mutexes[m]
    ensures MutexOk(s', m)
  {
  }

  lemma CountIsPositive(s: Sys, m: KMutex)
    requires m in s.mutexes && MutexOk(s, m) && s.mutexes[m].owner != null
    ensures s.mutexes[m].count > 0
  {
  }

  lemma SignalAllCounts(s: Sys, c: KCond, m: KMutex)
    requires Inv(s) && WellTyped(s, DoSignalAll(c)) && Guard(s, DoSignalAll(c))
    requires m in s.mutexes && s.mutexes[m].owner != null
    ensures Counted(s, SignalAll(s, c), m, s.mutexes[m].count)
  {
    hide SignalAll, ClaimOk;
    MutexesOk(s, m);
    if s.conds[c] == [] {
      NobodyWaits(s, c);
    } else {
      CommonWaits(s, c);
      SignalAllCommon(s, c, FirstWanted(s, c));
    }
  }

  lemma LockCounts(s: Sys, m': KMutex, m: KMutex)
    requires Inv(s) && WellTyped(s, DoLock(m')) && Guard(s, DoLock(m'))
    requires m in s.mutexes && s.mutexes[m].owner != null
    ensures Counted(s, Lock(s, m'), m, s.mutexes[m].count + Nesting(s, DoLock(m'), m))
  {
    hide Dispatch, QueuesOk, ClaimOk;
    MutexesOk(s, m);
    if Blocks(s, m') {
      DispatchKeepsMutexes(Join(s, m', s.current));
    }
  }

  /** A step of the owner that leaves locks open keeps it the owner, and counts them; one that closes the last frees
      the mutex, or hands it to the head of its queue. Steps of others change neither. */
  lemma StepCounts(s: Sys, op: Op, m: KMutex)
    requires Inv(s) && WellTyped(s, op) && Guard(s, op) && m in s.mutexes && s.mutexes[m].owner != null
    ensures Counted(s, Step(s, op), m, s.mutexes[m].count + Nesting(s, op, m))
  {
    hide Dispatch, QueuesOk, Release, ClaimOk, Wait, Lock, SignalAll;
    MutexesOk(s, m);
    match op {
      case DoLock(m') => LockCounts(s, m', m);
      case DoUnlock(m') =>
        RunnerNotQueued(s, m');
        MutexesOk(s, m');
        if s.mutexes[m'].owner == s.current {
          ReleaseCounts(s, m', m);
        }
      case DoWait(c, m') => WaitCounts(s, c, m', m);
      case DoSignalAll(c) => SignalAllCounts(s, c, m);
      case Yield => DispatchKeepsMutexes(s);
      case DoExit => DispatchKeepsMutexes(Stopped(s));
      case _ =>
    }
  }

  /** A thread that becomes the owner has one lock open. */
  lemma AcquiredOnce(s: Sys, op: Op, m: KMutex)
    requires Inv(s) && WellTyped(s, op) && Guard(s, op) && m in s.mutexes
    requires m in Step(s, op).mutexes && Step(s, op).mutexes[m].owner != null
    requires Step(s, op).mutexes[m].owner != s.mutexes[m].owner
    ensures Step(s, op).mutexes[m].count == 1
  {
    hide Dispatch, QueuesOk, ClaimOk, SignalAll;
    MutexesOk(s, m);
    match op {
      case DoLock(m') => DispatchKeepsMutexes(Join(s, m', s.current));
      case DoWait(c, m') => DispatchKeepsMutexes(Unlock(Park(s, c, m', s.current), m'));
      case DoSignalAll(c) =>
        if s.conds[c] == [] {
          NobodyWaits(s, c);
        } else {
          CommonWaits(s, c);
          SignalAllCommon(s, c, FirstWanted(s, c));
        }
      case Yield => DispatchKeepsMutexes(s);
      case DoExit => DispatchKeepsMutexes(Stopped(s));
      case _ =>
    }
  }

  lemma {:induction false} OwnsWhileOpen(s: Sys, ops: seq<Op>, m: KMutex, t: KThread, depth: int)
    requires Inv(s) && Legal(s, ops) && m in s.mutexes && s.mutexes[m].owner == t && s.mutexes[m].count == depth
    ensures Owns(s, ops, m, t) <==> StaysOpen(s, ops, m, depth)
    ensures StaysOpen(s, ops, m, depth) ==>
              m in After(s, ops).mutexes && After(s, ops).mutexes[m].count == Depth(s, ops, m, depth)
    decreases |ops|
  {
    hide Inv, Step, Guard, Nesting;
    if ops != [] {
      var s', next := Step(s, ops[0]), depth + Nesting(s, ops[0], m);
      StepKeepsIffGuard(s, ops[0]);
      StepCounts(s, ops[0], m);
      if next > 0 {
        OwnsWhileOpen(s', ops[1..], m, t, next);
      } else {
        assert !Owns(s', ops[1..], m, t);
      }
    }
  }

  /** A thread that has just become the owner of a mutex owns it through a run if and only if at every step it has
      locked the mutex more often than it has unlocked it, where the lock of a mutex that is not recursive only counts
      once; and a wait with the mutex counts as an unlock. */
  lemma OwnsIffNested(s: Sys, op: Op, ops: seq<Op>, m: KMutex, t: KThread)
    requires Inv(s) && WellTyped(s, op) && Guard(s, op) && Legal(Step(s, op), ops) && m in s.mutexes
    requires m in Step(s, op).mutexes && Step(s, op).mutexes[m].owner == t && s.mutexes[m].owner != t
    ensures Owns(Step(s, op), ops, m, t) <==> StaysOpen(Step(s, op), ops, m, 1)
  {
    hide Inv, Step, Guard;
    AcquiredOnce(s, op, m);
    StepKeepsIffGuard(s, op);
    OwnsWhileOpen(Step(s, op), ops, m, t, 1);
  }

  /** The step that closes its last lock frees the mutex if nobody is queued, and makes the head of the queue the
      owner otherwise. */
  lemma LastUnlockHandsOver(s: Sys, op: Op, ops: seq<Op>, last: Op, m: KMutex, t: KThread)
    requires Inv(s) && WellTyped(s, op) && Guard(s, op) && Legal(Step(s, op), ops) && m in s.mutexes
    requires m in Step(s, op).mutexes && Step(s, op).mutexes[m].owner == t && s.mutexes[m].owner != t
    requires StaysOpen(Step(s, op), ops, m, 1)
    requires var s1 := After(Step(s, op), ops);
      WellTyped(s1, last) && Guard(s1, last) && Depth(Step(s, op), ops, m, 1) + Nesting(s1, last, m) == 0
    ensures var s1 := After(Step(s, op), ops);
      var s2 := Step(s1, last);
      && m in s1.mutexes && s1.mutexes[m].owner == t && m in s2.mutexes
      && s2.mutexes[m].owner == if s1.mutexes[m].queue == [] then null else s1.mutexes[m].queue[0]
  {
    hide Inv, Step, Guard, Nesting;
    AcquiredOnce(s, op, m);
    StepKeepsIffGuard(s, op);
    OwnsWhileOpen(Step(s, op), ops, m, t, 1);
    OwnsAtEnd(Step(s, op), ops, m, t);
    RunKeepsInv(Step(s, op), ops);
    StepCounts(After(Step(s, op), ops), last, m);
  }

  lemma {:induction false} OwnsAtEnd(s: Sys, ops: seq<Op>, m: KMutex, t: KThread)
    requires Legal(s, ops) && Owns(s, ops, m, t)
    ensures m in After(s, ops).mutexes && After(s, ops).mutexes[m].owner == t
    decreases |ops|
  {
    hide Step, Guard, WellTyped;
    if ops != [] {
      OwnsAtEnd(Step(s, ops[0]), ops[1..], m, t);
    }
  }

  /** Refused calls change nothing. */
  lemma RefusedStays(s: Sys, op: Op)
    requires WellTyped(s, op)
    requires match op
      case DoUnlock(m) => s.mutexes[m].owner != s.current
      case DoTryLock(m) => s.mutexes[m].owner != null
      case DoLock(m) => s.mutexes[m].owner == s.current && !m.recursive
      case _ => false
    ensures Step(s, op) == s
  {
  }

  /** A new mutex belongs to nobody, so that the first to try gets it; and nobody waits on a new condition. */
  lemma NewObjectsAreFree(s: Sys, m: KMutex, c: KCond)
    requires Inv(s) && m !in s.mutexes && c !in s.conds
    ensures var t := Step(s, NewMutex(m));
      m in t.mutexes && t.mutexes[m].owner == null && Step(t, DoTryLock(m)).mutexes[m].owner == s.current
    ensures var t := Step(s, NewCond(c)); c in t.conds && t.conds[c] == []
  {
  }

  // ---- Who waits on a condition -----------------------------------------------------------------------

  /** The thread that starts to wait on `c` with this step. */
  function Parked(s: Sys, op: Op, c: KCond): seq<KThread> {
    if op.DoWait? && op.c == c && s.current != null then [s.current] else []
  }

  ghost function Parkings(s: Sys, ops: seq<Op>, c: KCond): seq<KThread>
    requires Legal(s, ops)
    decreases |ops|
  {
    if ops == [] then [] else Parked(s, ops[0], c) + Parkings(Step(s, ops[0]), ops[1..], c)
  }

  lemma {:induction false} LockWaitersKeepConds(s: Sys, q: seq<KThread>)
    ensures LockWaiters(s, q).conds == s.conds
    decreases |q|
  {
    if q != [] {
      LockWaitersKeepConds(LockWaiter(s, q[0]), q[1..]);
    }
  }

  lemma StepParks(s: Sys, op: Op, c: KCond)
    requires WellTyped(s, op) && c in s.conds
    ensures c in Step(s, op).conds
    ensures Step(s, op).conds[c] == if op == DoSignalAll(c) then [] else s.conds[c] + Parked(s, op, c)
  {
    hide Dispatch, Release;
    match op {
      case Yield => DispatchKeepsMutexes(s);
      case DoExit => DispatchKeepsMutexes(Stopped(s));
      case DoLock(m) => DispatchKeepsMutexes(Join(s, m, s.current));
      case DoUnlock(m) => ReleaseKeepsConds(s, m);
      case DoWait(c', m) =>
        var parked := Park(s, c', m, s.current);
        ReleaseKeepsConds(parked, m);
        DispatchKeepsMutexes(Unlock(parked, m));
      case DoSignalAll(c') => LockWaitersKeepConds(s, s.conds[c']);
      case _ =>
    }
  }

  lemma ReleaseKeepsConds(s: Sys, m: KMutex)
    requires m in s.mutexes
    ensures Release(s, m).conds == s.conds
  {
  }

  /** Between two broadcasts the waiters of a condition are queued in the order of their waits. */
  lemma {:induction false} WaitersInOrder(s: Sys, ops: seq<Op>, c: KCond)
    requires Legal(s, ops) && c in s.conds && DoSignalAll(c) !in ops
    ensures c in After(s, ops).conds && After(s, ops).conds[c] == s.conds[c] + Parkings(s, ops, c)
    decreases |ops|
  {
    hide Step, Guard, WellTyped;
    if ops != [] {
      assert ops[0] in ops;
      StepParks(s, ops[0], c);
      WaitersInOrder(Step(s, ops[0]), ops[1..], c);
    }
  }
}
