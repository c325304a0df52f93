/** Scheduling, mutexes and conditions as a transition system over queues of threads.

    The records of KernelObjects are used as identities only; no field that changes is read.
    Every thread has a place, which says where it is. The idle thread (`kthread_main`) is never put
    into the ready queue when it gives way: it stays in reserve until nobody else is ready.
 */
module SyncModel {
  import opened KernelObjects

  const COUNT_LIMIT := 0x1_0000

  /** `Ready(m)` was handed mutex `m` when it was woken; `Lost` is a blocked thread in no queue;
      `Astray(m)` is the last thread in the queue of `m`, but its link leads on. */
  datatype Place =
    | Running
    | Reserve
    | Ready(woken: KMutex?)
    | OnMutex(mutex: KMutex)
    | OnCond(cond: KCond, mutex: KMutex)
    | Lost
    | Astray(mutex: KMutex)

  datatype MutexState = MutexState(owner: KThread?, count: int, queue: seq<KThread>)

  datatype Sys = Sys(
    current: KThread?,
    idle: KThread,
    ready: seq<KThread>,
    mutexes: map<KMutex, MutexState>,
    conds: map<KCond, seq<KThread>>,
    place: map<KThread, Place>)

  // ---- Steps ---------------------------------------------------------------------------

  function Enqueue(s: Sys, t: KThread, woken: KMutex?): Sys {
    s.(ready := s.ready + [t], place := s.place[t := Ready(woken)])
  }

  /** The first ready thread runs, or the idle one if there is none. An idle thread that has blocked
      is made current all the same. */
  function PickNext(s: Sys): Sys {
    if s.ready != [] then
      s.(current := s.ready[0], ready := s.ready[1..], place := s.place[s.ready[0] := Running])
    else if InReserve(s) then s.(current := s.idle, place := s.place[s.idle := Running])
    else s.(current := s.idle)
  }

  predicate InReserve(s: Sys) { s.idle in s.place && s.place[s.idle].Reserve? }

  predicate Runs(s: Sys, t: KThread?) {
    t != null && t in s.place && s.place[t].Running?
  }

  /** A running thread gives way. */
  function Yielded(s: Sys): Sys {
    if !Runs(s, s.current) then s
    else if s.current == s.idle then s.(place := s.place[s.idle := Reserve])
    else Enqueue(s, s.current, null)
  }

  /** kthread_dispatch: a thread that did not block goes to the back of the ready queue. */
  function Dispatch(s: Sys): Sys {
    PickNext(Yielded(s))
  }

  function SetMutex(s: Sys, m: KMutex, ms: MutexState): Sys {
    s.(mutexes := s.mutexes[m := ms])
  }

  function TryLock(s: Sys, m: KMutex): Sys
    requires m in s.mutexes
  {
    if s.mutexes[m].owner == null then SetMutex(s, m, s.mutexes[m].(owner := s.current, count := 1)) else s
  }

  function Join(s: Sys, m: KMutex, t: KThread): Sys
    requires m in s.mutexes
  {
    SetMutex(s, m, s.mutexes[m].(queue := s.mutexes[m].queue + [t])).(place := s.place[t := OnMutex(m)])
  }

  function Lock(s: Sys, m: KMutex): Sys
    requires m in s.mutexes && s.current != null
  {
    var ms := s.mutexes[m];
    if ms.owner == null then TryLock(s, m)
    else if ms.owner == s.current then
      if m.recursive then SetMutex(s, m, ms.(count := (ms.count + 1) % COUNT_LIMIT)) else s
    else Dispatch(Join(s, m, s.current))
  }

  /** kmutex_unlock by the owner: a nested unlock, a release, or a hand-off to the first waiter. */
  function Release(s: Sys, m: KMutex): Sys
    requires m in s.mutexes
  {
    var ms := s.mutexes[m];
    var left := (ms.count + COUNT_LIMIT - 1) % COUNT_LIMIT;
    if m.recursive && left > 0 then SetMutex(s, m, ms.(count := left))
    else if ms.queue == [] then SetMutex(s, m, MutexState(null, left, []))
    else Enqueue(HandOver(s, m), ms.queue[0], m)
  }

  /** The first waiter leaves the queue of `m` as its owner. */
  function HandOver(s: Sys, m: KMutex): Sys
    requires m in s.mutexes && s.mutexes[m].queue != []
  {
    var q := s.mutexes[m].queue;
    SetMutex(s, m, MutexState(q[0], 1, q[1..])).(place := s.place[q[0] := Lost])
  }

  function Unlock(s: Sys, m: KMutex): Sys
    requires m in s.mutexes
  {
    if s.mutexes[m].owner == s.current then Release(s, m) else s
  }

  function Park(s: Sys, c: KCond, m: KMutex, t: KThread): Sys
    requires c in s.conds
  {
    s.(conds := s.conds[c := s.conds[c] + [t]], place := s.place[t := OnCond(c, m)])
  }

  function Wait(s: Sys, c: KCond, m: KMutex): Sys
    requires c in s.conds && m in s.mutexes && s.current != null
  {
    Dispatch(Unlock(Park(s, c, m, s.current), m))
  }

  /** All waiters of `c` wait with the mutex `m`, and none of them owns it. */
  ghost predicate WaitWith(s: Sys, c: KCond, m: KMutex) {
    && c in s.conds && m in s.mutexes
    && s.mutexes[m].owner !in s.conds[c]
    && forall t :: t in s.conds[c] ==> t in s.place && s.place[t] == OnCond(c, m)
  }

  /** The waiters of `c` are parked threads, and none owns the mutex it waits with. */
  ghost predicate Waiters(s: Sys, c: KCond) {
    c in s.conds && forall t :: t in s.conds[c] ==> WaiterOk(s, c, t)
  }

  predicate WaiterOk(s: Sys, c: KCond, t: KThread) {
    && t in s.place && s.place[t].OnCond? && s.place[t].cond == c
    && s.place[t].mutex in s.mutexes && s.mutexes[s.place[t].mutex].owner != t
  }

  /** The mutex that a parked thread waits with. */
  function Wants(s: Sys, t: KThread): KMutex
    requires t in s.place && s.place[t].OnCond?
  {
    s.place[t].mutex
  }

  /** The mutex that the first waiter waits with. */
  ghost function FirstWanted(s: Sys, c: KCond): (m: KMutex)
    requires Waiters(s, c) && s.conds[c] != []
    ensures m in s.mutexes
  {
    assert s.conds[c][0] in s.conds[c] && WaiterOk(s, c, s.conds[c][0]);
    Wants(s, s.conds[c][0])
  }

  /** All waiters of `c` wait with one mutex. */
  ghost predicate OneMutex(s: Sys, c: KCond)
    requires Waiters(s, c)
  {
    forall t, u :: t in s.conds[c] && u in s.conds[c] ==> Wants(s, t) == Wants(s, u)
  }

  /** kmutex_lock for a parked thread: it gets a free mutex, but is not made ready, or queues up. */
  function LockWaiter(s: Sys, t: KThread): Sys {
    if !(t in s.place && s.place[t].OnCond? && s.place[t].mutex in s.mutexes) then s
    else
      var m := Wants(s, t);
      if s.mutexes[m].owner == null
      then SetMutex(s, m, s.mutexes[m].(owner := t, count := 1)).(place := s.place[t := Lost])
      else Join(s, m, t)
  }

  function LockWaiters(s: Sys, q: seq<KThread>): Sys
    decreases |q|
  {
    if q == [] then s else LockWaiters(LockWaiter(s, q[0]), q[1..])
  }

  /** The `i`th waiter is the last one for its mutex, but not the last one. */
  ghost predicate LastOfItsMutex(s: Sys, q: seq<KThread>, i: nat) {
    && i < |q| - 1 && q[i] in s.place && s.place[q[i]].OnCond?
    && forall j :: i < j < |q| ==> q[j] in s.place && s.place[q[j]].OnCond? && Wants(s, q[j]) != Wants(s, q[i])
  }

  /** The waiter is queued, but nobody has overwritten its link to the next waiter. */
  ghost predicate Strays(s: Sys, q: seq<KThread>, t: KThread) {
    exists i :: 0 <= i < |q| && q[i] == t && LastOfItsMutex(s, q, i)
  }

  /** kcond_signal_all: each waiter locks its own mutex, in order. */
  ghost function SignalAll(s: Sys, c: KCond): Sys
    requires c in s.conds
  {
    var q := s.conds[c];
    var locked := LockWaiters(s, q);
    locked.(conds := locked.conds[c := []],
            place := map t | t in locked.place ::
                       if locked.place[t].OnMutex? && Strays(s, q, t) then Astray(locked.place[t].mutex)
                       else locked.place[t])
  }

  /** What a broadcast comes to when all waiters wait with `m`: they queue up on `m` in order. If `m` is
      free, the first of them gets it. */
  ghost function SignalCommon(s: Sys, c: KCond, m: KMutex): Sys
    requires WaitWith(s, c, m)
  {
    var q, ms := s.conds[c], s.mutexes[m];
    var moved := s.(conds := s.conds[c := []],
                    place := map t | t in s.place :: if t in q then OnMutex(m) else s.place[t]);
    if q == [] then s
    else if ms.owner != null then SetMutex(moved, m, ms.(queue := ms.queue + q))
    else SetMutex(moved, m, MutexState(q[0], 1, ms.queue + q[1..])).(place := moved.place[q[0] := Lost])
  }

  /** The running thread is gone; kthread_main only stops to run. */
  function Stopped(s: Sys): Sys
    requires s.current != null
  {
    s.(current := null,
       place := if s.current == s.idle then s.place[s.idle := Reserve] else s.place - {s.current})
  }

  function Exit(s: Sys): Sys
    requires s.current != null
  {
    Dispatch(Stopped(s))
  }

  datatype Op =
    | Create(t: KThread)
    | NewMutex(m: KMutex)
    | NewCond(c: KCond)
    | DoTryLock(m: KMutex)
    | DoLock(m: KMutex)
    | DoUnlock(m: KMutex)
    | DoWait(c: KCond, m: KMutex)
    | DoSignalAll(c: KCond)
    | Yield
    | DoExit

  /** The operation names existing objects; those who wait on a condition are parked. */
  ghost predicate WellTyped(s: Sys, op: Op) {
    && s.current != null
    && match op
       case Create(t) => t !in s.place && t != s.idle
       case NewMutex(m) => m !in s.mutexes
       case NewCond(c) => c !in s.conds
       case DoTryLock(m) => m in s.mutexes
       case DoLock(m) => m in s.mutexes
       case DoUnlock(m) => m in s.mutexes
       case DoWait(c, m) => c in s.conds && m in s.mutexes
       case DoSignalAll(c) => Waiters(s, c)
       case Yield => true
       case DoExit => true
  }

  ghost function Step(s: Sys, op: Op): Sys
    requires WellTyped(s, op)
  {
    match op
    case Create(t) => Enqueue(s, t, null)
    case NewMutex(m) => SetMutex(s, m, MutexState(null, 0, []))
    case NewCond(c) => s.(conds := s.conds[c := []])
    case DoTryLock(m) => TryLock(s, m)
    case DoLock(m) => Lock(s, m)
    case DoUnlock(m) => Unlock(s, m)
    case DoWait(c, m) => Wait(s, c, m)
    case DoSignalAll(c) => SignalAll(s, c)
    case Yield => Dispatch(s)
    case DoExit => Exit(s)
  }

  // ---- Invariants ------------------------------------------------------------------------

  ghost predicate NoDup(q: seq<KThread>) {
    forall i, j :: 0 <= i < j < |q| ==> q[i] != q[j]
  }

  ghost predicate ReadyOk(s: Sys) {
    NoDup(s.ready) && forall t :: t in s.ready ==> t in s.place && s.place[t].Ready?
  }

  ghost predicate MutexQueueOk(s: Sys, m: KMutex)
    requires m in s.mutexes
  {
    && NoDup(s.mutexes[m].queue)
    && forall t :: t in s.mutexes[m].queue ==> t in s.place && s.place[t] == OnMutex(m)
  }

  ghost predicate CondQueueOk(s: Sys, c: KCond)
    requires c in s.conds
  {
    && NoDup(s.conds[c])
    && forall t :: t in s.conds[c] ==> t in s.place && s.place[t].OnCond? && s.place[t].cond == c
  }

  /** A thread that has a place in a queue is in that queue. */
  ghost predicate Listed(s: Sys, t: KThread)
    requires t in s.place
  {
    match s.place[t]
    case Running => true
    case Reserve => true
    case Ready(_) => t in s.ready
    case OnMutex(m) => m in s.mutexes && t in s.mutexes[m].queue
    case OnCond(c, m) => c in s.conds && t in s.conds[c] && m in s.mutexes
    case Lost => true
    case Astray(_) => true
  }

  /** The queues and the places agree; this is all the linked chains rely on. */
  ghost predicate QueuesOk(s: Sys) {
    && ReadyOk(s)
    && (forall m :: m in s.mutexes ==> MutexQueueOk(s, m))
    && (forall c :: c in s.conds ==> CondQueueOk(s, c))
    && (forall t :: t in s.place ==> Listed(s, t))
  }

  ghost predicate MutexOk(s: Sys, m: KMutex)
    requires m in s.mutexes
  {
    var ms := s.mutexes[m];
    if ms.owner == null then ms.queue == [] && ms.count == 0
    else 1 <= ms.count < COUNT_LIMIT && (!m.recursive ==> ms.count == 1)
  }

  /** What a thread's place promises about the mutex it is connected with. */
  ghost predicate ClaimOk(s: Sys, t: KThread)
    requires t in s.place
  {
    match s.place[t]
    case Running => t == s.current
    case Reserve => t == s.idle
    case Ready(m) => m != null ==> m in s.mutexes && s.mutexes[m].owner == t
    case OnMutex(m) => m in s.mutexes && s.mutexes[m].owner != t
    case OnCond(_, m) => m in s.mutexes && s.mutexes[m].owner != t
    case Lost => false
    case Astray(_) => false
  }

  /** The current thread runs. */
  ghost predicate CurrentOk(s: Sys) {
    s.current != null && s.idle in s.place && Runs(s, s.current)
  }

  ghost predicate Inv(s: Sys) {
    && QueuesOk(s)
    && (forall m :: m in s.mutexes ==> MutexOk(s, m))
    && (forall t :: t in s.place ==> ClaimOk(s, t))
    && CurrentOk(s)
  }

  /** Nobody is ready, and kthread_main has blocked. */
  predicate Stuck(s: Sys) { s.ready == [] && !InReserve(s) }

  /** When the current thread stops, somebody can run: a ready thread, or the idle one. */
  predicate Relieved(s: Sys) {
    s.ready != [] || (s.current != s.idle && InReserve(s))
  }

  predicate Blocks(s: Sys, m: KMutex)
    requires m in s.mutexes
  {
    s.mutexes[m].owner != null && s.mutexes[m].owner != s.current
  }

  /** What the callers must respect, in terms of the state the call finds. */
  ghost predicate Guard(s: Sys, op: Op)
    requires WellTyped(s, op)
  {
    match op
    case DoLock(m) =>
      var ms := s.mutexes[m];
      && !(ms.owner == s.current && m.recursive && ms.count == COUNT_LIMIT - 1)
      && (Blocks(s, m) ==> Relieved(s))
    case DoWait(c, m) =>
      var ms := s.mutexes[m];
      && !(ms.owner == s.current && ms.count > 1)
      && (Relieved(s) || (ms.owner == s.current && ms.queue != []))
    case DoSignalAll(c) => s.conds[c] == [] || (OneMutex(s, c) && s.mutexes[FirstWanted(s, c)].owner != null)
    case DoExit => s.current == s.idle || Relieved(s)
    case _ => true
  }

  /** The dispatch that the operation may end in finds a thread that can run. */
  ghost predicate FindsNext(s: Sys, op: Op)
    requires WellTyped(s, op)
  {
    match op
    case DoLock(m) => Blocks(s, m) ==> !Stuck(Join(s, m, s.current))
    case DoWait(c, m) => !Stuck(Unlock(Park(s, c, m, s.current), m))
    case DoExit => !Stuck(Stopped(s))
    case _ => true
  }

  // ---- Preservation ------------------------------------------------------------------------

  lemma NoDupAppend(q: seq<KThread>, t: KThread)
    requires NoDup(q) && t !in q
    ensures NoDup(q + [t])
  {
  }

  lemma NoDupTail(q: seq<KThread>)
    requires NoDup(q) && q != []
    ensures NoDup(q[1..]) && q[0] !in q[1..]
    ensures forall t :: t in q <==> t == q[0] || t in q[1..]
  {
    assert q == [q[0]] + q[1..];
  }

  /** A thread that is in no queue joins the ready queue. */
  lemma EnqueueQueues(s: Sys, t: KThread, woken: KMutex?)
    requires QueuesOk(s) && (t in s.place ==> s.place[t].Running? || s.place[t].Lost?)
    ensures QueuesOk(Enqueue(s, t, woken))
  {
    var s' := Enqueue(s, t, woken);
    NoDupAppend(s.ready, t);
    forall m | m in s'.mutexes ensures MutexQueueOk(s', m) {
      assert MutexQueueOk(s, m);
    }
    forall c | c in s'.conds ensures CondQueueOk(s', c) {
      assert CondQueueOk(s, c);
    }
    forall u | u in s'.place ensures Listed(s', u) {
      assert u != t ==> Listed(s, u);
    }
  }

  lemma PickNextQueues(s: Sys)
    requires QueuesOk(s)
    ensures QueuesOk(PickNext(s))
  {
    var s' := PickNext(s);
    if s.ready != [] {
      NoDupTail(s.ready);
    }
    forall m | m in s'.mutexes ensures MutexQueueOk(s', m) {
      assert MutexQueueOk(s, m);
    }
    forall c | c in s'.conds ensures CondQueueOk(s', c) {
      assert CondQueueOk(s, c);
    }
    forall u | u in s'.place ensures Listed(s', u) {
      assert u in s.place && Listed(s, u);
    }
  }

  lemma YieldedQueues(s: Sys)
    requires QueuesOk(s)
    ensures QueuesOk(Yielded(s))
  {
    if Runs(s, s.current) {
      if s.current == s.idle {
        ReserveQueues(s);
      } else {
        EnqueueQueues(s, s.current, null);
      }
    }
  }

  /** The idle thread gives way. */
  lemma ReserveQueues(s: Sys)
    requires QueuesOk(s) && s.idle in s.place && s.place[s.idle].Running?
    ensures QueuesOk(s.(place := s.place[s.idle := Reserve]))
  {
    var s' := s.(place := s.place[s.idle := Reserve]);
    forall m | m in s'.mutexes ensures MutexQueueOk(s', m) {
      assert MutexQueueOk(s, m);
    }
    forall c | c in s'.conds ensures CondQueueOk(s', c) {
      assert CondQueueOk(s, c);
    }
    forall u | u in s'.place ensures Listed(s', u) {
      assert u in s.place && Listed(s, u);
    }
  }

  lemma DispatchQueues(s: Sys)
    requires QueuesOk(s)
    ensures QueuesOk(Dispatch(s))
  {
    YieldedQueues(s);
    PickNextQueues(Yielded(s));
  }

  lemma JoinQueues(s: Sys, m: KMutex, t: KThread)
    requires QueuesOk(s) && m in s.mutexes && (t in s.place ==> s.place[t].Running?)
    ensures QueuesOk(Join(s, m, t))
  {
    var s' := Join(s, m, t);
    assert MutexQueueOk(s, m);
    NoDupAppend(s.mutexes[m].queue, t);
    forall m' | m' in s'.mutexes ensures MutexQueueOk(s', m') {
      assert MutexQueueOk(s, m');
    }
    forall c | c in s'.conds ensures CondQueueOk(s', c) {
      assert CondQueueOk(s, c);
    }
    forall u | u in s'.place ensures Listed(s', u) {
      assert u != t ==> Listed(s, u);
    }
  }

  lemma SetMutexQueues(s: Sys, m: KMutex, ms: MutexState)
    requires QueuesOk(s)
    requires if m in s.mutexes then ms.queue == s.mutexes[m].queue else ms.queue == []
    ensures QueuesOk(SetMutex(s, m, ms))
  {
    var s' := SetMutex(s, m, ms);
    forall m' | m' in s'.mutexes ensures MutexQueueOk(s', m') {
      assert m' in s.mutexes ==> MutexQueueOk(s, m');
    }
    forall c | c in s'.conds ensures CondQueueOk(s', c) {
      assert CondQueueOk(s, c);
    }
    forall u | u in s'.place ensures Listed(s', u) {
      assert Listed(s, u);
    }
  }

  lemma HandOverQueues(s: Sys, m: KMutex)
    requires QueuesOk(s) && m in s.mutexes && s.mutexes[m].queue != []
    ensures QueuesOk(HandOver(s, m))
  {
    var s' := HandOver(s, m);
    assert MutexQueueOk(s, m);
    NoDupTail(s.mutexes[m].queue);
    forall m' | m' in s'.mutexes ensures MutexQueueOk(s', m') {
      assert MutexQueueOk(s, m');
    }
    forall c | c in s'.conds ensures CondQueueOk(s', c) {
      assert CondQueueOk(s, c);
    }
    forall u | u in s'.place ensures Listed(s', u) {
      assert u in s.place && Listed(s, u);
    }
  }

  lemma ReleaseQueues(s: Sys, m: KMutex)
    requires QueuesOk(s) && m in s.mutexes
    ensures QueuesOk(Release(s, m))
  {
    var ms := s.mutexes[m];
    var left := (ms.count + COUNT_LIMIT - 1) % COUNT_LIMIT;
    if m.recursive && left > 0 {
      SetMutexQueues(s, m, ms.(count := left));
    } else if ms.queue == [] {
      SetMutexQueues(s, m, MutexState(null, left, []));
    } else {
      HandOverQueues(s, m);
      EnqueueQueues(HandOver(s, m), ms.queue[0], m);
    }
  }

  lemma ParkQueues(s: Sys, c: KCond, m: KMutex, t: KThread)
    requires QueuesOk(s) && c in s.conds && m in s.mutexes && (t in s.place ==> s.place[t].Running?)
    ensures QueuesOk(Park(s, c, m, t))
  {
    var s' := Park(s, c, m, t);
    assert CondQueueOk(s, c);
    NoDupAppend(s.conds[c], t);
    forall m' | m' in s'.mutexes ensures MutexQueueOk(s', m') {
      assert MutexQueueOk(s, m');
    }
    forall c' | c' in s'.conds ensures CondQueueOk(s', c') {
      assert CondQueueOk(s, c');
    }
    forall u | u in s'.place ensures Listed(s', u) {
      assert u != t ==> Listed(s, u);
    }
  }

  lemma NoDupConcat(p: seq<KThread>, q: seq<KThread>)
    requires NoDup(p) && NoDup(q) && forall t :: t in p ==> t !in q
    ensures NoDup(p + q)
  {
    var r := p + q;
    forall i, j | 0 <= i < j < |r| ensures r[i] != r[j] {
      if i < |p| && j >= |p| {
        assert r[i] in p && r[j] in q;
      }
    }
  }

  /** Where the locks of a broadcast leave a thread. */
  function Served(s: Sys, q: seq<KThread>, m: KMutex): map<KThread, Place> {
    map t | t in s.place :: if t in q then OnMutex(m) else s.place[t]
  }

  /** While the mutex is owned, the locks of its waiters append them to its queue. */
  lemma {:induction false} LockWaitersOwned(s: Sys, q: seq<KThread>, m: KMutex)
    requires NoDup(q) && m in s.mutexes && s.mutexes[m].owner != null
    requires forall t :: t in q ==> t in s.place && s.place[t].OnCond? && s.place[t].mutex == m
    ensures LockWaiters(s, q)
            == SetMutex(s, m, s.mutexes[m].(queue := s.mutexes[m].queue + q)).(place := Served(s, q, m))
    decreases |q|
  {
    var ms := s.mutexes[m];
    if q == [] {
      assert Served(s, q, m) == s.place && ms.queue + q == ms.queue;
      assert SetMutex(s, m, ms) == s;
    } else {
      NoDupTail(q);
      var s' := Join(s, m, q[0]);
      LockWaitersOwned(s', q[1..], m);
      assert ms.queue + q == (ms.queue + [q[0]]) + q[1..];
      assert Served(s', q[1..], m) == Served(s, q, m);
    }
  }

  lemma OneLast(s: Sys, c: KCond, t: KThread)
    requires Waiters(s, c) && OneMutex(s, c)
    ensures !Strays(s, s.conds[c], t)
  {
    var q := s.conds[c];
    forall i: nat ensures !LastOfItsMutex(s, q, i) {
      if i < |q| - 1 {
        assert q[i] in q && q[i + 1] in q;
      }
    }
  }

  lemma CommonWaits(s: Sys, c: KCond)
    requires Waiters(s, c) && OneMutex(s, c) && s.conds[c] != []
    ensures WaitWith(s, c, FirstWanted(s, c))
  {
    var q, m := s.conds[c], FirstWanted(s, c);
    assert q[0] in q;
    forall t | t in q ensures t in s.place && s.place[t] == OnCond(c, m) && s.mutexes[m].owner != t {
      assert WaiterOk(s, c, t);
    }
  }

  lemma NobodyStrays(s: Sys, c: KCond)
    requires Waiters(s, c) && OneMutex(s, c)
    ensures forall t :: !Strays(s, s.conds[c], t)
  {
    forall t ensures !Strays(s, s.conds[c], t) {
      OneLast(s, c, t);
    }
  }

  lemma SignalAllOwned(s: Sys, c: KCond, m: KMutex)
    requires WaitWith(s, c, m) && NoDup(s.conds[c]) && s.mutexes[m].owner != null
    requires forall t :: !Strays(s, s.conds[c], t)
    ensures SignalAll(s, c) == if s.conds[c] == [] then s else SignalCommon(s, c, m)
  {
    var q, ms := s.conds[c], s.mutexes[m];
    LockWaitersOwned(s, q, m);
    assert SignalAll(s, c).place == Served(s, q, m);
    if q == [] {
      NobodyWaits(s, c);
    }
  }

  lemma SignalAllFree(s: Sys, c: KCond, m: KMutex)
    requires WaitWith(s, c, m) && NoDup(s.conds[c]) && s.mutexes[m].owner == null && s.conds[c] != []
    requires forall t :: !Strays(s, s.conds[c], t)
    ensures SignalAll(s, c) == SignalCommon(s, c, m)
  {
    var q := s.conds[c];
    NoDupTail(q);
    var s1 := LockWaiter(s, q[0]);
    LockWaitersOwned(s1, q[1..], m);
    assert SignalAll(s, c).place == Served(s1, q[1..], m);
    assert Served(s1, q[1..], m) == SignalCommon(s, c, m).place;
    assert SignalAll(s, c).mutexes == SignalCommon(s, c, m).mutexes;
  }

  lemma CommonIsOne(s: Sys, c: KCond, m: KMutex)
    requires Waiters(s, c) && WaitWith(s, c, m)
    ensures OneMutex(s, c)
  {
  }

  /** A broadcast to waiters of one mutex, in closed form. */
  lemma SignalAllCommon(s: Sys, c: KCond, m: KMutex)
    requires QueuesOk(s) && Waiters(s, c) && WaitWith(s, c, m)
    ensures OneMutex(s, c) && SignalAll(s, c) == SignalCommon(s, c, m)
  {
    hide SignalAll, Strays, OneMutex;
    assert CondQueueOk(s, c);
    CommonIsOne(s, c, m);
    NobodyStrays(s, c);
    if s.mutexes[m].owner != null {
      SignalAllOwned(s, c, m);
    } else if s.conds[c] != [] {
      SignalAllFree(s, c, m);
    } else {
      NobodyWaits(s, c);
    }
  }

  lemma SignalCommonQueues(s: Sys, c: KCond, m: KMutex)
    requires QueuesOk(s) && WaitWith(s, c, m)
    ensures QueuesOk(SignalCommon(s, c, m))
  {
    var s' := SignalCommon(s, c, m);
    var q := s.conds[c];
    assert CondQueueOk(s, c) && MutexQueueOk(s, m);
    if q != [] {
      NoDupTail(q);
      NoDupConcat(s.mutexes[m].queue, q);
      NoDupConcat(s.mutexes[m].queue, q[1..]);
    }
    forall m' | m' in s'.mutexes ensures MutexQueueOk(s', m') {
      assert MutexQueueOk(s, m');
    }
    forall c' | c' in s'.conds ensures CondQueueOk(s', c') {
      assert CondQueueOk(s, c');
    }
    forall u | u in s'.place ensures Listed(s', u) {
      assert u in s.place && Listed(s, u);
    }
  }

  lemma SignalAllQueues(s: Sys, c: KCond)
    requires QueuesOk(s) && Waiters(s, c) && OneMutex(s, c)
    ensures QueuesOk(SignalAll(s, c))
  {
    hide QueuesOk, SignalAll;
    if s.conds[c] == [] {
      NobodyWaits(s, c);
    } else {
      CommonWaits(s, c);
      SignalAllCommon(s, c, FirstWanted(s, c));
      SignalCommonQueues(s, c, FirstWanted(s, c));
    }
  }

  lemma NobodyWaits(s: Sys, c: KCond)
    requires c in s.conds && s.conds[c] == []
    ensures SignalAll(s, c) == s
  {
    assert SignalAll(s, c).place == s.place && SignalAll(s, c).conds == s.conds;
  }

  /** The running thread leaves. */
  lemma LeaveQueues(s: Sys)
    requires QueuesOk(s) && CurrentOk(s)
    ensures QueuesOk(Stopped(s))
  {
    var s' := Stopped(s);
    forall m | m in s'.mutexes ensures MutexQueueOk(s', m) {
      assert MutexQueueOk(s, m);
    }
    forall c | c in s'.conds ensures CondQueueOk(s', c) {
      assert CondQueueOk(s, c);
    }
    forall u | u in s'.place ensures Listed(s', u) {
      assert u in s.place && Listed(s, u);
    }
  }

  lemma NewCondQueues(s: Sys, c: KCond)
    requires QueuesOk(s) && c !in s.conds
    ensures QueuesOk(s.(conds := s.conds[c := []]))
  {
    var s' := s.(conds := s.conds[c := []]);
    forall m | m in s'.mutexes ensures MutexQueueOk(s', m) {
      assert MutexQueueOk(s, m);
    }
    forall c' | c' in s'.conds ensures CondQueueOk(s', c') {
      assert c' in s.conds ==> CondQueueOk(s, c');
    }
    forall u | u in s'.place ensures Listed(s', u) {
      assert Listed(s, u);
    }
  }

  /** The queue structure survives every step of a running thread, guarded or not, but a broadcast to
      waiters of several mutexes. */
  lemma StepQueues(s: Sys, op: Op)
    requires QueuesOk(s) && CurrentOk(s) && WellTyped(s, op) && (op.DoSignalAll? ==> OneMutex(s, op.c))
    ensures QueuesOk(Step(s, op))
  {
    match op {
      case Create(t) => EnqueueQueues(s, t, null);
      case NewMutex(m) => SetMutexQueues(s, m, MutexState(null, 0, []));
      case NewCond(c) => NewCondQueues(s, c);
      case DoTryLock(m) =>
        SetMutexQueues(s, m, s.mutexes[m].(owner := s.current, count := 1));
      case DoLock(m) =>
        var ms := s.mutexes[m];
        if ms.owner == null {
          SetMutexQueues(s, m, s.mutexes[m].(owner := s.current, count := 1));
        } else if ms.owner == s.current {
          SetMutexQueues(s, m, ms.(count := (ms.count + 1) % COUNT_LIMIT));
        } else {
          JoinQueues(s, m, s.current);
          DispatchQueues(Join(s, m, s.current));
        }
      case DoUnlock(m) => ReleaseQueues(s, m);
      case DoWait(c, m) =>
        ParkQueues(s, c, m, s.current);
        ReleaseQueues(Park(s, c, m, s.current), m);
        DispatchQueues(Unlock(Park(s, c, m, s.current), m));
      case DoSignalAll(c) => SignalAllQueues(s, c);
      case Yield => DispatchQueues(s);
      case DoExit =>
        LeaveQueues(s);
        DispatchQueues(Stopped(s));
    }
  }

  // ---- The invariant is kept exactly when the guard holds -----------------------------------

  /** The invariant without a running thread: what holds when kthread_dispatch is entered. */
  ghost predicate Switching(s: Sys) {
    && QueuesOk(s)
    && (forall m :: m in s.mutexes ==> MutexOk(s, m))
    && (forall t :: t in s.place ==> ClaimOk(s, t))
    && s.idle in s.place
  }

  lemma YieldedKeeps(s: Sys)
    requires Switching(s)
    ensures Switching(Yielded(s)) && forall t :: t in Yielded(s).place ==> !Yielded(s).place[t].Running?
  {
    YieldedQueues(s);
    var s' := Yielded(s);
    forall m | m in s'.mutexes ensures MutexOk(s', m) {
      assert MutexOk(s, m);
    }
    forall t | t in s'.place ensures ClaimOk(s', t) && !s'.place[t].Running? {
      assert t in s.place && ClaimOk(s, t);
    }
  }

  lemma PickNextKeeps(s: Sys)
    requires Switching(s) && !Stuck(s) && forall t :: t in s.place ==> !s.place[t].Running?
    ensures Inv(PickNext(s))
  {
    PickNextQueues(s);
    var s' := PickNext(s);
    forall m | m in s'.mutexes ensures MutexOk(s', m) {
      assert MutexOk(s, m);
    }
    forall t | t in s'.place ensures ClaimOk(s', t) {
      assert t in s.place && ClaimOk(s, t);
    }
    assert s.ready != [] ==> s.ready[0] in s.ready;
  }

  /** A dispatch ends with a thread that runs, unless it finds nobody. */
  lemma DispatchKeeps(s: Sys)
    requires Switching(s)
    ensures Inv(Dispatch(s)) <==> !Stuck(Yielded(s))
  {
    YieldedKeeps(s);
    if !Stuck(Yielded(s)) {
      PickNextKeeps(Yielded(s));
    }
  }

  /** The running thread blocks on an owned mutex. */
  lemma JoinKeeps(s: Sys, m: KMutex)
    requires Inv(s) && m in s.mutexes
    requires s.mutexes[m].owner != null && s.mutexes[m].owner != s.current
    ensures Switching(Join(s, m, s.current))
  {
    var s' := Join(s, m, s.current);
    JoinQueues(s, m, s.current);
    forall m' | m' in s'.mutexes ensures MutexOk(s', m') {
      assert MutexOk(s, m');
    }
    forall t | t in s'.place ensures ClaimOk(s', t) {
      assert t != s.current ==> ClaimOk(s, t);
    }
  }

  lemma ReleaseKeepsMutex(s: Sys, m: KMutex, m': KMutex)
    requires QueuesOk(s) && m in s.mutexes && m' in s.mutexes && MutexOk(s, m) && MutexOk(s, m')
    requires s.current != null && s.mutexes[m].owner == s.current
    ensures m' in Release(s, m).mutexes && MutexOk(Release(s, m), m')
  {
    assert MutexQueueOk(s, m);
  }

  lemma ReleaseKeepsClaim(s: Sys, m: KMutex, t: KThread)
    requires QueuesOk(s) && m in s.mutexes && s.current != null && s.mutexes[m].owner == s.current
    requires s.current in s.place ==> s.place[s.current].Running?
    requires t in s.place && ClaimOk(s, t)
    ensures t in Release(s, m).place && ClaimOk(Release(s, m), t)
  {
    var q := s.mutexes[m].queue;
    assert MutexQueueOk(s, m) && Listed(s, t);
    if q != [] {
      NoDupTail(q);
      assert q[0] in q;
    }
  }

  lemma ReleaseFrame(s: Sys, m: KMutex)
    requires QueuesOk(s) && m in s.mutexes
    ensures var s' := Release(s, m);
      s'.mutexes.Keys == s.mutexes.Keys && s'.place.Keys == s.place.Keys && s'.idle == s.idle && s'.current == s.current
  {
    assert MutexQueueOk(s, m);
    assert s.mutexes[m].queue != [] ==> s.mutexes[m].queue[0] in s.mutexes[m].queue;
  }

  /** Release by the running owner: every other claim survives, and a woken thread gets one. */
  lemma ReleaseKeeps(s: Sys, m: KMutex)
    requires Switching(s) && m in s.mutexes && s.current != null && s.mutexes[m].owner == s.current
    requires s.current in s.place ==> s.place[s.current].Running?
    ensures Switching(Release(s, m))
  {
    hide Release, MutexOk, ClaimOk, QueuesOk;
    var s' := Release(s, m);
    ReleaseQueues(s, m);
    ReleaseFrame(s, m);
    forall m' | m' in s'.mutexes ensures MutexOk(s', m') {
      assert m' in s.mutexes.Keys;
      ReleaseKeepsMutex(s, m, m');
    }
    forall t | t in s'.place ensures ClaimOk(s', t) {
      assert t in s.place.Keys;
      ReleaseKeepsClaim(s, m, t);
    }
  }

  /** Parking first and releasing first come to the same. */
  lemma ParkCommutes(s: Sys, c: KCond, m: KMutex, t: KThread)
    requires QueuesOk(s) && c in s.conds && m in s.mutexes && t !in s.mutexes[m].queue
    ensures Release(Park(s, c, m, t), m) == Park(Release(s, m), c, m, t)
  {
    var q := s.mutexes[m].queue;
    if q != [] {
      assert q[0] in q;
      assert Release(Park(s, c, m, t), m).place == Park(Release(s, m), c, m, t).place;
    }
  }

  lemma ParkKeeps(s: Sys, c: KCond, m: KMutex, t: KThread)
    requires Switching(s) && c in s.conds && m in s.mutexes && s.mutexes[m].owner != t
    requires t in s.place && s.place[t].Running?
    ensures Switching(Park(s, c, m, t))
  {
    var s' := Park(s, c, m, t);
    ParkQueues(s, c, m, t);
    forall m' | m' in s'.mutexes ensures MutexOk(s', m') {
      assert MutexOk(s, m');
    }
    forall u | u in s'.place ensures ClaimOk(s', u) {
      assert u != t ==> ClaimOk(s, u);
    }
  }

  lemma WaitSwitches(s: Sys, c: KCond, m: KMutex)
    requires Inv(s) && WellTyped(s, DoWait(c, m)) && !(s.mutexes[m].owner == s.current && s.mutexes[m].count > 1)
    ensures var s' := Unlock(Park(s, c, m, s.current), m);
      && Switching(s') && !Runs(s', s'.current)
      && (Stuck(s') <==> !Guard(s, DoWait(c, m)))
  {
    var t := s.current;
    assert MutexOk(s, m) && MutexQueueOk(s, m) && ClaimOk(s, t);
    assert s.idle in s.place && Listed(s, s.idle);
    if s.mutexes[m].owner == t {
      assert t !in s.mutexes[m].queue;
      ParkCommutes(s, c, m, t);
      ReleaseKeeps(s, m);
      ReleaseKeepsRunner(s, m);
      ParkKeeps(Release(s, m), c, m, t);
    } else {
      ParkKeeps(s, c, m, t);
    }
  }

  lemma ReleaseKeepsRunner(s: Sys, m: KMutex)
    requires QueuesOk(s) && CurrentOk(s) && m in s.mutexes
    ensures Runs(Release(s, m), s.current)
  {
    assert MutexQueueOk(s, m);
  }

  lemma WaitKeeps(s: Sys, c: KCond, m: KMutex)
    requires Inv(s) && WellTyped(s, DoWait(c, m)) && Guard(s, DoWait(c, m))
    ensures Inv(Wait(s, c, m))
  {
    WaitSwitches(s, c, m);
    DispatchKeeps(Unlock(Park(s, c, m, s.current), m));
  }

  /** A wait inside a nested lock parks the thread while it still owns the mutex; and a wait that leaves
      nobody to run makes a blocked kthread_main current. */
  lemma WaitBreaks(s: Sys, c: KCond, m: KMutex)
    requires Inv(s) && WellTyped(s, DoWait(c, m)) && !Guard(s, DoWait(c, m))
    ensures !Inv(Wait(s, c, m))
  {
    var t := s.current;
    if s.mutexes[m].owner == t && s.mutexes[m].count > 1 {
      NestedWaitBreaks(s, c, m);
    } else {
      WaitSwitches(s, c, m);
      DispatchKeeps(Unlock(Park(s, c, m, t), m));
    }
  }

  lemma DispatchKeepsWaiter(s: Sys, t: KThread)
    requires t in s.place && (s.place[t].OnCond? || s.place[t].OnMutex?) && t !in s.ready && s.idle in s.place
    ensures t in Dispatch(s).place && Dispatch(s).place[t] == s.place[t] && Dispatch(s).mutexes == s.mutexes
  {
    assert t !in Yielded(s).ready;
  }

  /** A wait inside a nested lock leaves its caller parked, as the owner of the mutex. */
  lemma NestedWaitStays(s: Sys, c: KCond, m: KMutex)
    requires Inv(s) && WellTyped(s, DoWait(c, m)) && s.mutexes[m].owner == s.current && s.mutexes[m].count > 1
    ensures var s' := Wait(s, c, m);
      && s.current in s'.place && s'.place[s.current] == OnCond(c, m)
      && m in s'.mutexes && s'.mutexes[m].owner == s.current
  {
    hide Dispatch, QueuesOk;
    var t := s.current;
    var parked := Park(s, c, m, t);
    var unlocked := Unlock(parked, m);
    assert MutexOk(s, m);
    assert unlocked == SetMutex(parked, m, parked.mutexes[m].(count := s.mutexes[m].count - 1));
    RunnerNotReady(s);
    DispatchKeepsWaiter(unlocked, t);
  }

  lemma NestedWaitBreaks(s: Sys, c: KCond, m: KMutex)
    requires Inv(s) && WellTyped(s, DoWait(c, m)) && s.mutexes[m].owner == s.current && s.mutexes[m].count > 1
    ensures !Inv(Wait(s, c, m))
  {
    hide Dispatch, QueuesOk;
    NestedWaitStays(s, c, m);
    assert !ClaimOk(Wait(s, c, m), s.current);
  }

  lemma RunnerNotReady(s: Sys)
    requires QueuesOk(s) && CurrentOk(s)
    ensures s.current !in s.ready
  {
  }

  lemma LockSwitches(s: Sys, m: KMutex)
    requires Inv(s) && m in s.mutexes && Blocks(s, m)
    ensures var s' := Join(s, m, s.current);
      && Switching(s') && !Runs(s', s'.current) && (Stuck(s') <==> !Relieved(s))
  {
    JoinKeeps(s, m);
    assert ClaimOk(s, s.current) && s.idle in s.place && Listed(s, s.idle);
  }

  lemma LockKeeps(s: Sys, m: KMutex)
    requires Inv(s) && WellTyped(s, DoLock(m)) && Guard(s, DoLock(m))
    ensures Inv(Lock(s, m))
  {
    assert MutexOk(s, m);
    if Blocks(s, m) {
      LockSwitches(s, m);
      DispatchKeeps(Join(s, m, s.current));
    } else {
      var s' := Lock(s, m);
      StepQueues(s, DoLock(m));
      forall m' | m' in s'.mutexes ensures MutexOk(s', m') {
        assert MutexOk(s, m');
      }
      forall u | u in s'.place ensures ClaimOk(s', u) {
        assert ClaimOk(s, u) && Listed(s, u);
      }
    }
  }

  /** A recursive count overflows, or the lock leaves nobody to run and makes a blocked kthread_main
      current. */
  lemma LockBreaks(s: Sys, m: KMutex)
    requires Inv(s) && WellTyped(s, DoLock(m)) && !Guard(s, DoLock(m))
    ensures !Inv(Lock(s, m))
  {
    if Blocks(s, m) {
      LockSwitches(s, m);
      DispatchKeeps(Join(s, m, s.current));
    } else {
      assert !MutexOk(Lock(s, m), m);
    }
  }

  lemma SignalCommonKeeps(s: Sys, c: KCond, m: KMutex)
    requires Inv(s) && WaitWith(s, c, m) && (s.conds[c] == [] || s.mutexes[m].owner != null)
    ensures Inv(SignalCommon(s, c, m))
  {
    var s' := SignalCommon(s, c, m);
    SignalCommonQueues(s, c, m);
    forall m' | m' in s'.mutexes ensures MutexOk(s', m') {
      assert MutexOk(s, m');
    }
    forall u | u in s'.place ensures ClaimOk(s', u) {
      assert ClaimOk(s, u);
    }
  }

  lemma SignalAllKeeps(s: Sys, c: KCond)
    requires Inv(s) && WellTyped(s, DoSignalAll(c)) && Guard(s, DoSignalAll(c))
    ensures Inv(SignalAll(s, c))
  {
    hide SignalAll, SignalCommon, ClaimOk, MutexOk;
    if s.conds[c] == [] {
      NobodyWaits(s, c);
    } else {
      var m := FirstWanted(s, c);
      CommonWaits(s, c);
      SignalAllCommon(s, c, m);
      SignalCommonKeeps(s, c, m);
    }
  }

  /** A thread that has locked its mutex in a broadcast is its owner and nowhere, or in its queue. */
  predicate Handled(s: Sys, t: KThread, m: KMutex) {
    t in s.place && (s.place[t].Lost? || s.place[t] == OnMutex(m))
  }

  lemma {:induction false} LockWaitersKeep(s: Sys, q: seq<KThread>, t: KThread)
    requires t in s.place && t !in q
    ensures t in LockWaiters(s, q).place && LockWaiters(s, q).place[t] == s.place[t]
    decreases |q|
  {
    if q != [] {
      LockWaitersKeep(LockWaiter(s, q[0]), q[1..], t);
    }
  }

  lemma {:induction false} LockWaitersHandle(s: Sys, q: seq<KThread>, i: nat)
    requires NoDup(q) && i < |q|
    requires forall t :: t in q ==> t in s.place && s.place[t].OnCond? && s.place[t].mutex in s.mutexes
    ensures Handled(LockWaiters(s, q), q[i], Wants(s, q[i]))
    decreases |q|
  {
    NoDupTail(q);
    var s' := LockWaiter(s, q[0]);
    if i == 0 {
      LockWaitersKeep(s', q[1..], q[0]);
    } else {
      assert q[i] in q && q[i] == q[1..][i - 1];
      LockWaitersHandle(s', q[1..], i - 1);
    }
  }

  /** Among waiters of several mutexes, the last one for some mutex is not the last one. */
  lemma {:induction false} SomebodyIsLast(s: Sys, q: seq<KThread>, i: nat) returns (l: nat)
    requires forall t :: t in q ==> t in s.place && s.place[t].OnCond?
    requires i < |q| && Wants(s, q[i]) != Wants(s, q[|q| - 1])
    ensures LastOfItsMutex(s, q, l) && Wants(s, q[l]) == Wants(s, q[i])
    decreases |q| - i
  {
    if j: nat :| i < j < |q| && Wants(s, q[j]) == Wants(s, q[i]) {
      l := SomebodyIsLast(s, q, j);
    } else {
      l := i;
    }
  }

  lemma ManyMutexes(s: Sys, c: KCond) returns (l: nat)
    requires Waiters(s, c) && !OneMutex(s, c)
    ensures LastOfItsMutex(s, s.conds[c], l)
  {
    var q := s.conds[c];
    forall t | t in q ensures t in s.place && s.place[t].OnCond? {
      assert WaiterOk(s, c, t);
    }
    var t, u :| t in q && u in q && Wants(s, t) != Wants(s, u);
    var v := if Wants(s, t) != Wants(s, q[|q| - 1]) then t else u;
    var i: nat :| i < |q| && q[i] == v;
    l := SomebodyIsLast(s, q, i);
  }

  /** A broadcast to waiters of several mutexes leaves one of them astray, or as an owner in no queue. */
  lemma MixedSignalBreaks(s: Sys, c: KCond)
    requires Inv(s) && WellTyped(s, DoSignalAll(c)) && !OneMutex(s, c)
    ensures !Inv(SignalAll(s, c))
  {
    hide LockWaiters;
    var q := s.conds[c];
    assert CondQueueOk(s, c);
    forall t | t in q ensures t in s.place && s.place[t].OnCond? && s.place[t].mutex in s.mutexes {
      assert WaiterOk(s, c, t);
    }
    var l := ManyMutexes(s, c);
    LockWaitersHandle(s, q, l);
    assert Strays(s, q, q[l]);
    assert !ClaimOk(SignalAll(s, c), q[l]);
  }

  lemma FreeSignalBreaks(s: Sys, c: KCond)
    requires Inv(s) && WellTyped(s, DoSignalAll(c)) && OneMutex(s, c) && !Guard(s, DoSignalAll(c))
    ensures !Inv(SignalAll(s, c))
  {
    var t, m := s.conds[c][0], FirstWanted(s, c);
    assert t in s.conds[c];
    CommonWaits(s, c);
    SignalAllCommon(s, c, m);
    assert SignalCommon(s, c, m).place[t] == Lost;
    assert !ClaimOk(SignalCommon(s, c, m), t);
  }

  /** A broadcast breaks the invariant when the waiters wait with several mutexes, or with a free one. */
  lemma SignalAllBreaks(s: Sys, c: KCond)
    requires Inv(s) && WellTyped(s, DoSignalAll(c)) && !Guard(s, DoSignalAll(c))
    ensures !Inv(SignalAll(s, c))
  {
    hide Inv, SignalAll;
    if OneMutex(s, c) {
      FreeSignalBreaks(s, c);
    } else {
      MixedSignalBreaks(s, c);
    }
  }

  /** Whoever waits in a sound system is parked. */
  lemma WaitersAreParked(s: Sys, c: KCond)
    requires Inv(s) && c in s.conds
    ensures Waiters(s, c)
  {
    assert CondQueueOk(s, c);
    forall t | t in s.conds[c] ensures WaiterOk(s, c, t) {
      assert ClaimOk(s, t);
    }
  }

  lemma OtherStepsKeep(s: Sys, op: Op)
    requires Inv(s) && WellTyped(s, op)
    requires op.Create? || op.NewMutex? || op.NewCond? || op.DoTryLock?
    ensures Inv(Step(s, op))
  {
    var s' := Step(s, op);
    StepQueues(s, op);
    forall m | m in s'.mutexes ensures MutexOk(s', m) {
      assert m in s.mutexes ==> MutexOk(s, m);
    }
    forall u | u in s'.place ensures ClaimOk(s', u) {
      assert u in s.place ==> ClaimOk(s, u) && Listed(s, u);
    }
  }

  lemma UnlockKeeps(s: Sys, m: KMutex)
    requires Inv(s) && m in s.mutexes
    ensures Inv(Unlock(s, m))
  {
    if s.mutexes[m].owner == s.current {
      ReleaseKeeps(s, m);
      ReleaseKeepsRunner(s, m);
    }
  }

  /** A yield always finds a thread to run. */
  lemma YieldKeeps(s: Sys)
    requires Inv(s)
    ensures Inv(Dispatch(s))
  {
    DispatchKeeps(s);
  }

  lemma StoppedSwitches(s: Sys)
    requires Inv(s)
    ensures Switching(Stopped(s)) && (Stuck(Stopped(s)) <==> s.current != s.idle && !Relieved(s))
  {
    var s' := Stopped(s);
    LeaveQueues(s);
    assert ClaimOk(s, s.current) && Listed(s, s.idle);
    forall m | m in s'.mutexes ensures MutexOk(s', m) {
      assert MutexOk(s, m);
    }
    forall u | u in s'.place ensures ClaimOk(s', u) {
      assert u in s.place && ClaimOk(s, u);
    }
  }

  /** An exit keeps the invariant unless it leaves nobody to run. */
  lemma ExitKeepsIff(s: Sys)
    requires Inv(s)
    ensures Inv(Exit(s)) <==> s.current == s.idle || Relieved(s)
  {
    StoppedSwitches(s);
    DispatchKeeps(Stopped(s));
  }

  /** A guarded step never dispatches into nothing. */
  lemma GuardedFindsNext(s: Sys, op: Op)
    requires Inv(s) && WellTyped(s, op) && Guard(s, op)
    ensures FindsNext(s, op)
  {
    match op {
      case DoLock(m) => if Blocks(s, m) { LockSwitches(s, m); }
      case DoWait(c, m) => WaitSwitches(s, c, m);
      case DoExit => StoppedSwitches(s);
      case _ =>
    }
  }

  /** Main result: a step keeps the invariant if and only if its guard holds. */
  lemma StepKeepsIffGuard(s: Sys, op: Op)
    requires Inv(s) && WellTyped(s, op)
    ensures Inv(Step(s, op)) <==> Guard(s, op)
  {
    match op {
      case DoLock(m) =>
        if Guard(s, op) { LockKeeps(s, m); } else { LockBreaks(s, m); }
      case DoWait(c, m) =>
        if Guard(s, op) { WaitKeeps(s, c, m); } else { WaitBreaks(s, c, m); }
      case DoSignalAll(c) =>
        if Guard(s, op) { SignalAllKeeps(s, c); } else { SignalAllBreaks(s, c); }
      case DoExit => ExitKeepsIff(s);
      case DoUnlock(m) => UnlockKeeps(s, m);
      case Yield => YieldKeeps(s);
      case _ => OtherStepsKeep(s, op);
    }
  }
}
