/** The kernel records as one memory image, and when an image holds the queues of a system.

    Each operation on images is what a few lines of the kernel do to the records; the lemma
    beside it says what that does to the queues.
 */
module QueueImage {
  import opened KernelObjects
  import S = SyncModel

  datatype ThreadWords = ThreadWords(state: ThreadState, next: KThread?, waitingOn: KMutex?, a0: Status)
  datatype MutexWords = MutexWords(owner: KThread?, count: int, head: KThread?, tail: KThread?)
  datatype CondWords = CondWords(head: KThread?, tail: KThread?)

  type Threads = map<KThread, ThreadWords>

  datatype Image = Image(
    current: KThread?,
    head: KThread?,
    tail: KThread?,
    threads: Threads,
    mutexes: map<KMutex, MutexWords>,
    conds: map<KCond, CondWords>)

  // ---- Chains ----------------------------------------------------------------------------

  function First(q: seq<KThread>): KThread? {
    if q == [] then null else q[0]
  }

  function Last(q: seq<KThread>): KThread? {
    if q == [] then null else q[|q| - 1]
  }

  /** Element `i` links to its successor in `q`; the last one links to `end`. */
  ghost predicate LinkIs(ts: Threads, q: seq<KThread>, i: int, end: KThread?)
    requires 0 <= i < |q|
  {
    q[i] in ts && ts[q[i]].next == if i + 1 < |q| then q[i + 1] else end
  }

  /** `q` is linked by `next` from `head` to `tail`, whose own link is null. */
  ghost predicate Chain(ts: Threads, q: seq<KThread>, head: KThread?, tail: KThread?) {
    && head == First(q) && tail == Last(q)
    && forall i :: 0 <= i < |q| ==> LinkIs(ts, q, i, null)
  }

  function SetNext(ts: Threads, a: KThread?, t: KThread): Threads
    requires a == null || a in ts
  {
    if a == null then ts else ts[a := ts[a].(next := t)]
  }

  lemma ChainFrame(ts: Threads, ts': Threads, q: seq<KThread>, head: KThread?, tail: KThread?)
    requires Chain(ts, q, head, tail)
    requires forall t :: t in q && t in ts ==> t in ts' && ts'[t].next == ts[t].next
    ensures Chain(ts', q, head, tail)
  {
    forall i | 0 <= i < |q| ensures LinkIs(ts', q, i, null) {
      assert LinkIs(ts, q, i, null);
      var t := q[i];
      assert t in q && t in ts;
    }
  }

  lemma TailIsMapped(ts: Threads, q: seq<KThread>, head: KThread?, tail: KThread?)
    requires Chain(ts, q, head, tail)
    ensures tail == null <==> q == []
    ensures head == null <==> q == []
    ensures tail != null ==> tail in q && tail in ts
    ensures head != null ==> head in q && head in ts && ts[head].next == First(q[1..])
  {
    if q != [] {
      assert LinkIs(ts, q, |q| - 1, null);
      assert LinkIs(ts, q, 0, null);
    }
  }

  /** The old tail is made to point at `t`, whose link is null. */
  lemma ChainAppend(ts: Threads, q: seq<KThread>, head: KThread?, tail: KThread?, t: KThread)
    requires Chain(ts, q, head, tail) && S.NoDup(q) && t !in q
    requires t in ts && ts[t].next == null && (tail == null || tail in ts)
    ensures Chain(SetNext(ts, tail, t), q + [t], if q == [] then t else head, t)
  {
    var r, ts' := q + [t], SetNext(ts, tail, t);
    forall i | 0 <= i < |r| ensures LinkIs(ts', r, i, null) {
      if i < |q| {
        assert LinkIs(ts, q, i, null);
      }
    }
  }

  lemma ChainTail(ts: Threads, q: seq<KThread>, head: KThread?, tail: KThread?)
    requires Chain(ts, q, head, tail) && q != []
    ensures q[0] in ts && var next := ts[q[0]].next; Chain(ts, q[1..], next, if next == null then null else tail)
  {
    assert LinkIs(ts, q, 0, null);
    forall i | 0 <= i < |q[1..]| ensures LinkIs(ts, q[1..], i, null) {
      assert LinkIs(ts, q, i + 1, null);
    }
  }

  // ---- Images of a system --------------------------------------------------------------------

  /** The tag, link and wait pointer of a thread are those of its place. */
  ghost predicate Tagged(ts: Threads, t: KThread, p: S.Place) {
    t in ts &&
    match p
    case Running => ts[t].state == RUNNING && ts[t].next == null && ts[t].waitingOn == null
    case Reserve => ts[t].state == RUNNING && ts[t].next == null && ts[t].waitingOn == null
    case Ready(_) => ts[t].state == READY && ts[t].waitingOn == null
    case OnMutex(m) => ts[t].state == BLOCKED && ts[t].waitingOn == m
    case OnCond(_, m) => ts[t].state == BLOCKED && ts[t].waitingOn == m
    case Lost => ts[t].state == BLOCKED
    case Astray(m) => ts[t].state == BLOCKED && ts[t].waitingOn == m && ts[t].next != null
  }

  ghost predicate MutexHeld(im: Image, m: KMutex, ms: S.MutexState) {
    && m in im.mutexes
    && im.mutexes[m].owner == ms.owner && im.mutexes[m].count == ms.count
    && Chain(im.threads, ms.queue, im.mutexes[m].head, im.mutexes[m].tail)
  }

  ghost predicate CondHeld(im: Image, c: KCond, q: seq<KThread>) {
    c in im.conds && Chain(im.threads, q, im.conds[c].head, im.conds[c].tail)
  }

  ghost predicate Holds(im: Image, s: S.Sys) {
    && Chain(im.threads, s.ready, im.head, im.tail)
    && (forall m :: m in s.mutexes ==> MutexHeld(im, m, s.mutexes[m]))
    && (forall c :: c in s.conds ==> CondHeld(im, c, s.conds[c]))
    && (forall t :: t in s.place ==> Tagged(im.threads, t, s.place[t]))
  }

  /** The queue of `m` survives changes to other threads' links. */
  lemma MutexFrame(im: Image, im': Image, s: S.Sys, m: KMutex)
    requires m in s.mutexes && MutexHeld(im, m, s.mutexes[m])
    requires m in im'.mutexes && im'.mutexes[m] == im.mutexes[m]
    requires forall t :: t in s.mutexes[m].queue && t in im.threads ==>
               t in im'.threads && im'.threads[t].next == im.threads[t].next
    ensures MutexHeld(im', m, s.mutexes[m])
  {
    ChainFrame(im.threads, im'.threads, s.mutexes[m].queue, im.mutexes[m].head, im.mutexes[m].tail);
  }

  lemma CondFrame(im: Image, im': Image, s: S.Sys, c: KCond)
    requires c in s.conds && CondHeld(im, c, s.conds[c])
    requires c in im'.conds && im'.conds[c] == im.conds[c]
    requires forall t :: t in s.conds[c] && t in im.threads ==>
               t in im'.threads && im'.threads[t].next == im.threads[t].next
    ensures CondHeld(im', c, s.conds[c])
  {
    ChainFrame(im.threads, im'.threads, s.conds[c], im.conds[c].head, im.conds[c].tail);
  }

  // ---- kscheduler_enqueue --------------------------------------------------------------------

  function Enqueue(im: Image, t: KThread): Image
    requires t in im.threads && (im.tail == null || im.tail in im.threads)
  {
    var ts := im.threads[t := im.threads[t].(state := READY, next := null, waitingOn := null)];
    im.(threads := if im.head == null then ts else SetNext(ts, im.tail, t),
        head := if im.head == null then t else im.head, tail := t)
  }

  lemma EnqueueTags(im: Image, s: S.Sys, t: KThread, woken: KMutex?)
    requires Holds(im, s) && S.QueuesOk(s) && t in im.threads && (im.tail == null || im.tail in im.threads)
    requires im.tail != null ==> im.tail in s.ready
    ensures var s' := S.Enqueue(s, t, woken);
      forall u :: u in s'.place ==> Tagged(Enqueue(im, t).threads, u, s'.place[u])
  {
    var im', s' := Enqueue(im, t), S.Enqueue(s, t, woken);
    forall u | u in s'.place ensures Tagged(im'.threads, u, s'.place[u]) {
      assert u != t ==> Tagged(im.threads, u, s.place[u]);
      assert im.tail != null ==> s.place[im.tail].Ready?;
    }
  }

  lemma EnqueueHolds(im: Image, s: S.Sys, t: KThread, woken: KMutex?)
    requires Holds(im, s) && S.QueuesOk(s) && t in im.threads
    requires t in s.place ==> s.place[t].Running? || s.place[t].Lost?
    ensures im.tail == null || im.tail in im.threads
    ensures Holds(Enqueue(im, t), S.Enqueue(s, t, woken))
  {
    hide LinkIs, Tagged;
    TailIsMapped(im.threads, s.ready, im.head, im.tail);
    var ts := im.threads[t := im.threads[t].(state := READY, next := null, waitingOn := null)];
    ChainFrame(im.threads, ts, s.ready, im.head, im.tail);
    ChainAppend(ts, s.ready, im.head, im.tail, t);
    var im', s' := Enqueue(im, t), S.Enqueue(s, t, woken);
    forall m | m in s'.mutexes ensures MutexHeld(im', m, s'.mutexes[m]) {
      assert MutexHeld(im, m, s.mutexes[m]) && S.MutexQueueOk(s, m);
      MutexFrame(im, im', s, m);
    }
    forall c | c in s'.conds ensures CondHeld(im', c, s'.conds[c]) {
      assert CondHeld(im, c, s.conds[c]) && S.CondQueueOk(s, c);
      CondFrame(im, im', s, c);
    }
    EnqueueTags(im, s, t, woken);
  }

  // ---- kscheduler_dequeue and the rest of kthread_dispatch -----------------------------------------

  /** kscheduler_dequeue */
  function Dequeue(im: Image): Image
    requires im.head != null ==> im.head in im.threads
  {
    if im.head == null then im
    else
      var w := im.threads[im.head];
      im.(head := w.next, tail := if w.next == null then null else im.tail,
          threads := im.threads[im.head := w.(next := null, waitingOn := null)])
  }

  function SetState(im: Image, t: KThread, state: ThreadState): Image
    requires t in im.threads
  {
    im.(threads := im.threads[t := im.threads[t].(state := state)])
  }

  function SetRet(im: Image, t: KThread, v: Status): Image
    requires t in im.threads
  {
    im.(threads := im.threads[t := im.threads[t].(a0 := v)])
  }

  function Pick(im: Image): Image
    requires im.head != null ==> im.head in im.threads
  {
    if im.head == null then im else SetState(Dequeue(im), im.head, RUNNING)
  }

  lemma PickHolds(im: Image, s: S.Sys)
    requires Holds(im, s) && S.QueuesOk(s)
    ensures im.head == First(s.ready)
    ensures im.head != null ==> im.head in im.threads
    ensures Holds(Pick(im), S.PickNext(s))
  {
    TailIsMapped(im.threads, s.ready, im.head, im.tail);
    var im', s' := Pick(im), S.PickNext(s);
    if s.ready != [] {
      var t := s.ready[0];
      S.NoDupTail(s.ready);
      ChainTail(im.threads, s.ready, im.head, im.tail);
      ChainFrame(im.threads, im'.threads, s.ready[1..], im'.head, im'.tail);
    }
    forall m | m in s'.mutexes ensures MutexHeld(im', m, s'.mutexes[m]) {
      assert MutexHeld(im, m, s.mutexes[m]) && S.MutexQueueOk(s, m);
      MutexFrame(im, im', s, m);
    }
    forall c | c in s'.conds ensures CondHeld(im', c, s'.conds[c]) {
      assert CondHeld(im, c, s.conds[c]) && S.CondQueueOk(s, c);
      CondFrame(im, im', s, c);
    }
    forall u | u in s'.place ensures Tagged(im'.threads, u, s'.place[u]) {
      assert u in s.place && Tagged(im.threads, u, s.place[u]);
    }
  }

  // ---- Blocking on a mutex (the end of kmutex_lock) ---------------------------------------------------

  function Block(im: Image, m: KMutex, t: KThread): Image
    requires t in im.threads && m in im.mutexes
    requires im.mutexes[m].head != null ==> im.mutexes[m].tail != null && im.mutexes[m].tail in im.threads
  {
    var w := im.mutexes[m];
    var ts := im.threads[t := im.threads[t].(state := BLOCKED, waitingOn := m)];
    im.(threads := if w.head == null then ts else SetNext(ts, w.tail, t),
        mutexes := im.mutexes[m := w.(head := if w.head == null then t else w.head, tail := t)])
  }

  lemma BlockExtends(im: Image, s: S.Sys, m: KMutex, t: KThread)
    requires Holds(im, s) && S.QueuesOk(s) && m in s.mutexes
    requires t in s.place && s.place[t].Running?
    ensures m in im.mutexes && t in im.threads
    ensures var w := im.mutexes[m];
      && (w.head != null ==> w.tail != null && w.tail in im.threads)
      && (w.tail != null ==> w.tail in s.mutexes[m].queue)
    ensures MutexHeld(Block(im, m, t), m, s.mutexes[m].(queue := s.mutexes[m].queue + [t]))
  {
    var q, w := s.mutexes[m].queue, im.mutexes[m];
    assert MutexHeld(im, m, s.mutexes[m]) && S.MutexQueueOk(s, m) && Tagged(im.threads, t, s.place[t]);
    TailIsMapped(im.threads, q, w.head, w.tail);
    var ts := im.threads[t := im.threads[t].(state := BLOCKED, waitingOn := m)];
    ChainFrame(im.threads, ts, q, w.head, w.tail);
    ChainAppend(ts, q, w.head, w.tail, t);
  }

  lemma BlockHolds(im: Image, s: S.Sys, m: KMutex, t: KThread)
    requires Holds(im, s) && S.QueuesOk(s) && m in s.mutexes
    requires t in s.place && s.place[t].Running?
    ensures m in im.mutexes && t in im.threads
    ensures im.mutexes[m].head != null ==> im.mutexes[m].tail != null && im.mutexes[m].tail in im.threads
    ensures Holds(Block(im, m, t), S.Join(s, m, t))
  {
    BlockExtends(im, s, m, t);
    var im', s' := Block(im, m, t), S.Join(s, m, t);
    assert S.MutexQueueOk(s, m);
    ChainFrame(im.threads, im'.threads, s.ready, im.head, im.tail);
    forall m' | m' in s'.mutexes && m' != m ensures MutexHeld(im', m', s'.mutexes[m']) {
      assert MutexHeld(im, m', s.mutexes[m']) && S.MutexQueueOk(s, m');
      MutexFrame(im, im', s, m');
    }
    forall c | c in s'.conds ensures CondHeld(im', c, s'.conds[c]) {
      assert CondHeld(im, c, s.conds[c]) && S.CondQueueOk(s, c);
      CondFrame(im, im', s, c);
    }
    forall u | u in s'.place ensures Tagged(im'.threads, u, s'.place[u]) {
      assert u != t ==> Tagged(im.threads, u, s.place[u]);
    }
  }

  // ---- Owner and count of a mutex ---------------------------------------------------------------------

  function SetOwner(im: Image, m: KMutex, owner: KThread?, count: int): Image
    requires m in im.mutexes
  {
    im.(mutexes := im.mutexes[m := im.mutexes[m].(owner := owner, count := count)])
  }

  lemma SetOwnerHolds(im: Image, s: S.Sys, m: KMutex, owner: KThread?, count: int)
    requires Holds(im, s) && m in s.mutexes
    ensures m in im.mutexes
    ensures Holds(SetOwner(im, m, owner, count), S.SetMutex(s, m, s.mutexes[m].(owner := owner, count := count)))
  {
    var im', s' := SetOwner(im, m, owner, count), S.SetMutex(s, m, s.mutexes[m].(owner := owner, count := count));
    assert MutexHeld(im, m, s.mutexes[m]);
    forall m' | m' in s'.mutexes ensures MutexHeld(im', m', s'.mutexes[m']) {
      assert MutexHeld(im, m', s.mutexes[m']);
    }
    forall c | c in s'.conds ensures CondHeld(im', c, s'.conds[c]) {
      assert CondHeld(im, c, s.conds[c]);
    }
  }

  // ---- Hand-off to the first waiter (the end of kmutex_unlock) ----------------------------------------------

  function HandOver(im: Image, m: KMutex): Image
    requires m in im.mutexes && im.mutexes[m].head != null && im.mutexes[m].head in im.threads
  {
    var w := im.mutexes[m];
    var next := im.threads[w.head].next;
    im.(mutexes := im.mutexes[m := MutexWords(w.head, 1, next, if next == null then null else w.tail)])
  }

  lemma HandOverHolds(im: Image, s: S.Sys, m: KMutex)
    requires Holds(im, s) && S.QueuesOk(s) && m in s.mutexes && s.mutexes[m].queue != []
    ensures m in im.mutexes && im.mutexes[m].head == s.mutexes[m].queue[0] && im.mutexes[m].head in im.threads
    ensures Holds(HandOver(im, m), S.HandOver(s, m))
  {
    var q := s.mutexes[m].queue;
    assert MutexHeld(im, m, s.mutexes[m]) && S.MutexQueueOk(s, m) && q[0] in q;
    ChainTail(im.threads, q, im.mutexes[m].head, im.mutexes[m].tail);
    var im', s' := HandOver(im, m), S.HandOver(s, m);
    forall m' | m' in s'.mutexes ensures MutexHeld(im', m', s'.mutexes[m']) {
      assert MutexHeld(im, m', s.mutexes[m']);
    }
    forall c | c in s'.conds ensures CondHeld(im', c, s'.conds[c]) {
      assert CondHeld(im, c, s.conds[c]);
    }
    forall u | u in s'.place ensures Tagged(im'.threads, u, s'.place[u]) {
      assert u in s.place && Tagged(im.threads, u, s.place[u]);
    }
  }

  // ---- Parking on a condition (the start of kcond_wait) --------------------------------------------------------

  function Park(im: Image, c: KCond, m: KMutex, t: KThread): Image
    requires t in im.threads && c in im.conds
    requires im.conds[c].head != null ==> im.conds[c].tail != null && im.conds[c].tail in im.threads
  {
    var w := im.conds[c];
    var ts := im.threads[t := im.threads[t].(state := BLOCKED, waitingOn := m)];
    im.(threads := if w.head == null then ts else SetNext(ts, w.tail, t),
        conds := im.conds[c := CondWords(if w.head == null then t else w.head, t)])
  }

  lemma ParkExtends(im: Image, s: S.Sys, c: KCond, m: KMutex, t: KThread)
    requires Holds(im, s) && S.QueuesOk(s) && c in s.conds
    requires t in s.place && s.place[t].Running?
    ensures c in im.conds && t in im.threads
    ensures var w := im.conds[c];
      && (w.head != null ==> w.tail != null && w.tail in im.threads)
      && (w.tail != null ==> w.tail in s.conds[c])
    ensures CondHeld(Park(im, c, m, t), c, s.conds[c] + [t])
  {
    var q, w := s.conds[c], im.conds[c];
    assert CondHeld(im, c, q) && S.CondQueueOk(s, c) && Tagged(im.threads, t, s.place[t]);
    TailIsMapped(im.threads, q, w.head, w.tail);
    var ts := im.threads[t := im.threads[t].(state := BLOCKED, waitingOn := m)];
    ChainFrame(im.threads, ts, q, w.head, w.tail);
    ChainAppend(ts, q, w.head, w.tail, t);
  }

  lemma ParkHolds(im: Image, s: S.Sys, c: KCond, m: KMutex, t: KThread)
    requires Holds(im, s) && S.QueuesOk(s) && c in s.conds && m in s.mutexes
    requires t in s.place && s.place[t].Running?
    ensures c in im.conds && t in im.threads
    ensures im.conds[c].head != null ==> im.conds[c].tail != null && im.conds[c].tail in im.threads
    ensures Holds(Park(im, c, m, t), S.Park(s, c, m, t))
  {
    ParkExtends(im, s, c, m, t);
    var im', s' := Park(im, c, m, t), S.Park(s, c, m, t);
    assert S.CondQueueOk(s, c);
    ChainFrame(im.threads, im'.threads, s.ready, im.head, im.tail);
    forall m' | m' in s'.mutexes ensures MutexHeld(im', m', s'.mutexes[m']) {
      assert MutexHeld(im, m', s.mutexes[m']) && S.MutexQueueOk(s, m');
      MutexFrame(im, im', s, m');
    }
    forall c' | c' in s'.conds && c' != c ensures CondHeld(im', c', s'.conds[c']) {
      assert CondHeld(im, c', s.conds[c']) && S.CondQueueOk(s, c');
      CondFrame(im, im', s, c');
    }
    forall u | u in s'.place ensures Tagged(im'.threads, u, s'.place[u]) {
      assert u != t ==> Tagged(im.threads, u, s.place[u]);
    }
  }

  // ---- kmutex_lock, and a broadcast as a row of locks -------------------------------------------------------------

  /** kmutex_lock */
  function Lock(im: Image, m: KMutex, t: KThread): Image
    requires t in im.threads && m in im.mutexes
    requires im.mutexes[m].head != null ==> im.mutexes[m].tail != null && im.mutexes[m].tail in im.threads
  {
    var w := im.mutexes[m];
    if w.owner == null then SetOwner(im, m, t, 1)
    else if w.owner == t then
      if m.recursive then SetOwner(im, m, t, (w.count + 1) % S.COUNT_LIMIT) else im
    else Block(im, m, t)
  }

  /** The queue `p`, already linked, is hung behind the queue of `m`. */
  function Splice(im: Image, m: KMutex, p: seq<KThread>): Image
    requires m in im.mutexes
    requires im.mutexes[m].head != null ==> im.mutexes[m].tail != null && im.mutexes[m].tail in im.threads
  {
    var w := im.mutexes[m];
    if p == [] then im
    else
      im.(threads := if w.head == null then im.threads else SetNext(im.threads, w.tail, p[0]),
          mutexes := im.mutexes[m := w.(head := if w.head == null then p[0] else w.head, tail := Last(p))])
  }

  /** Although each thread still links to its old successor when it is queued on the mutex, one
      more lock extends the splice by one more waiter. */
  lemma LockExtendsSplice(im: Image, m: KMutex, p: seq<KThread>, i: nat)
    requires i < |p| && m in im.mutexes && im.mutexes[m].owner != null && im.mutexes[m].owner !in p
    requires im.mutexes[m].head != null ==> im.mutexes[m].tail != null && im.mutexes[m].tail in im.threads
    requires im.mutexes[m].head != null ==> im.mutexes[m].tail !in p
    requires forall j :: 0 <= j < |p| ==> LinkIs(im.threads, p, j, null)
    requires forall t :: t in p ==> t in im.threads && im.threads[t].state == BLOCKED && im.threads[t].waitingOn == m
    ensures var si := Splice(im, m, p[..i]);
      && (si.mutexes[m].head != null ==> si.mutexes[m].tail != null && si.mutexes[m].tail in si.threads)
      && p[i] in si.threads
      && Lock(si, m, p[i]) == Splice(im, m, p[..i + 1])
  {
    var si, t := Splice(im, m, p[..i]), p[i];
    assert t in p && p[..i + 1][0] == p[0] && Last(p[..i + 1]) == t;
    assert si.threads[t].(state := BLOCKED, waitingOn := m) == si.threads[t];
    var ts := si.threads[t := si.threads[t].(state := BLOCKED, waitingOn := m)];
    assert ts == si.threads;
    if i > 0 {
      assert Last(p[..i]) == p[i - 1] && p[..i][0] == p[0];
      assert LinkIs(im.threads, p, i - 1, null) && p[i - 1] in p;
      assert SetNext(ts, p[i - 1], t) == ts;
    }
  }

  lemma ChainConcat(ts: Threads, q: seq<KThread>, head: KThread?, tail: KThread?, p: seq<KThread>)
    requires Chain(ts, q, head, tail) && S.NoDup(q) && Chain(ts, p, First(p), Last(p)) && p != []
    requires forall t :: t in p ==> t !in q
    requires tail == null || tail in ts
    ensures Chain(SetNext(ts, tail, p[0]), q + p, if q == [] then p[0] else head, Last(p))
  {
    var r, ts' := q + p, SetNext(ts, tail, p[0]);
    forall i | 0 <= i < |r| ensures LinkIs(ts', r, i, null) {
      if i < |q| {
        assert LinkIs(ts, q, i, null);
      } else {
        assert r[i] == p[i - |q|] && LinkIs(ts, p, i - |q|, null);
        assert r[i] in p;
      }
    }
  }

  /** Moving the queue of `c` behind the queue of an owned mutex. */
  lemma SpliceHolds(im: Image, s: S.Sys, c: KCond, m: KMutex, p: seq<KThread>)
    requires Holds(im, s) && S.QueuesOk(s) && c in s.conds && m in s.mutexes
    requires p != [] && Chain(im.threads, p, First(p), Last(p))
    requires forall t :: t in p ==> t in s.conds[c]
    ensures m in im.mutexes && c in im.conds
    ensures im.mutexes[m].head != null ==> im.mutexes[m].tail != null && im.mutexes[m].tail in im.threads
    ensures var im', ms := Splice(im, m, p), s.mutexes[m];
      && Chain(im'.threads, s.ready, im.head, im.tail)
      && Chain(im'.threads, ms.queue + p, im'.mutexes[m].head, im'.mutexes[m].tail)
      && (forall m' :: m' in s.mutexes && m' != m ==> MutexHeld(im', m', s.mutexes[m']))
      && (forall c' :: c' in s.conds && c' != c ==> CondHeld(im', c', s.conds[c']))
      && (forall t :: t in s.place ==> Tagged(im'.threads, t, s.place[t]))
  {
    var q, w := s.mutexes[m].queue, im.mutexes[m];
    assert MutexHeld(im, m, s.mutexes[m]) && S.MutexQueueOk(s, m) && S.CondQueueOk(s, c);
    assert CondHeld(im, c, s.conds[c]);
    TailIsMapped(im.threads, q, w.head, w.tail);
    ChainConcat(im.threads, q, w.head, w.tail, p);
    var im' := Splice(im, m, p);
    ChainFrame(im.threads, im'.threads, s.ready, im.head, im.tail);
    forall m' | m' in s.mutexes && m' != m ensures MutexHeld(im', m', s.mutexes[m']) {
      assert MutexHeld(im, m', s.mutexes[m']) && S.MutexQueueOk(s, m');
      MutexFrame(im, im', s, m');
    }
    forall c' | c' in s.conds && c' != c ensures CondHeld(im', c', s.conds[c']) {
      assert CondHeld(im, c', s.conds[c']) && S.CondQueueOk(s, c');
      CondFrame(im, im', s, c');
    }
    forall u | u in s.place ensures Tagged(im'.threads, u, s.place[u]) {
      assert Tagged(im.threads, u, s.place[u]);
      assert w.tail != null ==> s.place[w.tail] == S.OnMutex(m);
    }
  }

  // ---- kmutex_unlock, kcond_wait, kthread_dispatch --------------------------------------------------------------

  /** The queue ends that the code follows are mapped threads. */
  ghost predicate EndsMapped(ts: Threads, head: KThread?, tail: KThread?) {
    head != null ==> head in ts && tail != null && tail in ts
  }

  ghost predicate ReadyMapped(im: Image) {
    EndsMapped(im.threads, im.head, im.tail) && (im.head == null ==> im.tail == null)
  }

  ghost predicate MutexMapped(im: Image, m: KMutex) {
    m in im.mutexes && EndsMapped(im.threads, im.mutexes[m].head, im.mutexes[m].tail)
  }

  ghost predicate CondMapped(im: Image, c: KCond) {
    c in im.conds && EndsMapped(im.threads, im.conds[c].head, im.conds[c].tail)
  }

  lemma HoldsMapped(im: Image, s: S.Sys)
    requires Holds(im, s)
    ensures ReadyMapped(im)
    ensures forall m :: m in s.mutexes ==> MutexMapped(im, m)
    ensures forall c :: c in s.conds ==> CondMapped(im, c)
  {
    TailIsMapped(im.threads, s.ready, im.head, im.tail);
    forall m | m in s.mutexes ensures MutexMapped(im, m) {
      assert MutexHeld(im, m, s.mutexes[m]);
      TailIsMapped(im.threads, s.mutexes[m].queue, im.mutexes[m].head, im.mutexes[m].tail);
    }
    forall c | c in s.conds ensures CondMapped(im, c) {
      assert CondHeld(im, c, s.conds[c]);
      TailIsMapped(im.threads, s.conds[c], im.conds[c].head, im.conds[c].tail);
    }
  }

  ghost function Unlock(im: Image, m: KMutex, t: KThread): Image
    requires MutexMapped(im, m) && ReadyMapped(im)
  {
    var w := im.mutexes[m];
    var left := (w.count + S.COUNT_LIMIT - 1) % S.COUNT_LIMIT;
    if w.owner != t then im
    else if m.recursive && left > 0 then SetOwner(im, m, t, left)
    else if w.head == null then SetOwner(im, m, null, left)
    else Enqueue(HandOver(im, m), w.head)
  }

  lemma UnlockHolds(im: Image, s: S.Sys, m: KMutex)
    requires Holds(im, s) && S.QueuesOk(s) && m in s.mutexes && s.current != null
    ensures MutexMapped(im, m) && ReadyMapped(im)
    ensures Holds(Unlock(im, m, s.current), S.Unlock(s, m))
  {
    HoldsMapped(im, s);
    var ms := s.mutexes[m];
    var left := (ms.count + S.COUNT_LIMIT - 1) % S.COUNT_LIMIT;
    assert MutexHeld(im, m, ms);
    if ms.owner == s.current {
      if m.recursive && left > 0 {
        SetOwnerHolds(im, s, m, s.current, left);
      } else if ms.queue == [] {
        SetOwnerHolds(im, s, m, null, left);
      } else {
        HandOverHolds(im, s, m);
        S.HandOverQueues(s, m);
        EnqueueHolds(HandOver(im, m), S.HandOver(s, m), ms.queue[0], m);
      }
    }
  }

  /** Parking maps the same records. */
  lemma ParkMapped(im: Image, c: KCond, m: KMutex, t: KThread)
    requires t in im.threads && CondMapped(im, c) && MutexMapped(im, m) && ReadyMapped(im)
    ensures MutexMapped(Park(im, c, m, t), m) && ReadyMapped(Park(im, c, m, t))
    ensures Park(im, c, m, t).threads.Keys == im.threads.Keys
  {
  }

  ghost function Dispatch(im: Image, main: KThread): Image
    requires ReadyMapped(im) && main in im.threads && (im.current == null || im.current in im.threads)
  {
    var im1 := GiveWay(im, main);
    if im1.head == null
    then SetState(im1, main, RUNNING).(current := main)
    else Pick(im1).(current := im1.head)
  }

  /** A change of one place that the words of its thread fit as well. */
  lemma PlaceFrame(im: Image, s: S.Sys, t: KThread, p: S.Place)
    requires Holds(im, s) && Tagged(im.threads, t, p)
    ensures Holds(im, s.(place := s.place[t := p]))
  {
    var s' := s.(place := s.place[t := p]);
    forall m | m in s'.mutexes ensures MutexHeld(im, m, s'.mutexes[m]) {
      assert MutexHeld(im, m, s.mutexes[m]);
    }
    forall c | c in s'.conds ensures CondHeld(im, c, s'.conds[c]) {
      assert CondHeld(im, c, s.conds[c]);
    }
    forall u | u in s'.place ensures Tagged(im.threads, u, s'.place[u]) {
      assert u != t ==> Tagged(im.threads, u, s.place[u]);
    }
  }

  /** The start of kthread_dispatch: the thread that gives way. */
  function GiveWay(im: Image, main: KThread): Image
    requires (im.tail == null || im.tail in im.threads) && (im.current == null || im.current in im.threads)
  {
    var t := im.current;
    if t != null && im.threads[t].state != BLOCKED && t != main then Enqueue(im, t) else im
  }

  lemma GiveWayHolds(im: Image, s: S.Sys)
    requires Holds(im, s) && S.QueuesOk(s) && im.current == s.current && s.idle in s.place
    requires s.current == null || (s.current in s.place && !s.place[s.current].Ready? && !s.place[s.current].Reserve?)
    ensures ReadyMapped(im) && (im.current == null || im.current in im.threads)
    ensures Holds(GiveWay(im, s.idle), S.Yielded(s))
  {
    HoldsMapped(im, s);
    var t := s.current;
    if t != null {
      assert Tagged(im.threads, t, s.place[t]);
      if S.Runs(s, t) {
        if t == s.idle {
          PlaceFrame(im, s, t, S.Reserve);
        } else {
          EnqueueHolds(im, s, t, null);
        }
      }
    }
  }

  /** kthread_main is made current. */
  lemma IdleHolds(im: Image, s: S.Sys)
    requires Holds(im, s) && s.ready == [] && S.InReserve(s)
    ensures s.idle in im.threads && Holds(SetState(im, s.idle, RUNNING), S.PickNext(s))
  {
    assert Tagged(im.threads, s.idle, s.place[s.idle]);
    assert SetState(im, s.idle, RUNNING) == im;
    PlaceFrame(im, s, s.idle, S.Running);
    CurrentKept(im, s.(place := s.place[s.idle := S.Running]), s.idle);
  }

  /** Which thread is current is no matter of the queues. */
  lemma CurrentKept(im: Image, s: S.Sys, t: KThread?)
    requires Holds(im, s)
    ensures Holds(im, s.(current := t))
  {
    var s' := s.(current := t);
    forall m | m in s'.mutexes ensures MutexHeld(im, m, s'.mutexes[m]) {
      assert MutexHeld(im, m, s.mutexes[m]);
    }
    forall c | c in s'.conds ensures CondHeld(im, c, s'.conds[c]) {
      assert CondHeld(im, c, s.conds[c]);
    }
  }

  lemma DispatchHolds(im: Image, s: S.Sys)
    requires Holds(im, s) && S.QueuesOk(s) && im.current == s.current && s.idle in s.place
    requires s.current == null || (s.current in s.place && !s.place[s.current].Ready? && !s.place[s.current].Reserve?)
    requires !S.Stuck(S.Yielded(s))
    ensures ReadyMapped(im) && (im.current == null || im.current in im.threads) && s.idle in im.threads
    ensures Holds(Dispatch(im, s.idle), S.Dispatch(s)) && Dispatch(im, s.idle).current == S.Dispatch(s).current
  {
    hide Holds, S.QueuesOk, S.Yielded, S.PickNext, Pick, GiveWay;
    IdleMapped(im, s);
    GiveWayHolds(im, s);
    var im1, s1 := GiveWay(im, s.idle), S.Yielded(s);
    S.YieldedQueues(s);
    YieldedIdle(s);
    GiveWayMapped(im, s.idle);
    HeadIsFirst(im1, s1);
    if s1.ready == [] {
      IdleHolds(im1, s1);
      CurrentFrame(SetState(im1, s.idle, RUNNING), S.PickNext(s1), s.idle);
    } else {
      PickHolds(im1, s1);
      CurrentFrame(Pick(im1), S.PickNext(s1), im1.head);
    }
    PickedCurrent(s1);
  }

  lemma IdleMapped(im: Image, s: S.Sys)
    requires Holds(im, s) && s.idle in s.place
    ensures s.idle in im.threads
  {
    assert Tagged(im.threads, s.idle, s.place[s.idle]);
  }

  lemma YieldedIdle(s: S.Sys)
    ensures S.Yielded(s).idle == s.idle
  {
  }

  lemma GiveWayMapped(im: Image, main: KThread)
    requires ReadyMapped(im) && main in im.threads && (im.current == null || im.current in im.threads)
    ensures main in GiveWay(im, main).threads
  {
  }

  lemma HeadIsFirst(im: Image, s: S.Sys)
    requires Holds(im, s)
    ensures im.head == First(s.ready) && (im.head != null ==> im.head in im.threads)
  {
    TailIsMapped(im.threads, s.ready, im.head, im.tail);
  }

  lemma PickedCurrent(s: S.Sys)
    ensures S.PickNext(s).current == if s.ready == [] then s.idle else s.ready[0]
  {
  }

  /** The words of a thread may change, as long as its link and what its place says of it stay. */
  lemma WordsFrame(im: Image, s: S.Sys, t: KThread, w: ThreadWords)
    requires Holds(im, s) && t in im.threads && w.next == im.threads[t].next
    requires t in s.place ==> w.state == im.threads[t].state && w.waitingOn == im.threads[t].waitingOn
    ensures Holds(im.(threads := im.threads[t := w]), s)
  {
    var im' := im.(threads := im.threads[t := w]);
    ChainFrame(im.threads, im'.threads, s.ready, im.head, im.tail);
    forall m | m in s.mutexes ensures MutexHeld(im', m, s.mutexes[m]) {
      assert MutexHeld(im, m, s.mutexes[m]);
      MutexFrame(im, im', s, m);
    }
    forall c | c in s.conds ensures CondHeld(im', c, s.conds[c]) {
      assert CondHeld(im, c, s.conds[c]);
      CondFrame(im, im', s, c);
    }
    forall u | u in s.place ensures Tagged(im'.threads, u, s.place[u]) {
      assert Tagged(im.threads, u, s.place[u]);
    }
  }

  lemma CurrentFrame(im: Image, s: S.Sys, t: KThread?)
    requires Holds(im, s)
    ensures Holds(im.(current := t), s)
  {
    var im' := im.(current := t);
    forall m | m in s.mutexes ensures MutexHeld(im', m, s.mutexes[m]) {
      assert MutexHeld(im, m, s.mutexes[m]);
    }
    forall c | c in s.conds ensures CondHeld(im', c, s.conds[c]) {
      assert CondHeld(im, c, s.conds[c]);
    }
  }

  // ---- kcond_signal_all -------------------------------------------------------------------------------------------

  /** What the records come to after a broadcast to the waiters `p` of `c` when all wait with `m`. */
  ghost function SignalAll(im: Image, c: KCond, m: KMutex, p: seq<KThread>): Image
    requires MutexMapped(im, m)
  {
    var moved :=
      if p == [] || im.mutexes[m].owner != null then Splice(im, m, p)
      else Splice(SetOwner(im, m, p[0], 1), m, p[1..]);
    moved.(conds := im.conds[c := CondWords(null, null)])
  }

  /** What is left to check once the chains are in place. */
  lemma SignalAllTags(im: Image, s: S.Sys, c: KCond, m: KMutex, im': Image)
    requires Holds(im, s) && S.QueuesOk(s) && S.WaitWith(s, c, m) && s.conds[c] != []
    requires c in im'.conds && im'.conds[c] == CondWords(null, null)
    requires var s' := S.SignalCommon(s, c, m);
      && Chain(im'.threads, s.ready, im'.head, im'.tail)
      && (forall m' :: m' in s'.mutexes ==> MutexHeld(im', m', s'.mutexes[m']))
      && (forall c' :: c' in s.conds && c' != c ==> CondHeld(im', c', s.conds[c']))
      && (forall t :: t in s.place ==> Tagged(im'.threads, t, s.place[t]))
    ensures Holds(im', S.SignalCommon(s, c, m))
  {
    var s' := S.SignalCommon(s, c, m);
    forall t | t in s'.place ensures Tagged(im'.threads, t, s'.place[t]) {
      assert t in s.place && Tagged(im'.threads, t, s.place[t]);
    }
  }

  lemma SignalAllOwned(im: Image, s: S.Sys, c: KCond, m: KMutex)
    requires Holds(im, s) && S.QueuesOk(s) && S.WaitWith(s, c, m)
    requires s.conds[c] != [] && s.mutexes[m].owner != null && MutexMapped(im, m)
    ensures Holds(SignalAll(im, c, m, s.conds[c]), S.SignalCommon(s, c, m))
  {
    var p, ms := s.conds[c], s.mutexes[m];
    assert CondHeld(im, c, p) && MutexHeld(im, m, ms);
    SpliceHolds(im, s, c, m, p);
    var spliced, im' := Splice(im, m, p), SignalAll(im, c, m, p);
    forall m' | m' in s.mutexes ensures MutexHeld(im', m', S.SignalCommon(s, c, m).mutexes[m']) {
      assert m' != m ==> MutexHeld(spliced, m', s.mutexes[m']);
    }
    forall c' | c' in s.conds && c' != c ensures CondHeld(im', c', s.conds[c']) {
      assert CondHeld(spliced, c', s.conds[c']);
    }
    SignalAllTags(im, s, c, m, im');
  }

  /** With the mutex free, the first waiter takes it and the others are spliced behind its queue. */
  lemma SignalAllTaken(im: Image, s: S.Sys, c: KCond, m: KMutex)
    requires Holds(im, s) && S.QueuesOk(s) && S.WaitWith(s, c, m)
    requires s.conds[c] != [] && s.mutexes[m].owner == null && MutexMapped(im, m)
    ensures var p, ms := s.conds[c], s.mutexes[m];
      var im1, s1 := SetOwner(im, m, p[0], 1), S.SetMutex(s, m, ms.(owner := p[0], count := 1));
      var spliced := Splice(im1, m, p[1..]);
      && MutexMapped(im1, m) && m in spliced.mutexes
      && MutexHeld(spliced, m, s1.mutexes[m].(queue := ms.queue + p[1..]))
      && Chain(spliced.threads, s.ready, spliced.head, spliced.tail)
      && (forall m' :: m' in s.mutexes && m' != m ==> MutexHeld(spliced, m', s1.mutexes[m']))
      && (forall c' :: c' in s.conds && c' != c ==> CondHeld(spliced, c', s.conds[c']))
      && (forall t :: t in s.place ==> Tagged(spliced.threads, t, s1.place[t]))
  {
    var p, ms := s.conds[c], s.mutexes[m];
    assert CondHeld(im, c, p) && MutexHeld(im, m, ms) && S.CondQueueOk(s, c);
    var im1, s1 := SetOwner(im, m, p[0], 1), S.SetMutex(s, m, ms.(owner := p[0], count := 1));
    SetOwnerHolds(im, s, m, p[0], 1);
    S.SetMutexQueues(s, m, ms.(owner := p[0], count := 1));
    S.NoDupTail(p);
    ChainTail(im.threads, p, im.conds[c].head, im.conds[c].tail);
    if p[1..] != [] {
      SpliceHolds(im1, s1, c, m, p[1..]);
    } else {
      assert ms.queue + p[1..] == ms.queue;
      assert MutexHeld(im1, m, s1.mutexes[m]);
    }
  }

  lemma SignalAllFree(im: Image, s: S.Sys, c: KCond, m: KMutex)
    requires Holds(im, s) && S.QueuesOk(s) && S.WaitWith(s, c, m)
    requires s.conds[c] != [] && s.mutexes[m].owner == null && MutexMapped(im, m)
    ensures Holds(SignalAll(im, c, m, s.conds[c]), S.SignalCommon(s, c, m))
  {
    var p, ms := s.conds[c], s.mutexes[m];
    assert CondHeld(im, c, p);
    SignalAllTaken(im, s, c, m);
    var im1, s1 := SetOwner(im, m, p[0], 1), S.SetMutex(s, m, ms.(owner := p[0], count := 1));
    var spliced, im' := Splice(im1, m, p[1..]), SignalAll(im, c, m, p);
    forall m' | m' in s.mutexes ensures MutexHeld(im', m', S.SignalCommon(s, c, m).mutexes[m']) {
      assert m' != m ==> MutexHeld(spliced, m', s1.mutexes[m']);
    }
    forall c' | c' in s.conds && c' != c ensures CondHeld(im', c', s.conds[c']) {
      assert CondHeld(spliced, c', s.conds[c']);
    }
    forall t | t in s.place ensures Tagged(im'.threads, t, s.place[t]) {
      assert Tagged(spliced.threads, t, s1.place[t]);
    }
    SignalAllTags(im, s, c, m, im');
  }

  lemma SignalAllHolds(im: Image, s: S.Sys, c: KCond, m: KMutex)
    requires Holds(im, s) && S.QueuesOk(s) && S.WaitWith(s, c, m)
    ensures MutexMapped(im, m)
    ensures Holds(SignalAll(im, c, m, s.conds[c]), S.SignalCommon(s, c, m))
  {
    HoldsMapped(im, s);
    if s.conds[c] == [] {
      assert CondHeld(im, c, []);
      assert SignalAll(im, c, m, []) == im;
    } else if s.mutexes[m].owner != null {
      SignalAllOwned(im, s, c, m);
    } else {
      SignalAllFree(im, s, c, m);
    }
  }

  /** `p` is a linked queue of threads blocked on `m`, none of which is the owner or the last waiter of `m`. */
  ghost predicate Broadcastable(im: Image, m: KMutex, p: seq<KThread>) {
    && MutexMapped(im, m) && S.NoDup(p)
    && (forall j :: 0 <= j < |p| ==> LinkIs(im.threads, p, j, null))
    && (forall t :: t in p ==> t in im.threads && im.threads[t].state == BLOCKED && im.threads[t].waitingOn == m)
    && im.mutexes[m].owner !in p
    && (im.mutexes[m].head != null ==> im.mutexes[m].tail !in p)
  }

  lemma HoldsBroadcastable(im: Image, s: S.Sys, c: KCond, m: KMutex)
    requires Holds(im, s) && S.QueuesOk(s) && S.WaitWith(s, c, m)
    ensures Broadcastable(im, m, s.conds[c])
    ensures c in im.conds && im.conds[c].head == First(s.conds[c])
  {
    HoldsMapped(im, s);
    assert CondHeld(im, c, s.conds[c]) && MutexHeld(im, m, s.mutexes[m]);
    assert S.CondQueueOk(s, c) && S.MutexQueueOk(s, m);
    TailIsMapped(im.threads, s.mutexes[m].queue, im.mutexes[m].head, im.mutexes[m].tail);
    forall t | t in s.conds[c]
      ensures t in im.threads && im.threads[t].state == BLOCKED && im.threads[t].waitingOn == m
    {
      assert Tagged(im.threads, t, s.place[t]);
    }
  }

  /** The records after the first `i` locks of a broadcast. */
  ghost function Partial(im: Image, m: KMutex, p: seq<KThread>, i: nat): Image
    requires MutexMapped(im, m) && i <= |p|
  {
    if i == 0 || im.mutexes[m].owner != null then Splice(im, m, p[..i])
    else Splice(SetOwner(im, m, p[0], 1), m, p[1..i])
  }

  lemma SpliceKeys(im: Image, m: KMutex, p: seq<KThread>)
    requires MutexMapped(im, m)
    ensures Splice(im, m, p).threads.Keys == im.threads.Keys
  {
  }

  lemma SpliceStep(im: Image, m: KMutex, p: seq<KThread>, i: nat)
    requires Broadcastable(im, m, p) && i < |p| && im.mutexes[m].owner != null
    ensures var si := Splice(im, m, p[..i]);
      && MutexMapped(si, m)
      && p[i] in si.threads && si.threads[p[i]].waitingOn == m
      && si.threads[p[i]].next == (if i + 1 < |p| then p[i + 1] else null)
      && Lock(si, m, p[i]) == Splice(im, m, p[..i + 1])
  {
    LockExtendsSplice(im, m, p, i);
    assert p[i] in p && LinkIs(im.threads, p, i, null);
    assert i > 0 ==> p[..i][0] == p[0] && p[0] in p;
  }

  /** While the mutex is taken, a lock of the broadcast only splices one more waiter. */
  lemma PartialStepTaken(im: Image, m: KMutex, p: seq<KThread>, i: nat)
    requires Broadcastable(im, m, p) && i < |p| && im.mutexes[m].owner != null
    ensures PartialStepHolds(im, m, p, i)
  {
    assert p[i] in p && LinkIs(im.threads, p, i, null);
    SpliceStep(im, m, p, i);
  }

  /** The first lock of a broadcast takes a free mutex. */
  lemma PartialStepFirst(im: Image, m: KMutex, p: seq<KThread>)
    requires Broadcastable(im, m, p) && 0 < |p| && im.mutexes[m].owner == null
    ensures PartialStepHolds(im, m, p, 0)
  {
    assert p[0] in p && LinkIs(im.threads, p, 0, null);
  }

  lemma RestBroadcastable(im: Image, m: KMutex, p: seq<KThread>)
    requires Broadcastable(im, m, p) && 0 < |p| && im.mutexes[m].owner == null
    ensures Broadcastable(SetOwner(im, m, p[0], 1), m, p[1..])
  {
    S.NoDupTail(p);
    var rest := p[1..];
    forall j | 0 <= j < |rest| ensures LinkIs(im.threads, rest, j, null) {
      assert LinkIs(im.threads, p, j + 1, null);
    }
  }

  /** The locks after it splice the rest behind the new owner. */
  lemma PartialStepLater(im: Image, m: KMutex, p: seq<KThread>, i: nat)
    requires Broadcastable(im, m, p) && 0 < i < |p| && im.mutexes[m].owner == null
    ensures PartialStepHolds(im, m, p, i)
  {
    hide Splice, Lock, LinkIs, S.NoDup;
    var rest := p[1..];
    RestBroadcastable(im, m, p);
    SpliceStep(SetOwner(im, m, p[0], 1), m, rest, i - 1);
    SpliceKeys(SetOwner(im, m, p[0], 1), m, p[1..i]);
    SpliceKeys(SetOwner(im, m, p[0], 1), m, p[1..i + 1]);
    assert rest[..i - 1] == p[1..i] && rest[..i] == p[1..i + 1];
  }

  ghost predicate PartialStepHolds(im: Image, m: KMutex, p: seq<KThread>, i: nat)
    requires MutexMapped(im, m) && i < |p|
  {
    var pi, next := Partial(im, m, p, i), Partial(im, m, p, i + 1);
    && MutexMapped(pi, m)
    && p[i] in pi.threads && pi.threads[p[i]].waitingOn == m
    && pi.threads[p[i]].next == (if i + 1 < |p| then p[i + 1] else null)
    && Lock(pi, m, p[i]) == next && next.threads.Keys == pi.threads.Keys
  }

  lemma PartialStep(im: Image, m: KMutex, p: seq<KThread>, i: nat)
    requires Broadcastable(im, m, p) && i < |p|
    ensures PartialStepHolds(im, m, p, i)
  {
    if im.mutexes[m].owner != null {
      PartialStepTaken(im, m, p, i);
    } else if i == 0 {
      PartialStepFirst(im, m, p);
    } else {
      PartialStepLater(im, m, p, i);
    }
  }

  lemma PartialAll(im: Image, c: KCond, m: KMutex, p: seq<KThread>)
    requires MutexMapped(im, m)
    ensures Partial(im, m, p, |p|).(conds := im.conds[c := CondWords(null, null)]) == SignalAll(im, c, m, p)
    ensures Partial(im, m, p, |p|).conds == im.conds
  {
    assert p[..|p|] == p;
  }

  // ---- kcond_signal_all as the row of its locks -------------------------------------------------------------------

  /** kmutex_lock can be called for the thread and the mutex it waits with. */
  ghost predicate Lockable(im: Image, t: KThread) {
    t in im.threads && im.threads[t].waitingOn != null && MutexMapped(im, im.threads[t].waitingOn)
  }

  ghost function LockOwn(im: Image, t: KThread): Image
    requires Lockable(im, t)
  {
    Lock(im, im.threads[t].waitingOn, t)
  }

  lemma LockKeepsWords(im: Image, t: KThread, u: KThread)
    requires Lockable(im, t) && u in im.threads && u != t
    requires im.mutexes[im.threads[t].waitingOn].head != null ==> im.mutexes[im.threads[t].waitingOn].tail != u
    ensures u in LockOwn(im, t).threads && LockOwn(im, t).threads[u] == im.threads[u]
  {
  }

  lemma LockKeepsLockable(im: Image, t: KThread, u: KThread)
    requires Lockable(im, t) && Lockable(im, u)
    ensures Lockable(LockOwn(im, t), u) && LockOwn(im, t).threads[u].waitingOn == im.threads[u].waitingOn
    ensures LockOwn(im, t).threads.Keys == im.threads.Keys && LockOwn(im, t).mutexes.Keys == im.mutexes.Keys
  {
  }

  ghost predicate AllLockable(im: Image, p: seq<KThread>) {
    forall t :: t in p ==> Lockable(im, t)
  }

  lemma AllStayLockable(im: Image, p: seq<KThread>)
    requires AllLockable(im, p) && p != []
    ensures AllLockable(LockOwn(im, p[0]), p[1..])
  {
    hide Lockable;
    forall t | t in p[1..] ensures Lockable(LockOwn(im, p[0]), t) {
      assert t in p;
      LockKeepsLockable(im, p[0], t);
    }
  }

  /** One lock after the other, each thread with the mutex it waits with. */
  ghost function LockAll(im: Image, p: seq<KThread>): Image
    requires AllLockable(im, p)
    decreases |p|
  {
    if p == [] then im
    else
      AllStayLockable(im, p);
      LockAll(LockOwn(im, p[0]), p[1..])
  }

  /** kcond_signal_all: the locks of all waiters `p`, and then an empty queue. */
  ghost function Broadcast(im: Image, c: KCond, p: seq<KThread>): Image
    requires AllLockable(im, p)
  {
    LockAll(im, p).(conds := im.conds[c := CondWords(null, null)])
  }

  /** No waiter is last in the queue of a mutex that one of them waits with. */
  ghost predicate OffTails(im: Image, p: seq<KThread>)
    requires AllLockable(im, p)
  {
    forall t, u :: t in p && u in p ==> OffTail(im, t, u)
  }

  ghost predicate OffTail(im: Image, t: KThread, u: KThread)
    requires Lockable(im, t)
  {
    var w := im.mutexes[im.threads[t].waitingOn];
    w.head != null ==> w.tail != u
  }

  /** `p` is a linked queue of threads that can lock their mutexes. */
  ghost predicate Waitlist(im: Image, p: seq<KThread>) {
    && S.NoDup(p) && AllLockable(im, p) && OffTails(im, p)
    && (forall j :: 0 <= j < |p| ==> LinkIs(im.threads, p, j, null))
  }

  /** A lock leaves the queue of a mutex as it was, or appends its thread. */
  lemma LockMovesTail(im: Image, x: KThread, m: KMutex)
    requires Lockable(im, x) && m in im.mutexes
    ensures m in LockOwn(im, x).mutexes
    ensures var w, w' := im.mutexes[m], LockOwn(im, x).mutexes[m];
      (w'.head == w.head && w'.tail == w.tail) || w'.tail == x
  {
    hide SetNext;
  }

  lemma OffTailStep(im: Image, x: KThread, t: KThread, u: KThread)
    requires Lockable(im, x) && Lockable(im, t) && OffTail(im, t, u) && u != x
    ensures Lockable(LockOwn(im, x), t) && OffTail(LockOwn(im, x), t, u)
  {
    hide LockOwn, MutexMapped;
    LockKeepsLockable(im, x, t);
    MappedMutex(im, im.threads[t].waitingOn);
    LockMovesTail(im, x, im.threads[t].waitingOn);
  }

  lemma MappedMutex(im: Image, m: KMutex)
    requires MutexMapped(im, m)
    ensures m in im.mutexes
  {
  }

  /** The next waiter is linked, and the rest is a queue of waiters again once the first one has locked. */
  lemma WaitlistStep(im: Image, p: seq<KThread>)
    requires Waitlist(im, p) && p != []
    ensures Lockable(im, p[0]) && im.threads[p[0]].next == (if 1 < |p| then p[1] else null)
    ensures Waitlist(LockOwn(im, p[0]), p[1..])
  {
    hide Lockable, LockOwn, OffTail;
    assert p[0] in p && LinkIs(im.threads, p, 0, null);
    S.NoDupTail(p);
    AllStayLockable(im, p);
    var im', rest := LockOwn(im, p[0]), p[1..];
    forall t, u | t in rest && u in rest ensures OffTail(im', t, u) {
      assert t in p && u in p;
      OffTailStep(im, p[0], t, u);
    }
    forall j | 0 <= j < |rest| ensures LinkIs(im'.threads, rest, j, null) {
      assert rest[j] in p && LinkIs(im.threads, p, j + 1, null) && OffTail(im, p[0], rest[j]);
      WordsKept(im, p[0], rest[j]);
    }
  }

  /** What one round of the loop keeps. */
  lemma RoundKeeps(im: Image, p: seq<KThread>)
    requires AllLockable(im, p) && p != []
    ensures Lockable(im, p[0]) && AllLockable(LockOwn(im, p[0]), p[1..])
    ensures LockAll(LockOwn(im, p[0]), p[1..]) == LockAll(im, p)
    ensures LockOwn(im, p[0]).threads.Keys == im.threads.Keys && LockOwn(im, p[0]).mutexes.Keys == im.mutexes.Keys
    ensures LockOwn(im, p[0]).conds == im.conds
  {
    assert p[0] in p;
    AllStayLockable(im, p);
    LockKeepsLockable(im, p[0], p[0]);
  }

  lemma WordsKept(im: Image, t: KThread, u: KThread)
    requires Lockable(im, t) && u in im.threads && u != t && OffTail(im, t, u)
    ensures u in LockOwn(im, t).threads && LockOwn(im, t).threads[u] == im.threads[u]
  {
    LockKeepsWords(im, t, u);
  }

  lemma {:induction false} LockAllFromPartial(im: Image, m: KMutex, p: seq<KThread>, i: nat)
    requires Broadcastable(im, m, p) && i <= |p|
    ensures AllLockable(Partial(im, m, p, i), p[i..])
    ensures LockAll(Partial(im, m, p, i), p[i..]) == Partial(im, m, p, |p|)
    decreases |p| - i
  {
    hide Partial, Lock;
    if i < |p| {
      PartialStep(im, m, p, i);
      LockAllFromPartial(im, m, p, i + 1);
      var pi := Partial(im, m, p, i);
      assert Lockable(pi, p[i]) && LockOwn(pi, p[i]) == Partial(im, m, p, i + 1);
      assert p[i..][1..] == p[i + 1..] && p[i..][0] == p[i];
      forall t | t in p[i..] ensures Lockable(pi, t) {
        var k :| i <= k < |p| && p[k] == t;
        PartialLockable(im, m, p, i, k);
      }
    }
  }

  lemma PartialLockable(im: Image, m: KMutex, p: seq<KThread>, i: nat, k: nat)
    requires Broadcastable(im, m, p) && i <= k < |p|
    ensures Lockable(Partial(im, m, p, i), p[k])
  {
    assert p[k] in p;
    if i > 0 && im.mutexes[m].owner == null {
      assert i > 1 ==> p[1] in p && p[1..i][0] == p[1];
      assert i > 1 ==> Last(p[1..i]) == p[i - 1] && p[i - 1] in p;
    } else if i > 0 {
      assert p[..i][0] == p[0] && p[0] in p && Last(p[..i]) == p[i - 1] && p[i - 1] in p;
    }
  }

  /** When all waiters wait with one mutex, the row of locks splices them behind its queue. */
  lemma BroadcastCommon(im: Image, c: KCond, m: KMutex, p: seq<KThread>)
    requires Broadcastable(im, m, p)
    ensures AllLockable(im, p) && Broadcast(im, c, p) == SignalAll(im, c, m, p)
  {
    LockAllFromPartial(im, m, p, 0);
    PartialAll(im, c, m, p);
    assert p[0..] == p && p[..0] == [];
    assert Partial(im, m, p, 0) == im;
  }

  // ---- A broadcast to waiters of several mutexes --------------------------------------------------------------------

  /** Locks on other mutexes leave a mutex alone, and a thread that is last in the queue of none of them. */
  lemma {:induction false} LockAllLeaves(im: Image, p: seq<KThread>, m: KMutex, t: KThread)
    requires AllLockable(im, p) && m in im.mutexes && t in im.threads && t !in p
    requires forall u :: u in p ==> im.threads[u].waitingOn != m && OffTail(im, u, t)
    ensures var im' := LockAll(im, p);
      m in im'.mutexes && im'.mutexes[m] == im.mutexes[m] && t in im'.threads && im'.threads[t] == im.threads[t]
    decreases |p|
  {
    if p != [] {
      var x, im1 := p[0], LockOwn(im, p[0]);
      AllStayLockable(im, p);
      WordsKept(im, x, t);
      forall u | u in p[1..] ensures im1.threads[u].waitingOn != m && OffTail(im1, u, t) {
        assert u in p;
        LockKeepsLockable(im, x, u);
        OffTailStep(im, x, u, t);
      }
      LockElsewhere(im, x, m);
      LockAllLeaves(im1, p[1..], m, t);
    }
  }

  lemma LockElsewhere(im: Image, x: KThread, m: KMutex)
    requires Lockable(im, x) && m in im.mutexes && im.threads[x].waitingOn != m
    ensures m in LockOwn(im, x).mutexes && LockOwn(im, x).mutexes[m] == im.mutexes[m]
  {
  }

  /** What a thread's lock leaves behind: it owns the mutex, or is last in its queue with its old link. */
  ghost predicate Locked(im: Image, t: KThread, m: KMutex, next: KThread?) {
    && m in im.mutexes && t in im.threads && im.threads[t].state == BLOCKED && im.threads[t].waitingOn == m
    && (im.mutexes[m].owner == t || (im.mutexes[m].tail == t && im.threads[t].next == next))
  }

  lemma LockLeaves(im: Image, t: KThread)
    requires Lockable(im, t) && im.threads[t].state == BLOCKED && OffTail(im, t, t)
    ensures Locked(LockOwn(im, t), t, im.threads[t].waitingOn, im.threads[t].next)
  {
  }

  /** The last waiter of a mutex keeps the link it had in the queue of the condition. */
  lemma {:induction false} LastKeepsLink(im: Image, p: seq<KThread>, l: nat, t: KThread, m: KMutex)
    requires Waitlist(im, p) && l < |p| && p[l] == t
    requires t in im.threads && im.threads[t].state == BLOCKED && im.threads[t].waitingOn == m
    requires forall j :: l < j < |p| ==> p[j] in im.threads && im.threads[p[j]].waitingOn != m
    ensures Locked(LockAll(im, p), t, m, im.threads[t].next)
    decreases |p|
  {
    hide Lockable, LockOwn, OffTail;
    assert t in p && p[0] in p;
    S.NoDupTail(p);
    AllStayLockable(im, p);
    WaitlistStep(im, p);
    var im1, rest := LockOwn(im, p[0]), p[1..];
    assert OffTail(im, p[0], t);
    if l == 0 {
      LockLeaves(im, t);
      LockKeepsLockable(im, t, t);
      forall u | u in rest
        ensures u in im1.threads && im1.threads[u].waitingOn != m && Lockable(im1, u) && OffTail(im1, u, t)
      {
        assert u in p;
        var j :| 1 <= j < |p| && p[j] == u;
        LockKeepsLockable(im, t, u);
        KeepsWaitingOn(im, t, u);
        OtherTail(im, t, u);
      }
      LockAllLeaves(im1, rest, m, t);
    } else {
      assert rest[l - 1] == t;
      WordsKept(im, p[0], t);
      forall j | l - 1 < j < |rest| ensures rest[j] in im1.threads && im1.threads[rest[j]].waitingOn != m {
        assert rest[j] == p[j + 1] && p[j + 1] in p;
        LockKeepsLockable(im, p[0], p[j + 1]);
        KeepsWaitingOn(im, p[0], p[j + 1]);
      }
      LastKeepsLink(im1, rest, l - 1, t, m);
    }
  }

  lemma KeepsWaitingOn(im: Image, t: KThread, u: KThread)
    requires Lockable(im, t) && Lockable(im, u)
    ensures u in im.threads && u in LockOwn(im, t).threads
    ensures LockOwn(im, t).threads[u].waitingOn == im.threads[u].waitingOn
  {
    LockKeepsLockable(im, t, u);
  }

  /** Locking one mutex makes the thread last in the queue of no other. */
  lemma OtherTail(im: Image, t: KThread, u: KThread)
    requires Lockable(im, t) && Lockable(im, u) && OffTail(im, u, t)
    requires im.threads[u].waitingOn != im.threads[t].waitingOn
    ensures Lockable(LockOwn(im, t), u) && OffTail(LockOwn(im, t), u, t)
  {
  }

  lemma TailEndsChain(ts: Threads, q: seq<KThread>, head: KThread?, tail: KThread?)
    requires Chain(ts, q, head, tail) && tail != null
    ensures tail in ts && ts[tail].next == null
  {
    assert LinkIs(ts, q, |q| - 1, null);
  }

  /** The waiters of a condition whose records an image holds. */
  lemma HoldsWaitlist(im: Image, s: S.Sys, c: KCond)
    requires Holds(im, s) && S.QueuesOk(s) && S.Waiters(s, c)
    ensures Waitlist(im, s.conds[c]) && c in im.conds && im.conds[c].head == First(s.conds[c])
    ensures forall t :: t in s.conds[c] ==> Parked(im, s, t)
  {
    var p := s.conds[c];
    assert CondHeld(im, c, p) && S.CondQueueOk(s, c);
    HoldsMapped(im, s);
    forall t | t in p ensures Lockable(im, t) && Parked(im, s, t) {
      assert S.WaiterOk(s, c, t) && Tagged(im.threads, t, s.place[t]);
    }
    forall t, u | t in p && u in p ensures OffTail(im, t, u) {
      assert Parked(im, s, t) && S.WaiterOk(s, c, t) && S.WaiterOk(s, c, u);
      TailElsewhere(im, s, s.place[t].mutex, u);
    }
  }

  ghost predicate Parked(im: Image, s: S.Sys, t: KThread) {
    && t in s.place && s.place[t].OnCond? && t in im.threads
    && im.threads[t].state == BLOCKED && im.threads[t].waitingOn == s.place[t].mutex
  }

  lemma TailElsewhere(im: Image, s: S.Sys, m: KMutex, u: KThread)
    requires Holds(im, s) && S.QueuesOk(s) && m in s.mutexes && u in s.place && s.place[u].OnCond?
    ensures m in im.mutexes && (im.mutexes[m].head != null ==> im.mutexes[m].tail != u)
  {
    assert MutexHeld(im, m, s.mutexes[m]) && S.MutexQueueOk(s, m);
    TailIsMapped(im.threads, s.mutexes[m].queue, im.mutexes[m].head, im.mutexes[m].tail);
  }

  /** Among waiters of several mutexes one ends up as an owner that is still blocked, or as the end of a
      queue with a link that leads on. */
  lemma MixedBroadcast(im: Image, s: S.Sys, c: KCond) returns (t: KThread, m: KMutex, next: KThread)
    requires Holds(im, s) && S.QueuesOk(s) && S.Waiters(s, c) && !S.OneMutex(s, c)
    ensures AllLockable(im, s.conds[c])
    ensures t in s.conds[c] && m == S.Wants(s, t) && Locked(Broadcast(im, c, s.conds[c]), t, m, next)
  {
    var p := s.conds[c];
    HoldsWaitlist(im, s, c);
    var l := S.ManyMutexes(s, c);
    t, m, next := p[l], S.Wants(s, p[l]), p[l + 1];
    assert t in p && Parked(im, s, t) && CondHeld(im, c, p) && LinkIs(im.threads, p, l, null);
    forall j | l < j < |p| ensures p[j] in im.threads && im.threads[p[j]].waitingOn != m {
      assert p[j] in p && Parked(im, s, p[j]);
    }
    LastKeepsLink(im, p, l, t, m);
  }

  lemma {:induction false} LockAllKeepsOwner(im: Image, p: seq<KThread>, m: KMutex)
    requires AllLockable(im, p) && m in im.mutexes && im.mutexes[m].owner != null
    ensures m in LockAll(im, p).mutexes && LockAll(im, p).mutexes[m].owner == im.mutexes[m].owner
    decreases |p|
  {
    if p != [] {
      AllStayLockable(im, p);
      LockAllKeepsOwner(LockOwn(im, p[0]), p[1..], m);
    }
  }

  lemma CommonBroadcast(im: Image, s: S.Sys, c: KCond)
    requires Holds(im, s) && S.QueuesOk(s) && S.Waiters(s, c) && S.OneMutex(s, c)
    ensures AllLockable(im, s.conds[c]) && Holds(Broadcast(im, c, s.conds[c]), S.SignalAll(s, c))
  {
    HoldsWaitlist(im, s, c);
    if s.conds[c] == [] {
      S.NobodyWaits(s, c);
      assert CondHeld(im, c, []);
      assert Broadcast(im, c, []) == im;
    } else {
      var m := S.FirstWanted(s, c);
      S.CommonWaits(s, c);
      S.SignalAllCommon(s, c, m);
      HoldsBroadcastable(im, s, c, m);
      BroadcastCommon(im, c, m, s.conds[c]);
      SignalAllHolds(im, s, c, m);
    }
  }

  lemma CommonChains(im: Image, s: S.Sys, c: KCond, m: KMutex) returns (q: seq<KThread>)
    requires Holds(im, s) && S.QueuesOk(s) && S.Waiters(s, c) && S.OneMutex(s, c) && m in s.mutexes
    ensures AllLockable(im, s.conds[c])
    ensures var im' := Broadcast(im, c, s.conds[c]);
      m in im'.mutexes && Chain(im'.threads, q, im'.mutexes[m].head, im'.mutexes[m].tail)
  {
    CommonBroadcast(im, s, c);
    CommonKeepsMutexes(s, c);
    q := S.SignalAll(s, c).mutexes[m].queue;
    assert MutexHeld(Broadcast(im, c, s.conds[c]), m, S.SignalAll(s, c).mutexes[m]);
  }

  lemma MixedTangles(im: Image, s: S.Sys, c: KCond) returns (m: KMutex)
    requires Holds(im, s) && S.QueuesOk(s) && S.Waiters(s, c) && !S.OneMutex(s, c)
    requires forall t :: t in s.conds[c] ==> s.mutexes[S.Wants(s, t)].owner != null
    ensures AllLockable(im, s.conds[c])
    ensures var im' := Broadcast(im, c, s.conds[c]);
      && m in s.mutexes && m in im'.mutexes && im'.mutexes[m].tail != null && im'.mutexes[m].tail in im'.threads
      && im'.threads[im'.mutexes[m].tail].next != null
  {
    var t, m', next := MixedBroadcast(im, s, c);
    m := m';
    assert S.WaiterOk(s, c, t) && MutexHeld(im, m, s.mutexes[m]);
    LockAllKeepsOwner(im, s.conds[c], m);
  }

  /** With all mutexes of the waiters owned, the records of a broadcast hold well-formed chains again exactly
      when all waiters wait with one mutex. */
  lemma BroadcastChainsIff(im: Image, s: S.Sys, c: KCond)
    requires Holds(im, s) && S.QueuesOk(s) && S.Waiters(s, c)
    requires forall t :: t in s.conds[c] ==> s.mutexes[S.Wants(s, t)].owner != null
    ensures AllLockable(im, s.conds[c])
    ensures var im' := Broadcast(im, c, s.conds[c]);
      (forall m :: m in s.mutexes ==>
         m in im'.mutexes && exists q :: Chain(im'.threads, q, im'.mutexes[m].head, im'.mutexes[m].tail))
      <==> S.OneMutex(s, c)
  {
    hide Holds, S.QueuesOk, S.OneMutex, Broadcast, Chain;
    HoldsWaitlist(im, s, c);
    var im' := Broadcast(im, c, s.conds[c]);
    if S.OneMutex(s, c) {
      forall m | m in s.mutexes
        ensures m in im'.mutexes && exists q :: Chain(im'.threads, q, im'.mutexes[m].head, im'.mutexes[m].tail)
      {
        var q := CommonChains(im, s, c, m);
      }
    } else {
      var m := MixedTangles(im, s, c);
      if q :| Chain(im'.threads, q, im'.mutexes[m].head, im'.mutexes[m].tail) {
        TailEndsChain(im'.threads, q, im'.mutexes[m].head, im'.mutexes[m].tail);
      }
    }
  }

  lemma CommonKeepsMutexes(s: S.Sys, c: KCond)
    requires S.QueuesOk(s) && S.Waiters(s, c) && S.OneMutex(s, c)
    ensures S.SignalAll(s, c).mutexes.Keys == s.mutexes.Keys
  {
    if s.conds[c] == [] {
      S.NobodyWaits(s, c);
    } else {
      S.CommonWaits(s, c);
      S.SignalAllCommon(s, c, S.FirstWanted(s, c));
    }
  }

  /** `u` runs and owns `m` and `m'`; `t` waits on `c` with `m`, and `t'` behind it with `m'`. */
  function TwoWaiters(u: KThread, t: KThread, t': KThread, m: KMutex, m': KMutex, c: KCond): S.Sys {
    S.Sys(u, u, [], map[m := S.MutexState(u, 1, []), m' := S.MutexState(u, 1, [])], map[c := [t, t']],
          map[u := S.Running, t := S.OnCond(c, m), t' := S.OnCond(c, m')])
  }

  function TwoWaitersImage(u: KThread, t: KThread, t': KThread, m: KMutex, m': KMutex, c: KCond): Image {
    Image(u, null, null,
          map[u := ThreadWords(RUNNING, null, null, SUCCESS), t := ThreadWords(BLOCKED, t', m, SUCCESS),
              t' := ThreadWords(BLOCKED, null, m', SUCCESS)],
          map[m := MutexWords(u, 1, null, null), m' := MutexWords(u, 1, null, null)], map[c := CondWords(t, t')])
  }

  lemma TwoWaitersSound(u: KThread, t: KThread, t': KThread, m: KMutex, m': KMutex, c: KCond)
    requires u != t && u != t' && t != t' && m != m' && !m.recursive && !m'.recursive
    ensures var s := TwoWaiters(u, t, t', m, m', c); S.Inv(s) && S.Waiters(s, c) && !S.OneMutex(s, c)
  {
    var s := TwoWaiters(u, t, t', m, m', c);
    assert t in s.conds[c] && t' in s.conds[c];
  }

  lemma TwoWaitersHeld(u: KThread, t: KThread, t': KThread, m: KMutex, m': KMutex, c: KCond)
    requires u != t && u != t' && t != t' && m != m'
    ensures Holds(TwoWaitersImage(u, t, t', m, m', c), TwoWaiters(u, t, t', m, m', c))
  {
  }

  /** In a sound system with two waiters and two mutexes, a broadcast makes `t` the whole queue of `m`, but
      `t` still links to `t'`, and there is no chain. */
  lemma TwoMutexes(u: KThread, t: KThread, t': KThread, m: KMutex, m': KMutex, c: KCond)
    requires u != t && u != t' && t != t' && m != m' && !m.recursive && !m'.recursive
    ensures var s, im := TwoWaiters(u, t, t', m, m', c), TwoWaitersImage(u, t, t', m, m', c);
      && S.Inv(s) && Holds(im, s) && S.WellTyped(s, S.DoSignalAll(c)) && AllLockable(im, [t, t'])
      && var after := Broadcast(im, c, [t, t']);
         && m in after.mutexes && after.mutexes[m].head == t == after.mutexes[m].tail
         && t in after.threads && after.threads[t].next == t'
         && forall q :: !Chain(after.threads, q, t, t)
  {
    hide S.Inv, Holds, S.Waiters, S.OneMutex;
    var s, im := TwoWaiters(u, t, t', m, m', c), TwoWaitersImage(u, t, t', m, m', c);
    TwoWaitersSound(u, t, t', m, m', c);
    TwoWaitersHeld(u, t, t', m, m', c);
    WaitingTwo(im, s, c);
    var im1 := LockOwn(im, t);
    assert [t, t'][1..] == [t'] && [t'][1..] == [];
    AllStayLockable(im, [t, t']);
    AllStayLockable(im1, [t']);
    assert LockAll(im1, [t']) == LockOwn(im1, t');
    var after := Broadcast(im, c, [t, t']);
    forall q ensures !Chain(after.threads, q, t, t) {
      if Chain(after.threads, q, t, t) {
        TailEndsChain(after.threads, q, t, t);
      }
    }
  }

  lemma WaitingTwo(im: Image, s: S.Sys, c: KCond)
    requires S.Inv(s) && Holds(im, s) && S.Waiters(s, c)
    ensures AllLockable(im, s.conds[c])
  {
    HoldsWaitlist(im, s, c);
  }
}
