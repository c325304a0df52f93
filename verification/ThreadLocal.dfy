/** Thread-local storage: one record per (thread, storage) pair, on two doubly linked lists at once,
    one through all records of its thread and one through all records of its storage. Records,
    threads and storages are addresses; the fields of the records are kept field by field. */
module ThreadLocal {
  import opened Links
  import K = KernelObjects

  // ---- One dimension ----------------------------------------------------------------------------

  ghost predicate ListOf(head: int, mem: Memory, xs: seq<int>, owner: map<int, int>, k: int) {
    && Distinct(xs) && Linked(head, mem, xs)
    && forall a :: a in xs ==> a in owner && owner[a] == k
  }

  /** Every owner has a list of exactly its own records. */
  ghost predicate Lists(heads: map<int, int>, mem: Memory, lists: map<int, seq<int>>, owner: map<int, int>) {
    && heads.Keys == lists.Keys && mem.Keys == owner.Keys
    && (forall k :: k in lists ==> ListOf(heads[k], mem, lists[k], owner, k))
    && (forall a :: a in owner ==> owner[a] in lists && a in lists[owner[a]])
  }

  lemma HeadIsMapped(heads: map<int, int>, mem: Memory, lists: map<int, seq<int>>, owner: map<int, int>, k: int)
    requires Lists(heads, mem, lists, owner) && k in lists
    ensures heads[k] == 0 || (heads[k] in mem && heads[k] in owner && owner[heads[k]] == k)
  {
    assert ListOf(heads[k], mem, lists[k], owner, k);
    if heads[k] != 0 {
      assert lists[k][0] in lists[k];
    }
  }

  /** A new record in front of the list of `j` keeps all lists. */
  lemma PushKeepsLists(heads: map<int, int>, mem: Memory, lists: map<int, seq<int>>, owner: map<int, int>, j: int,
                       x: int)
    requires Lists(heads, mem, lists, owner) && j in lists && x != 0 && x !in owner
    ensures heads[j] == 0 || heads[j] in mem
    ensures Lists(heads[j := x], Pushed(mem, heads[j], x, 0), lists[j := [x] + lists[j]], owner[x := j])
  {
    HeadIsMapped(heads, mem, lists, owner, j);
    var heads', lists', owner' := heads[j := x], lists[j := [x] + lists[j]], owner[x := j];
    var mem' := Pushed(mem, heads[j], x, 0);
    forall k | k in lists' ensures ListOf(heads'[k], mem', lists'[k], owner', k) {
      assert ListOf(heads[k], mem, lists[k], owner, k);
      if k == j {
        PushedOwn(mem, lists[j], x, 0);
      } else {
        PushedOther(mem, heads[k], lists[k], heads[j], x, 0);
      }
    }
    forall a | a in owner' ensures owner'[a] in lists' && a in lists'[owner'[a]] {
      if a != x {
        assert a in lists[owner[a]];
      }
    }
  }

  // ---- Values ---------------------------------------------------------------------------------------

  /** The plain fields of the records. */
  datatype Fields = Fields(thread: map<int, int>, storage: map<int, int>, data: map<int, int>)

  /** The records hold the values `view`, one record for each pair. */
  ghost predicate Values(f: Fields, view: map<(int, int), int>) {
    && f.thread.Keys == f.storage.Keys == f.data.Keys
    && (forall a :: a in f.data ==> ValueAt(f, view, a))
    && (forall a, b ::
          a in f.data && b in f.data && f.thread[a] == f.thread[b] && f.storage[a] == f.storage[b] ==> a == b)
    && (forall p :: p in view ==> exists a :: a in f.data && f.thread[a] == p.0 && f.storage[a] == p.1)
  }

  ghost predicate ValueAt(f: Fields, view: map<(int, int), int>, a: int)
    requires a in f.data && a in f.thread && a in f.storage
  {
    (f.thread[a], f.storage[a]) in view && view[(f.thread[a], f.storage[a])] == f.data[a]
  }

  lemma NewValue(f: Fields, view: map<(int, int), int>, x: int, t: int, s: int, data: int)
    requires Values(f, view) && x !in f.data && (t, s) !in view
    ensures Values(Fields(f.thread[x := t], f.storage[x := s], f.data[x := data]), view[(t, s) := data])
  {
    var g, more := Fields(f.thread[x := t], f.storage[x := s], f.data[x := data]), view[(t, s) := data];
    forall a | a in f.data ensures ValueAt(g, more, a) {
      assert ValueAt(f, view, a);
    }
    forall p | p in more ensures exists a :: a in g.data && g.thread[a] == p.0 && g.storage[a] == p.1 {
      if p == (t, s) {
        assert x in g.data;
      } else {
        var a :| a in f.data && f.thread[a] == p.0 && f.storage[a] == p.1;
        assert a in g.data;
      }
    }
  }

  lemma OtherValue(f: Fields, view: map<(int, int), int>, x: int, data: int)
    requires Values(f, view) && x in f.data
    ensures Values(f.(data := f.data[x := data]), view[(f.thread[x], f.storage[x]) := data])
  {
    var g, more := f.(data := f.data[x := data]), view[(f.thread[x], f.storage[x]) := data];
    forall a | a in g.data ensures ValueAt(g, more, a) {
      assert ValueAt(f, view, a);
    }
    forall p | p in more ensures exists a :: a in g.data && g.thread[a] == p.0 && g.storage[a] == p.1 {
      if p == (f.thread[x], f.storage[x]) {
        assert x in g.data;
      } else {
        var a :| a in f.data && f.thread[a] == p.0 && f.storage[a] == p.1;
        assert a in g.data;
      }
    }
  }

  // ---- The operations ---------------------------------------------------------------------------------

  class LocalStorage {
    /** `local_data_head` of every thread and `data_head` of every storage. */
    var threadHead: map<int, int>
    var storageHead: map<int, int>

    /** The links of a record through its thread and through its storage. */
    var dataLinks: Memory
    var threadLinks: Memory

    var fields: Fields

    ghost var byThread: map<int, seq<int>>
    ghost var byStorage: map<int, seq<int>>

    /** The values set so far, by thread and storage. */
    ghost var view: map<(int, int), int>

    /** Both dimensions hold the same records, and these hold the values. */
    ghost predicate Valid()
      reads this
    {
      && Lists(threadHead, dataLinks, byThread, fields.thread)
      && Lists(storageHead, threadLinks, byStorage, fields.storage)
      && Values(fields, view)
    }

    constructor ()
      ensures Valid() && view == map[] && threadHead == map[] && storageHead == map[]
    {
      threadHead, storageHead, dataLinks, threadLinks := map[], map[], map[], map[];
      fields := Fields(map[], map[], map[]);
      byThread, byStorage, view := map[], map[], map[];
    }

    /** The lookup loop: the record of the thread for this storage, or null. */
    method Find(storage: int, thread: int) returns (found: int)
      requires Valid() && thread in threadHead
      ensures found != 0 ==> found in fields.data && fields.thread[found] == thread && fields.storage[found] == storage
      ensures found == 0 ==> (thread, storage) !in view
    {
      ghost var xs := byThread[thread];
      ghost var i := 0;
      assert ListOf(threadHead[thread], dataLinks, xs, fields.thread, thread);
      found := threadHead[thread];
      while found != 0
        invariant 0 <= i <= |xs| && found == At(xs, i)
        invariant forall j :: 0 <= j < i ==> xs[j] in fields.storage && fields.storage[xs[j]] != storage
        decreases |xs| - i
      {
        assert xs[i] in xs && Placed(dataLinks, xs, i);
        if fields.storage[found] == storage {
          return;
        }
        found := dataLinks[found].next;
        i := i + 1;
      }
      assert forall a :: a in xs ==> fields.storage[a] != storage;
    }

    /** kthread_ls_get: the value set last for the pair, or null. */
    method Get(storage: int, thread: int) returns (data: int)
      requires Valid() && thread in threadHead
      ensures data == if (thread, storage) in view then view[(thread, storage)] else 0
    {
      var found := Find(storage, thread);
      if found != 0 {
        assert ValueAt(fields, view, found);
        return fields.data[found];
      }
      return 0;
    }

    /** The new record `x` becomes the first of its thread. */
    method LinkData(x: int, thread: int)
      requires Lists(threadHead, dataLinks, byThread, fields.thread)
      requires thread in threadHead && x != 0 && x !in fields.thread
      modifies `threadHead, `dataLinks, `byThread
      ensures Lists(threadHead, dataLinks, byThread, fields.thread[x := thread])
      ensures threadHead.Keys == old(threadHead.Keys)
      ensures byThread == old(byThread)[thread := [x] + old(byThread)[thread]]
    {
      PushKeepsLists(threadHead, dataLinks, byThread, fields.thread, thread, x);
      var head := threadHead[thread];
      dataLinks := dataLinks[x := Node(0, head, 0)];
      if head != 0 {
        dataLinks := dataLinks[head := dataLinks[head].(prev := x)];
      }
      threadHead := threadHead[thread := x];
      byThread := byThread[thread := [x] + byThread[thread]];
    }

    /** The new record `x` becomes the first of its storage. */
    method LinkThread(x: int, storage: int)
      requires Lists(storageHead, threadLinks, byStorage, fields.storage)
      requires storage in storageHead && x != 0 && x !in fields.storage
      modifies `storageHead, `threadLinks, `byStorage
      ensures Lists(storageHead, threadLinks, byStorage, fields.storage[x := storage])
      ensures storageHead.Keys == old(storageHead.Keys)
      ensures byStorage == old(byStorage)[storage := [x] + old(byStorage)[storage]]
    {
      PushKeepsLists(storageHead, threadLinks, byStorage, fields.storage, storage, x);
      var head := storageHead[storage];
      threadLinks := threadLinks[x := Node(0, head, 0)];
      if head != 0 {
        threadLinks := threadLinks[head := threadLinks[head].(prev := x)];
      }
      storageHead := storageHead[storage := x];
      byStorage := byStorage[storage := [x] + byStorage[storage]];
    }

    /** A record at `x` for a pair that had none, in front of both its lists. */
    method Insert(storage: int, thread: int, data: int, x: int)
      requires Valid() && thread in threadHead && storage in storageHead
      requires x != 0 && x !in fields.data && (thread, storage) !in view
      modifies this
      ensures Valid() && threadHead.Keys == old(threadHead.Keys) && storageHead.Keys == old(storageHead.Keys)
      ensures view == old(view)[(thread, storage) := data] && fields.data == old(fields.data)[x := data]
    {
      hide Lists, ValueAt;
      NewValue(fields, view, x, thread, storage, data);
      LinkData(x, thread);
      LinkThread(x, storage);
      fields := Fields(fields.thread[x := thread], fields.storage[x := storage], fields.data[x := data]);
      view := view[(thread, storage) := data];
    }

    /** kthread_ls_set: the value of the pair, of an old record or of the new one at `x`, is `data`;
        without memory for a new record (`x` is null) nothing changes. */
    method Set(storage: int, thread: int, data: int, x: int) returns (status: K.Status)
      requires Valid() && thread in threadHead && storage in storageHead && (x != 0 ==> x !in fields.data)
      modifies this
      ensures Valid() && threadHead.Keys == old(threadHead.Keys) && storageHead.Keys == old(storageHead.Keys)
      ensures status == if x != 0 || (thread, storage) in old(view) then K.SUCCESS else K.NO_MEMORY
      ensures view == if status == K.SUCCESS then old(view)[(thread, storage) := data] else old(view)
      ensures fields.data.Keys == if status == K.SUCCESS && (thread, storage) !in old(view)
                                  then old(fields.data.Keys) + {x} else old(fields.data.Keys)
    {
      hide Lists;
      var found := Find(storage, thread);
      if found != 0 {
        assert ValueAt(fields, view, found);
        OtherValue(fields, view, found, data);
        fields := fields.(data := fields.data[found := data]);
        view := view[(thread, storage) := data];
        return K.SUCCESS;
      }
      if x == 0 {
        return K.NO_MEMORY;
      }
      Insert(storage, thread, data, x);
      return K.SUCCESS;
    }

    /** kthread_ls_create: a storage at `x` without records; null when there is no memory. */
    method Create(x: int) returns (storage: int)
      requires Valid() && (x != 0 ==> x !in storageHead)
      modifies this
      ensures Valid() && view == old(view) && fields == old(fields) && threadHead == old(threadHead) && storage == x
      ensures storageHead == if x != 0 then old(storageHead)[x := 0] else old(storageHead)
    {
      if x == 0 {
        return 0;
      }
      storageHead := storageHead[x := 0];
      byStorage := byStorage[x := []];
      return x;
    }

    /** A thread as kthread_create leaves it, without records. */
    method AddThread(thread: int)
      requires Valid() && thread !in threadHead
      modifies this
      ensures Valid() && view == old(view) && fields == old(fields) && storageHead == old(storageHead)
      ensures threadHead == old(threadHead)[thread := 0]
    {
      threadHead := threadHead[thread := 0];
      byThread := byThread[thread := []];
    }
  }
}
