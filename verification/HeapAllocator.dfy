/** The heap allocator over raw memory: segment headers at addresses, linked both ways.
    The `tag` word of a header is the segment's block count. */
module HeapAllocator {
  import opened HeapModel
  import opened Links

  function Addrs(free: seq<Run>): (xs: seq<int>)
    ensures |xs| == |free|
  {
    seq(|free|, i requires 0 <= i < |free| => free[i].addr)
  }

  ghost predicate Recorded(mem: Memory, r: Run) {
    r.addr in mem && mem[r.addr].tag == r.blocks
  }

  /** Memory holds the runs `f` as a linked list. */
  ghost predicate ListHolds(head: int, mem: Memory, f: seq<Run>) {
    && Linked(head, mem, Addrs(f))
    && Distinct(Addrs(f))
    && (forall r :: r in f ==> Recorded(mem, r))
  }

  /** Memory holds the heap `s`: its free list, doubly linked, and the size of every run. */
  ghost predicate Holds(head: int, mem: Memory, s: HeapState) {
    && Linked(head, mem, Addrs(s.free))
    && (forall r :: r in s.free ==> Recorded(mem, r))
    && (forall r :: r in s.live ==> Recorded(mem, r))
  }

  lemma FreeFacts(s: HeapState)
    requires Inv(s)
    ensures Distinct(Addrs(s.free))
    ensures forall i :: 0 <= i < |s.free| ==> s.lo <= s.free[i].addr && s.free[i].End() <= s.hi
    ensures forall i, r :: 0 <= i < |s.free| && r in s.live ==> r.Apart(s.free[i])
  {
    forall i | 0 <= i < |s.free|
      ensures s.lo <= s.free[i].addr && s.free[i].End() <= s.hi
      ensures forall r :: r in s.live ==> r.Apart(s.free[i])
    {
      FreeRunInside(s, i);
    }
  }

  // ---- Memory effect of an allocation ---------------------------------------------------

  /** What the headers need to know of the heap: the touched addresses are all different. */
  ghost predicate Separate(s: HeapState, i: nat, n: nat) {
    && i < |s.free| && 1 <= n <= s.free[i].blocks
    && Distinct(Addrs(s.free))
    && (forall r :: r in s.live ==> r.addr != s.free[i].addr)
    && (n < s.free[i].blocks ==>
          var rest := s.free[i].addr + BLOCK_SIZE * n;
          rest != 0 && rest !in Addrs(s.free) && forall r :: r in s.live ==> r.addr != rest)
  }

  lemma InvSeparates(s: HeapState, i: nat, n: nat)
    requires Inv(s) && i < |s.free| && 1 <= n <= s.free[i].blocks
    ensures Separate(s, i, n)
  {
    FreeFacts(s);
    var rest := s.free[i].addr + BLOCK_SIZE * n;
    if n < s.free[i].blocks {
      forall j | 0 <= j < |s.free| ensures Addrs(s.free)[j] != rest {
        assert j < i ==> s.free[j].End() < s.free[i].addr;
        assert i < j ==> s.free[i].End() < s.free[j].addr;
      }
    }
    forall r | r in s.live ensures r.addr != s.free[i].addr && (n < s.free[i].blocks ==> r.addr != rest) {
      assert r.Apart(s.free[i]);
    }
  }

  /** Tags written: `n` at the new live run, the remainder at the rest of a split one. */
  lemma TakeRecorded(mem: Memory, s: HeapState, i: nat, n: nat, mem': Memory)
    requires Separate(s, i, n)
    requires forall r :: r in s.free ==> Recorded(mem, r)
    requires forall r :: r in s.live ==> Recorded(mem, r)
    requires var rest := s.free[i].addr + BLOCK_SIZE * n;
      var split := n < s.free[i].blocks;
      && mem.Keys <= mem'.Keys
      && (split ==> rest in mem' && mem'[rest].tag == s.free[i].blocks - n)
      && s.free[i].addr in mem' && mem'[s.free[i].addr].tag == n
      && (forall a :: a in mem && a != s.free[i].addr && (split ==> a != rest) ==> mem'[a].tag == mem[a].tag)
    ensures forall r :: r in Take(s, i, n).free ==> Recorded(mem', r)
    ensures forall r :: r in Take(s, i, n).live ==> Recorded(mem', r)
  {
    var t := Take(s, i, n);
    forall r | r in t.free ensures Recorded(mem', r) {
      var j :| 0 <= j < |t.free| && t.free[j] == r;
      var k := if n < s.free[i].blocks || j < i then j else j + 1;
      if k != i {
        assert r == s.free[k] && Recorded(mem, s.free[k]);
        assert Addrs(s.free)[k] != Addrs(s.free)[i];
        assert Addrs(s.free)[k] in Addrs(s.free);
      }
    }
  }

  /** Memory once `n` blocks of free segment `i` are taken: the header of what remains takes
      the segment's place in the list, or its neighbours are linked past it. */
  ghost function Relinked(mem: Memory, s: HeapState, i: nat, n: nat): Memory
    requires Separate(s, i, n) && Holds(At(Addrs(s.free), 0), mem, s)
  {
    var xs := Addrs(s.free);
    var next, prev := At(xs, i + 1), At(xs, i - 1);
    NeighboursAreMapped(mem, xs, i + 1);
    NeighboursAreMapped(mem, xs, i - 1);
    if n < s.free[i].blocks then
      var rest := s.free[i].addr + BLOCK_SIZE * n;
      Adopt(mem[rest := Node(s.free[i].blocks - n, next, prev)], prev, rest, next)
    else
      Bridge(mem, prev, next)
  }

  lemma RelinkedLinks(mem: Memory, s: HeapState, i: nat, n: nat)
    requires Separate(s, i, n) && Holds(At(Addrs(s.free), 0), mem, s)
    ensures var xs := Addrs(Take(s, i, n).free);
      s.free[i].addr !in xs && Linked(At(xs, 0), Relinked(mem, s, i, n), xs)
  {
    var xs := Addrs(s.free);
    if n < s.free[i].blocks {
      var rest := s.free[i].addr + BLOCK_SIZE * n;
      var header := Node(s.free[i].blocks - n, At(xs, i + 1), At(xs, i - 1));
      LinkedFrame(At(xs, 0), mem, rest, header, xs);
      AdoptReplaces(mem[rest := header], xs, i, rest);
      assert Addrs(Take(s, i, n).free) == xs[i := rest];
      var ys := xs[i := rest];
      forall j | 0 <= j < |ys| ensures ys[j] != xs[i] {
        assert j != i ==> xs[j] != xs[i];
        assert xs[i] in xs;
      }
    } else {
      BridgeRemoves(mem, xs, i);
      WithoutDistinct(xs, i);
      assert Addrs(Take(s, i, n).free) == Without(xs, i);
    }
  }

  lemma TakeHolds(mem: Memory, s: HeapState, i: nat, n: nat)
    requires Separate(s, i, n) && Holds(At(Addrs(s.free), 0), mem, s)
    ensures var t := Take(s, i, n);
      Holds(At(Addrs(t.free), 0), Relinked(mem, s, i, n)[s.free[i].addr := Node(n, 0, 0)], t)
  {
    var linked := Relinked(mem, s, i, n);
    RelinkedLinks(mem, s, i, n);
    var xs := Addrs(Take(s, i, n).free);
    LinkedFrame(At(xs, 0), linked, s.free[i].addr, Node(n, 0, 0), xs);
    TakeRecorded(mem, s, i, n, linked[s.free[i].addr := Node(n, 0, 0)]);
  }

  /** The head of the list once blocks are taken. */
  lemma TakenHead(s: HeapState, i: nat, n: nat)
    requires Separate(s, i, n)
    ensures At(Addrs(s.free), i - 1) == 0 <==> i == 0
    ensures At(Addrs(Take(s, i, n).free), 0)
            == if i > 0 then At(Addrs(s.free), 0)
               else if n < s.free[i].blocks then s.free[i].addr + BLOCK_SIZE * n
               else At(Addrs(s.free), 1)
  {
    assert i > 0 ==> At(Addrs(s.free), i - 1) in Addrs(s.free);
  }

  lemma EmptyHeadBreaks(head: int, mem: Memory, s: HeapState)
    requires head != 0 && head in mem && mem[head].tag == 0
    ensures !(Inv(s) && Holds(head, mem, s))
  {
    if s.free != [] {
      assert s.free[0] in s.free;
      assert Addrs(s.free)[0] == s.free[0].addr;
    }
  }

  // ---- The allocator --------------------------------------------------------------------

  class Heap {
    var head: int
    var mem: Memory
    ghost var st: HeapState

    ghost predicate Valid()
      reads this
    {
      Inv(st) && Holds(head, mem, st)
    }

    ghost predicate LivePointer(ptr: int)
      reads this
    {
      exists r :: r in st.live && r.addr == ptr - HEADER_SIZE
    }

    /** The run whose payload `ptr` points at, as its header describes it. */
    ghost function RunOf(ptr: int): Run
      requires Valid() && LivePointer(ptr)
      reads this
      ensures RunOf(ptr) in st.live
    {
      Run(ptr - HEADER_SIZE, mem[ptr - HEADER_SIZE].tag)
    }

    /** kheap_init over [start, end). A region shorter than a block gets an empty segment, which no free
        list may hold. */
    constructor (start: int, end: int)
      requires 0 < start <= end < WORD_LIMIT
      ensures Valid() <==> start + BLOCK_SIZE <= end
      ensures st == Initial(start, (end - start) / BLOCK_SIZE)
      ensures end - BLOCK_SIZE < st.hi <= end
    {
      var blocks := (end - start) / BLOCK_SIZE;
      head := start;
      mem := map[start := Node(blocks, 0, 0)];
      st := Initial(start, blocks);
      if blocks >= 1 {
        InitialInv(start, blocks);
      }
    }

    /** The search loop of kheap_alloc. */
    method FindFit(blocks: nat) returns (valid: int, ghost i: nat)
      requires ListHolds(head, mem, st.free)
      ensures i == FirstFit(st.free, blocks)
      ensures valid == At(Addrs(st.free), i)
      ensures i < |st.free| ==> valid != 0 && valid in mem && mem[valid].tag == st.free[i].blocks
      ensures i < |st.free| ==> Placed(mem, Addrs(st.free), i)
      ensures i < |st.free| ==>
        var Node(_, next, prev) := mem[valid];
        (next == 0 || next in mem) && (prev == 0 || prev in mem) && (next != prev || next == 0)
    {
      ghost var xs := Addrs(st.free);
      i := 0;
      valid := head;
      while valid != 0
        invariant i <= |st.free| && valid == At(xs, i)
        invariant forall j :: 0 <= j < i ==> st.free[j].blocks < blocks
        decreases |st.free| - i
      {
        assert Placed(mem, xs, i);
        assert st.free[i] in st.free && Recorded(mem, st.free[i]);
        if mem[valid].tag >= blocks {
          break;
        }
        valid := mem[valid].next;
        i := i + 1;
      }
      if valid != 0 {
        ghost var k: int := i;
        NeighboursAreMapped(mem, xs, k - 1);
        NeighboursAreMapped(mem, xs, k + 1);
      }
    }

    /** The header at `rest` takes the place of the one at `valid`. */
    method Split(valid: int, rest: int, left: int)
      requires valid in mem && rest != 0
      requires var Node(_, next, prev) := mem[valid];
        && (next == 0 || next in mem) && (prev == 0 || prev in mem)
        && (next != prev || next == 0)
      modifies this
      ensures var Node(_, next, prev) := old(mem)[valid];
        && mem == Adopt(old(mem)[rest := Node(left, next, prev)], prev, rest, next)
        && head == (if prev == 0 then rest else old(head))
        && st == old(st)
    {
      var Node(_, next, prev) := mem[valid];
      mem := mem[rest := Node(left, next, prev)];
      if next != 0 {
        mem := mem[next := mem[next].(prev := rest)];
      }
      if prev != 0 {
        mem := mem[prev := mem[prev].(next := rest)];
      } else {
        head := rest;
      }
    }

    /** The neighbours of `valid` are linked past it. */
    method Unlink(valid: int)
      requires valid in mem
      requires var Node(_, next, prev) := mem[valid];
        (next == 0 || next in mem) && (prev == 0 || prev in mem)
      modifies this
      ensures var Node(_, next, prev) := old(mem)[valid];
        && mem == Bridge(old(mem), prev, next)
        && head == (if prev == 0 then next else old(head))
        && st == old(st)
    {
      var Node(_, next, prev) := mem[valid];
      if prev != 0 {
        mem := mem[prev := mem[prev].(next := next)];
      } else {
        head := next;
      }
      if next != 0 {
        mem := mem[next := mem[next].(prev := prev)];
      }
    }

    /** The second half of kheap_alloc: `blocks` blocks of the segment at `valid` are taken. */
    method TakeFrom(valid: int, blocks: nat, ghost i: nat)
      requires i < |st.free| && valid == st.free[i].addr
      requires Holds(head, mem, st) && Placed(mem, Addrs(st.free), i)
      requires mem[valid].tag == st.free[i].blocks >= blocks
      requires var Node(_, next, prev) := mem[valid];
        (next == 0 || next in mem) && (prev == 0 || prev in mem) && (next != prev || next == 0)
      requires blocks > 0 ==> Separate(st, i, blocks)
      requires blocks == 0 ==> i == 0 && valid != 0 && st.free[i].blocks > 0
      modifies this
      ensures blocks > 0 ==> st == Take(old(st), i, blocks) && Holds(head, mem, st)
      ensures blocks == 0 ==> head == valid && valid in mem && mem[valid].tag == 0
    {
      hide Distinct, Adopt, Bridge;
      var remaining := mem[valid].tag - blocks;
      ghost var linked;
      if remaining > 0 {
        Split(valid, valid + blocks * BLOCK_SIZE, remaining);
        linked := mem;
        assert blocks > 0 ==> linked == Relinked(old(mem), st, i, blocks);
        mem := mem[valid := mem[valid].(tag := blocks)];
      } else {
        Unlink(valid);
        linked := mem;
        assert linked == Relinked(old(mem), st, i, blocks);
      }
      mem := mem[valid := mem[valid].(prev := 0, next := 0)];
      if blocks > 0 {
        assert mem == linked[valid := Node(blocks, 0, 0)];
        TakeHolds(old(mem), st, i, blocks);
        TakenHead(st, i, blocks);
        st := Take(st, i, blocks);
      }
    }

    /** kheap_alloc. One request size defeats it: when the header addition wraps to 0 the
        block count is 0 and the first free run, if any, is cut off the list as an empty one. */
    method Alloc(bytes: nat) returns (ptr: int)
      requires Valid() && bytes < WORD_LIMIT
      modifies this
      ensures Valid() <==> Harmless(old(st), bytes)
      ensures ptr == HeapModel.Alloc(old(st), bytes).1 && (!Valid() ==> ptr != 0)
      ensures Valid() ==> st == HeapModel.Alloc(old(st), bytes).0
      ensures ptr != 0 && Valid() ==> LivePointer(ptr) && RunOf(ptr) == Run(ptr - HEADER_SIZE, BlocksFor(bytes))
    {
      var blocks := BlocksFor(bytes);
      BlocksHoldRequest(bytes);
      FreeFacts(st);
      var valid, i := FindFit(blocks);
      if valid == 0 {
        return 0;
      }
      if blocks > 0 {
        InvSeparates(st, i, blocks);
        TakeKeepsInv(st, i, blocks);
      }
      TakeFrom(valid, blocks, i);
      ptr := valid + HEADER_SIZE;
      if blocks > 0 {
        assert Run(valid, blocks) in st.live;
      } else {
        EmptyHeadBreaks(head, mem, st);
      }
    }

    /** The segment takes over the blocks and the successor of its successor. */
    method Absorb(segment: int)
      requires segment != 0 && segment in mem && mem[segment].next in mem
      requires var after := mem[mem[segment].next].next; after == 0 || after in mem
      modifies this`mem
      ensures var next := old(mem)[segment].next;
        var after := old(mem)[next].next;
        mem == Bridge(old(mem)[segment := old(mem)[segment].(tag := old(mem)[segment].tag + old(mem)[next].tag)],
                      segment, after)
    {
      var next := mem[segment].next;
      var after := mem[next].next;
      mem := mem[segment := mem[segment].(tag := mem[segment].tag + mem[next].tag)];
      mem := mem[segment := mem[segment].(next := after)];
      if after != 0 {
        mem := mem[after := mem[after].(prev := segment)];
      }
    }

    /** try_join_next_segment, for the segment that is entry `i` of the list `f`. */
    method TryJoinNext(segment: int, ghost f: seq<Run>, ghost i: nat)
      requires ListHolds(head, mem, f) && i < |f| && segment == f[i].addr
      modifies this`mem
      ensures ListHolds(head, mem, JoinNext(f, i))
      ensures forall a :: a in old(mem) && a !in Addrs(f) ==> a in mem && mem[a] == old(mem)[a]
    {
      ghost var xs := Addrs(f);
      assert Placed(mem, xs, i) && f[i] in f && xs[i] == segment;
      assert Recorded(mem, f[i]);
      var next := mem[segment].next;
      if next == 0 {
        return;
      }
      assert Placed(mem, xs, i + 1) && f[i + 1] in f && xs[i + 1] == next;
      assert Recorded(mem, f[i + 1]);
      if segment + mem[segment].tag * BLOCK_SIZE != next {
        return;
      }
      JoinHolds(head, mem, f, i);
      NeighboursAreMapped(mem, xs, i + 2);
      Absorb(segment);
      assert mem == Joined(old(mem), f, i);
    }

    /** The search loop of kheap_dealloc: the last free segment below `segment`, or null. */
    method FindPrev(segment: int) returns (prev: int, ghost k: nat)
      requires ListHolds(head, mem, st.free)
      ensures k == Slot(st.free, segment)
      ensures var xs := Addrs(st.free);
        prev == At(xs, k - 1) && (if prev == 0 then k == 0 else k > 0 && Placed(mem, xs, k - 1))
    {
      ghost var xs := Addrs(st.free);
      k := 0;
      prev := 0;
      var curr := head;
      while curr != 0
        invariant k <= |st.free| && curr == At(xs, k) && prev == At(xs, k - 1)
        invariant k > 0 ==> Placed(mem, xs, k - 1)
        invariant forall j :: 0 <= j < k ==> st.free[j].addr <= segment
        decreases |st.free| - k
      {
        if segment < curr {
          break;
        }
        assert Placed(mem, xs, k);
        prev, curr := curr, mem[curr].next;
        k := k + 1;
      }
    }

    /** The segment is put into the list behind `prev`. */
    method LinkIn(segment: int, prev: int)
      requires segment in mem && prev != segment && segment != 0
      requires prev == 0 || prev in mem
      requires var next := if prev != 0 then mem[prev].next else head;
        next != segment && (next == 0 || (next in mem && next != prev))
      modifies this
      ensures var next := if prev != 0 then old(mem)[prev].next else old(head);
        mem == Adopt(old(mem)[segment := Node(old(mem)[segment].tag, next, prev)], prev, segment, next)
      ensures head == (if prev == 0 then segment else old(head))
      ensures st == old(st)
    {
      mem := mem[segment := mem[segment].(prev := prev)];
      var next := if prev != 0 then mem[prev].next else head;
      mem := mem[segment := mem[segment].(next := next)];
      assert mem == old(mem)[segment := Node(old(mem)[segment].tag, next, prev)];
      if prev != 0 {
        mem := mem[prev := mem[prev].(next := segment)];
      } else {
        head := segment;
      }
      if next != 0 {
        mem := mem[next := mem[next].(prev := segment)];
      }
    }

    /** The last lines of kheap_dealloc: join with the next segment, then with the previous. */
    method JoinBothWays(segment: int, ghost f: seq<Run>, ghost k: nat)
      requires ListHolds(head, mem, f) && k < |f| && f[k].addr == segment
      modifies this`mem
      ensures var g := JoinNext(f, k);
        ListHolds(head, mem, if k > 0 then JoinNext(g, k - 1) else g)
      ensures forall a :: a in old(mem) && a !in Addrs(f) ==> a in mem && mem[a] == old(mem)[a]
    {
      TryJoinNext(segment, f, k);
      ghost var g := JoinNext(f, k);
      AddrsOfJoin(f, k);
      assert Placed(mem, Addrs(g), k) && Addrs(g)[k] == segment;
      if mem[segment].prev != 0 {
        assert mem[segment].prev == Addrs(g)[k - 1];
        TryJoinNext(mem[segment].prev, g, k - 1);
      } else {
        assert k > 0 ==> Addrs(g)[k - 1] in Addrs(g);
      }
    }

    /** The list work of kheap_dealloc: find the place, link in, join both ways. */
    method Return(segment: int, ghost r: Run) returns (ghost k: nat)
      requires ListHolds(head, mem, st.free)
      requires segment == r.addr && segment != 0 && segment !in Addrs(st.free) && Recorded(mem, r)
      modifies this
      ensures st == old(st) && k <= |st.free|
      ensures ListHolds(head, mem, Release(st.free, r))
      ensures var xs := Addrs(st.free[..k] + [r] + st.free[k..]);
        forall a :: a in old(mem) && a !in xs ==> a in mem && mem[a] == old(mem)[a]
    {
      hide Adopt, JoinNext, Distinct;
      var prev;
      prev, k := FindPrev(segment);
      InsertHolds(head, mem, st.free, r, k);
      WithNeighbours(Addrs(st.free), k, segment);
      assert segment in With(Addrs(st.free), k, segment);
      LinkIn(segment, prev);
      JoinBothWays(segment, st.free[..k] + [r] + st.free[k..], k);
    }

    /** kheap_dealloc of a live pointer. */
    method Dealloc(ptr: int)
      requires Valid() && LivePointer(ptr)
      modifies this
      ensures Valid() && st == HeapModel.Dealloc(old(st), old(RunOf(ptr)))
    {
      var segment := ptr - HEADER_SIZE;
      ghost var r := RunOf(ptr);
      LiveFacts(st, r);
      assert Recorded(mem, r);
      var k := Return(segment, r);
      KeptRecords(old(mem), mem, st, r, k);
      DeallocKeepsInv(st, r);
      st := HeapModel.Dealloc(st, r);
    }
  }

  lemma LiveFacts(s: HeapState, r: Run)
    requires Inv(s) && r in s.live
    ensures Distinct(Addrs(s.free)) && r.addr != 0 && r.addr !in Addrs(s.free)
    ensures forall q :: q in s.live && q != r ==> q.addr != r.addr && q.addr !in Addrs(s.free)
  {
    FreeFacts(s);
    forall q | q in s.live ensures q.addr !in Addrs(s.free) && (q != r ==> q.addr != r.addr) {
      assert q != r ==> q.Apart(r);
      forall i | 0 <= i < |s.free| ensures Addrs(s.free)[i] != q.addr {
        assert q.Apart(s.free[i]);
      }
    }
  }

  lemma NotInserted(xs: seq<int>, k: nat, a: int, x: int)
    requires k <= |xs| && x !in xs && x != a
    ensures x !in With(xs, k, a)
  {
  }

  /** The other live runs do not start where an entry of the list does. */
  lemma LiveOffList(s: HeapState, r: Run, k: nat, q: Run)
    requires Inv(s) && r in s.live && k <= |s.free| && q in s.live && q != r
    ensures q.addr !in Addrs(s.free[..k] + [r] + s.free[k..])
  {
    LiveFacts(s, r);
    assert Addrs(s.free[..k] + [r] + s.free[k..]) == With(Addrs(s.free), k, r.addr);
    NotInserted(Addrs(s.free), k, r.addr, q.addr);
  }

  /** The headers of the other live runs survive a release. */
  lemma KeptRecords(mem: Memory, mem': Memory, s: HeapState, r: Run, k: nat)
    requires Inv(s) && r in s.live && k <= |s.free|
    requires forall q :: q in s.live ==> Recorded(mem, q)
    requires var xs := Addrs(s.free[..k] + [r] + s.free[k..]);
      forall a :: a in mem && a !in xs ==> a in mem' && mem'[a] == mem[a]
    ensures forall q :: q in s.live - {r} ==> Recorded(mem', q)
  {
    hide Inv, Addrs;
    forall q | q in s.live - {r} ensures Recorded(mem', q) {
      assert Recorded(mem, q);
      LiveOffList(s, r, k, q);
    }
  }

  lemma AddrsOfJoin(f: seq<Run>, i: nat)
    requires i < |f|
    ensures forall a :: a in Addrs(JoinNext(f, i)) ==> a in Addrs(f)
  {
    var g := JoinNext(f, i);
    forall a | a in Addrs(g) ensures a in Addrs(f) {
      var j :| 0 <= j < |g| && Addrs(g)[j] == a;
      assert Addrs(f)[if j <= i || g == f then j else j + 1] == a;
    }
  }

  lemma InsertHolds(head: int, mem: Memory, free: seq<Run>, r: Run, k: nat)
    requires ListHolds(head, mem, free) && k <= |free|
    requires Recorded(mem, r) && r.addr != 0 && r.addr !in Addrs(free)
    ensures var xs := Addrs(free);
      var prev, next := At(xs, k - 1), At(xs, k);
      var m0 := mem[r.addr := Node(r.blocks, next, prev)];
      var f := free[..k] + [r] + free[k..];
      && (prev == 0 || prev in m0) && (next == 0 || next in m0)
      && Addrs(f) == With(xs, k, r.addr)
      && ListHolds(At(Addrs(f), 0), Adopt(m0, prev, r.addr, next), f)
  {
    var xs := Addrs(free);
    var m0 := mem[r.addr := Node(r.blocks, At(xs, k), At(xs, k - 1))];
    LinkedFrame(head, mem, r.addr, m0[r.addr], xs);
    AdoptInserts(m0, xs, k, r.addr);
    var f := free[..k] + [r] + free[k..];
    assert Addrs(f) == With(xs, k, r.addr);
    forall q | q in f && q != r ensures Recorded(Adopt(m0, At(xs, k - 1), r.addr, At(xs, k)), q) {
      assert q in free && Recorded(mem, q);
      var j :| 0 <= j < |free| && free[j] == q;
      assert xs[j] == q.addr && xs[j] in xs;
    }
  }

  ghost function Joined(mem: Memory, f: seq<Run>, i: nat): Memory
    requires i + 1 < |f| && ListHolds(At(Addrs(f), 0), mem, f)
  {
    var xs := Addrs(f);
    assert Placed(mem, xs, i);
    NeighboursAreMapped(mem, xs, i + 2);
    Bridge(mem[xs[i] := mem[xs[i]].(tag := f[i].blocks + f[i + 1].blocks)], xs[i], At(xs, i + 2))
  }

  lemma JoinRecorded(mem: Memory, f: seq<Run>, i: nat, mem': Memory)
    requires Distinct(Addrs(f)) && Touches(f, i)
    requires forall r :: r in f ==> Recorded(mem, r)
    requires f[i].addr in mem' && mem'[f[i].addr].tag == f[i].blocks + f[i + 1].blocks
    requires forall a :: a in mem && a != f[i].addr ==> a in mem' && mem'[a].tag == mem[a].tag
    ensures forall r :: r in JoinNext(f, i) ==> Recorded(mem', r)
  {
    var g := JoinNext(f, i);
    forall r | r in g ensures Recorded(mem', r) {
      var j :| 0 <= j < |g| && g[j] == r;
      if j != i {
        var k := if j < i then j else j + 1;
        assert r == f[k] && Recorded(mem, f[k]) && Addrs(f)[k] != Addrs(f)[i];
      }
    }
  }

  lemma JoinHolds(head: int, mem: Memory, f: seq<Run>, i: nat)
    requires ListHolds(head, mem, f) && Touches(f, i)
    ensures ListHolds(head, Joined(mem, f, i), JoinNext(f, i))
  {
    var xs := Addrs(f);
    assert Placed(mem, xs, i);
    var retagged := mem[xs[i] := mem[xs[i]].(tag := f[i].blocks + f[i + 1].blocks)];
    LinkedRetag(head, mem, xs[i], f[i].blocks + f[i + 1].blocks, xs);
    BridgeRemoves(retagged, xs, i + 1);
    assert Addrs(JoinNext(f, i)) == Without(xs, i + 1);
    JoinRecorded(mem, f, i, Joined(mem, f, i));
  }
}
