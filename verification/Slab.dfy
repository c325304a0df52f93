/** The slab allocator: equal slots in one page, their free list threaded through an index array. */
module Slab {

  const PAGE := 1024
  const HEADER := 24
  const END := 0xFFFF

  // ---- The free list ----------------------------------------------------------------------------

  predicate Distinct(s: seq<nat>) {
    forall i, j :: 0 <= i < j < |s| ==> s[i] != s[j]
  }

  /** Following `next` from `head` visits exactly `free` and stops at END. */
  ghost predicate Chain(next: seq<nat>, head: nat, free: seq<nat>)
    decreases free
  {
    if free == [] then head == END
    else head == free[0] && head < |next| && Chain(next, next[head], free[1..])
  }

  ghost predicate FreeList(next: seq<nat>, head: nat, free: seq<nat>) {
    |next| < END && Distinct(free) && Chain(next, head, free)
  }

  lemma {:induction false} ChainInRange(next: seq<nat>, head: nat, free: seq<nat>, k: nat)
    requires Chain(next, head, free) && k < |free|
    ensures free[k] < |next|
    decreases free
  {
    if k > 0 {
      ChainInRange(next, next[head], free[1..], k - 1);
    }
  }

  /** The indices decide the list. */
  lemma {:induction false} ChainUnique(next: seq<nat>, head: nat, free: seq<nat>, other: seq<nat>)
    requires |next| < END && Chain(next, head, free) && Chain(next, head, other)
    ensures free == other
    decreases free
  {
    if free != [] && other != [] {
      ChainUnique(next, next[head], free[1..], other[1..]);
      assert free == [free[0]] + free[1..] && other == [other[0]] + other[1..];
    }
  }

  lemma {:induction false} ChainFrame(next: seq<nat>, head: nat, free: seq<nat>, i: nat, x: nat)
    requires Chain(next, head, free) && i < |next| && i !in free
    ensures Chain(next[i := x], head, free)
    decreases free
  {
    if free != [] {
      assert free[0] in free && forall y :: y in free[1..] ==> y in free;
      ChainFrame(next, next[head], free[1..], i, x);
    }
  }

  function Range(n: nat): (s: set<nat>)
    ensures |s| == n
    ensures forall i :: i in s <==> 0 <= i < n
  {
    if n == 0 then {} else Range(n - 1) + {n - 1}
  }

  function Elements(s: seq<nat>): set<nat> { set x | x in s }

  lemma {:induction false} DistinctCount(s: seq<nat>)
    requires Distinct(s)
    ensures |Elements(s)| == |s|
    decreases s
  {
    if s == [] {
      assert Elements(s) == {};
    } else {
      DistinctCount(s[1..]);
      assert Elements(s) == Elements(s[1..]) + {s[0]};
      assert s[0] !in s[1..];
    }
  }

  lemma SubsetCount(a: set<nat>, b: set<nat>)
    requires a <= b
    ensures |a| <= |b| && (|a| == |b| ==> a == b)
  {
    assert b == a + (b - a);
    assert |b| == |a| + |b - a|;
  }

  /** The slots handed out and not yet returned: those the list does not reach. */
  function Outstanding(slots: nat, free: seq<nat>): set<nat> {
    Range(slots) - Elements(free)
  }

  /** The list reaches every slot exactly when nothing is outstanding. */
  lemma CountTells(next: seq<nat>, head: nat, free: seq<nat>)
    requires FreeList(next, head, free)
    ensures |free| <= |next| && (|free| == |next| <==> Outstanding(|next|, free) == {})
    ensures |Outstanding(|next|, free)| == |next| - |free|
  {
    forall x | x in Elements(free) ensures x in Range(|next|) {
      var k :| 0 <= k < |free| && free[k] == x;
      ChainInRange(next, head, free, k);
    }
    DistinctCount(free);
    SubsetCount(Elements(free), Range(|next|));
    assert Range(|next|) == Elements(free) + Outstanding(|next|, free);
  }

  // ---- Taking and giving -------------------------------------------------------------------------

  /** The index array and its head. */
  datatype Indices = Indices(next: seq<nat>, head: nat)

  datatype Op = Take | Give(i: nat)

  /** END lies beyond the indices; so does an index that is no slot. */
  function Apply(s: Indices, op: Op): Indices {
    match op
    case Take => if s.head >= |s.next| then s else Indices(s.next, s.next[s.head])
    case Give(i) => if i >= |s.next| then s else Indices(s.next[i := s.head], i)
  }

  /** Taking hands out the first slot of the list, which was not outstanding. */
  lemma Takes(next: seq<nat>, head: nat, free: seq<nat>)
    requires FreeList(next, head, free) && free != []
    ensures head == free[0] < |next| && FreeList(next, next[head], free[1..])
    ensures head !in Outstanding(|next|, free)
    ensures Outstanding(|next|, free[1..]) == Outstanding(|next|, free) + {head}
  {
    assert Elements(free) == Elements(free[1..]) + {head};
    assert head !in free[1..];
  }

  /** Returning an outstanding slot puts it in front. */
  lemma Gives(next: seq<nat>, head: nat, free: seq<nat>, i: nat)
    requires FreeList(next, head, free) && i in Outstanding(|next|, free)
    ensures FreeList(next[i := head], i, [i] + free)
    ensures Outstanding(|next|, [i] + free) == Outstanding(|next|, free) - {i}
  {
    ChainFrame(next, head, free, i, head);
    assert ([i] + free)[1..] == free;
    assert Elements([i] + free) == Elements(free) + {i};
  }

  lemma {:induction false} GivenTwice(next: seq<nat>, head: nat, free: seq<nat>, i: nat, x: nat, other: seq<nat>)
    requires |next| < END && i < |next| && i in free
    requires Chain(next, head, free) && Chain(next[i := x], head, other)
    ensures i in other
    decreases free
  {
    if free[0] != i {
      assert free == [free[0]] + free[1..];
      GivenTwice(next, next[head], free[1..], i, x, other[1..]);
    }
  }

  lemma GivenTwiceRepeats(next: seq<nat>, head: nat, free: seq<nat>, i: nat, rest: seq<nat>)
    requires FreeList(next, head, free) && i < |next| && i in free && Chain(next[i := head], i, rest)
    ensures !Distinct(rest)
  {
    GivenTwice(next, head, free, i, head, rest[1..]);
    var k :| 0 <= k < |rest[1..]| && rest[1..][k] == i;
    assert rest[0] == rest[k + 1];
  }

  /** The indices hold some free list. */
  ghost predicate Sound(next: seq<nat>, head: nat) {
    exists free :: FreeList(next, head, free)
  }

  /** Returning a slot keeps a free list exactly when the slot was outstanding: one that is free already
      closes the chain to a cycle. */
  lemma GivesIff(next: seq<nat>, head: nat, free: seq<nat>, i: nat)
    requires FreeList(next, head, free) && i < |next|
    ensures Sound(next[i := head], i) <==> i in Outstanding(|next|, free)
  {
    if i in Outstanding(|next|, free) {
      Gives(next, head, free, i);
    } else if Sound(next[i := head], i) {
      var rest :| FreeList(next[i := head], i, rest);
      GivenTwiceRepeats(next, head, free, i, rest);
    }
  }

  /** Returning the slot just taken restores every index. */
  lemma GiveUndoesTake(s: Indices, free: seq<nat>)
    requires FreeList(s.next, s.head, free) && free != []
    ensures Apply(Apply(s, Take), Give(s.head)) == s
  {
  }

  /** The slots outstanding after an operation, when `out` was outstanding and `s` the state before. */
  function OutAfter(s: Indices, out: set<nat>, op: Op): set<nat> {
    match op
    case Take => if s.head >= |s.next| then out else out + {s.head}
    case Give(i) => out - {i}
  }

  /** Callers only return what they hold. */
  ghost predicate Allowed(s: Indices, out: set<nat>, ops: seq<Op>)
    decreases ops
  {
    ops == []
    || ((ops[0].Give? ==> ops[0].i in out)
        && Allowed(Apply(s, ops[0]), OutAfter(s, out, ops[0]), ops[1..]))
  }

  /** State and outstanding slots after a history. */
  function After(s: Indices, out: set<nat>, ops: seq<Op>): (Indices, set<nat>)
    decreases ops
  {
    if ops == [] then (s, out) else After(Apply(s, ops[0]), OutAfter(s, out, ops[0]), ops[1..])
  }

  /** After any history the free list is a duplicate-free path to END, and the slots it leaves out are
      exactly those outstanding. */
  lemma {:induction false} HistoryKeepsList(s: Indices, out: set<nat>, ops: seq<Op>, free: seq<nat>)
    requires FreeList(s.next, s.head, free) && out == Outstanding(|s.next|, free) && Allowed(s, out, ops)
    ensures var (t, held) := After(s, out, ops);
      && |t.next| == |s.next|
      && exists rest :: FreeList(t.next, t.head, rest) && held == Outstanding(|t.next|, rest)
    decreases ops
  {
    if ops == [] {
      assert FreeList(s.next, s.head, free);
    } else {
      match ops[0] {
        case Take =>
          if free == [] {
            HistoryKeepsList(s, out, ops[1..], free);
          } else {
            Takes(s.next, s.head, free);
            HistoryKeepsList(Apply(s, Take), OutAfter(s, out, Take), ops[1..], free[1..]);
          }
        case Give(i) =>
          Gives(s.next, s.head, free, i);
          HistoryKeepsList(Apply(s, Give(i)), OutAfter(s, out, Give(i)), ops[1..], [i] + free);
      }
    }
  }

  /** The state after `k` takes. */
  function TakeAll(s: Indices, k: nat): Indices
    decreases k
  {
    if k == 0 then s else TakeAll(Apply(s, Take), k - 1)
  }

  /** Takes without returns are served with the slots of the list in their order, exactly as many as it has;
      after that every take is refused. */
  lemma {:induction false} ServedInOrder(s: Indices, free: seq<nat>, k: nat)
    requires FreeList(s.next, s.head, free)
    ensures k < |free| ==> TakeAll(s, k).head == free[k]
    ensures k >= |free| ==> TakeAll(s, k).head == END
    ensures TakeAll(s, k).next == s.next
    decreases k
  {
    if k > 0 {
      if free == [] {
        ServedInOrder(s, free, k - 1);
      } else {
        Takes(s.next, s.head, free);
        ServedInOrder(Apply(s, Take), free[1..], k - 1);
      }
    }
  }

  function InOrder(n: nat): (s: seq<nat>)
    ensures |s| == n && forall i :: 0 <= i < n ==> s[i] == i
  {
    seq(n, k => k)
  }

  // ---- Slot addresses ---------------------------------------------------------------------------

  /** A page holds as many slots, each with its two-byte index, as fit behind the header. */
  function NumSlots(typeSize: nat): nat
    requires typeSize >= 1
  {
    (PAGE - HEADER) / (typeSize + 2)
  }

  function Slots(page: nat, typeSize: nat): nat
    requires typeSize >= 1
  {
    page + HEADER + 2 * NumSlots(typeSize)
  }

  function SlotAddr(page: nat, typeSize: nat, i: nat): nat
    requires typeSize >= 1
  {
    Slots(page, typeSize) + i * typeSize
  }

  /** kslab_dealloc's division, of the distance from the first slot. */
  function IndexOf(distance: nat, typeSize: nat): nat
    requires typeSize >= 1
  {
    distance / typeSize
  }

  /** `n` slots, each with its index, fit behind the header. */
  predicate Fit(n: nat, typeSize: nat) { n * (typeSize + 2) <= PAGE - HEADER }

  /** A page holds a number of slots, each with its index, exactly when that is at most the computed one. */
  lemma RoomForSlots(typeSize: nat)
    requires typeSize >= 1
    ensures forall n: nat :: Fit(n, typeSize) <==> n <= NumSlots(typeSize)
    ensures NumSlots(typeSize) <= 333
    ensures NumSlots(typeSize) >= 1 <==> typeSize <= 998
  {
    var d, q := typeSize + 2, NumSlots(typeSize);
    assert q * d <= PAGE - HEADER < q * d + d;
    forall n: nat ensures Fit(n, typeSize) <==> n <= q {
      if n < q {
        Gap(n, q, d);
      } else if n > q {
        Gap(q, n, d);
      }
    }
  }

  lemma SlotsFit(n: nat, typeSize: nat, i: nat, room: nat)
    requires i < n && n * (typeSize + 2) <= room
    ensures 2 * n + i * typeSize + typeSize <= room
  {
    assert n * (typeSize + 2) == n * typeSize + 2 * n;
    Gap(i, n, typeSize);
  }

  /** Every slot lies in the page behind the index array. */
  lemma SlotInPage(page: nat, typeSize: nat, i: nat)
    requires typeSize >= 1 && i < NumSlots(typeSize)
    ensures page + HEADER + 2 * NumSlots(typeSize) <= SlotAddr(page, typeSize, i)
    ensures SlotAddr(page, typeSize, i) + typeSize <= page + PAGE
    ensures i == 0 ==> SlotAddr(page, typeSize, i) == page + HEADER + 2 * NumSlots(typeSize)
  {
    RoomForSlots(typeSize);
    SlotsFit(NumSlots(typeSize), typeSize, i, PAGE - HEADER);
  }

  /** Slots do not overlap, and lie side by side. */
  lemma SlotsApart(page: nat, typeSize: nat, i: nat, j: nat)
    requires typeSize >= 1 && i < j
    ensures SlotAddr(page, typeSize, i) + typeSize <= SlotAddr(page, typeSize, j)
    ensures SlotAddr(page, typeSize, i) + typeSize == SlotAddr(page, typeSize, j) <==> j == i + 1
  {
    if j > i + 1 {
      Gap(i + 1, j, typeSize);
    }
    Gap(i, j, typeSize);
  }

  lemma Gap(a: int, b: int, d: nat)
    requires a < b
    ensures a * d + d <= b * d
  {
    assert b * d == a * d + d + (b - a - 1) * d;
    assert (b - a - 1) * d >= 0;
  }

  lemma OneQuotient(a: int, r: nat, b: int, s: nat, d: nat)
    requires a * d + r == b * d + s && r < d && s < d
    ensures a == b
  {
    if a < b {
      Gap(a, b, d);
    } else if b < a {
      Gap(b, a, d);
    }
  }

  /** The division finds the slot that an address lies in. */
  lemma IndexInverts(page: nat, typeSize: nat, i: nat, p: nat)
    requires typeSize >= 1 && SlotAddr(page, typeSize, i) <= p < SlotAddr(page, typeSize, i) + typeSize
    ensures p >= Slots(page, typeSize) && IndexOf(p - Slots(page, typeSize), typeSize) == i
  {
    var x := p - Slots(page, typeSize);
    assert i * typeSize >= 0;
    OneQuotient(x / typeSize, x % typeSize, i, x - i * typeSize, typeSize);
  }

  lemma IndexInRange(distance: nat, typeSize: nat, n: nat)
    requires typeSize >= 1 && n >= 1 && distance <= (n - 1) * typeSize
    ensures IndexOf(distance, typeSize) < n
    ensures IndexOf(distance, typeSize) * typeSize <= distance < IndexOf(distance, typeSize) * typeSize + typeSize
  {
    var q := distance / typeSize;
    if q >= n {
      Gap(n - 1, q, typeSize);
    }
  }

  // ---- The allocator ------------------------------------------------------------------------------

  class Slab {
    const page: nat
    const typeSize: nat
    const freeSlots: array<nat>
    var freeSlot: nat

    /** The free list, in the order in which slots will be handed out. */
    ghost var free: seq<nat>

    ghost predicate Valid()
      reads this, freeSlots
    {
      && page > 0 && 1 <= typeSize <= 998 && freeSlots.Length == NumSlots(typeSize)
      && FreeList(freeSlots[..], freeSlot, free)
    }

    ghost function Taken(): set<nat>
      reads this
    {
      Outstanding(freeSlots.Length, free)
    }

    /** A slab on a page of the buddy allocator, for any type of which at least one slot fits. */
    constructor (pageAddr: nat, size: nat)
      requires pageAddr > 0 && 1 <= size <= 998
      ensures Valid() && page == pageAddr && typeSize == size && fresh(freeSlots)
      ensures Taken() == {} && freeSlot == 0 && free == InOrder(freeSlots.Length)
      ensures forall n: nat :: Fit(n, size) <==> n <= |free|
    {
      page, typeSize, freeSlot := pageAddr, size, 0;
      RoomForSlots(size);
      var n := NumSlots(size);
      var slots := new nat[n];
      ghost var order := InOrder(n);
      freeSlots, free := slots, order;
      new;
      for i := 0 to n
        invariant freeSlots == slots && free == order && freeSlot == 0
        invariant forall k :: 0 <= k < i ==> slots[k] == k + 1
      {
        slots[i] := i + 1;
      }
      slots[n - 1] := END;
      Ascending(slots[..], 0, order);
      CountTells(slots[..], 0, order);
    }

    method Alloc() returns (ptr: nat)
      requires Valid()
      modifies this`freeSlot, this`free
      ensures Valid()
      ensures old(free) == [] ==> ptr == 0 && free == [] && freeSlot == old(freeSlot)
      ensures old(free) != [] ==>
                && ptr == SlotAddr(page, typeSize, old(free)[0]) && free == old(free)[1..]
                && old(free)[0] !in old(Taken()) && Taken() == old(Taken()) + {old(free)[0]}
    {
      if freeSlot == END {
        return 0;
      }
      ptr := Slots(page, typeSize) + freeSlot * typeSize;
      Takes(freeSlots[..], freeSlot, free);
      freeSlot := freeSlots[freeSlot];
      free := free[1..];
    }

    /** Returns the slot that an address lies in, or refuses an address outside the slots. The list
        survives unless that slot is free already. */
    method Dealloc(ptr: nat) returns (ok: bool)
      requires Valid()
      modifies this`freeSlot, this`free, freeSlots
      ensures ok <==> Slots(page, typeSize) <= ptr <= SlotAddr(page, typeSize, freeSlots.Length - 1)
      ensures ok ==> var i := IndexOf(ptr - Slots(page, typeSize), typeSize);
                && i < freeSlots.Length && SlotAddr(page, typeSize, i) <= ptr < SlotAddr(page, typeSize, i) + typeSize
                && freeSlot == i && freeSlots[..] == old(freeSlots[..])[i := old(freeSlot)]
                && (Valid() <==> i in old(Taken()))
                && (i in old(Taken()) ==> free == [i] + old(free) && Taken() == old(Taken()) - {i})
      ensures !ok ==> Valid() && free == old(free) && freeSlot == old(freeSlot) && freeSlots[..] == old(freeSlots[..])
    {
      var slots := Slots(page, typeSize);
      var lastSlot := slots + (freeSlots.Length - 1) * typeSize;
      if ptr < slots || ptr > lastSlot {
        return false;
      }
      var index := IndexOf(ptr - slots, typeSize);
      IndexInRange(ptr - slots, typeSize, freeSlots.Length);
      ghost var was, held := freeSlots[..], index in Taken();
      GivesIff(was, freeSlot, free, index);
      ghost var next := was[index := freeSlot];
      assert FreeList(next, index, free) ==> Sound(next, index);
      if held {
        Gives(was, freeSlot, free, index);
      }
      freeSlots[index] := freeSlot;
      assert freeSlots[..] == was[index := freeSlot];
      freeSlot := index;
      free := if held then [index] + free else free;
      return true;
    }

    predicate HasFreeSlots()
      requires Valid()
      reads this, freeSlots
      ensures HasFreeSlots() <==> free != []
    {
      freeSlot != END
    }

    method HasAllocatedSlots() returns (some: bool)
      requires Valid()
      ensures some <==> Taken() != {}
    {
      var count, i := 0, freeSlot;
      CountTells(freeSlots[..], freeSlot, free);
      while i != END
        invariant 0 <= count <= |free| && Chain(freeSlots[..], i, free[count..])
        decreases |free| - count
      {
        assert free[count..][1..] == free[count + 1..];
        count := count + 1;
        i := freeSlots[i];
      }
      some := count != freeSlots.Length;
    }
  }

  /** The initial indices chain all slots in order. */
  lemma {:induction false} Ascending(next: seq<nat>, k: nat, free: seq<nat>)
    requires 0 < |next| < END && k <= |next|
    requires |free| == |next| - k && forall i :: 0 <= i < |free| ==> free[i] == k + i
    requires forall i :: 0 <= i < |next| - 1 ==> next[i] == i + 1
    requires next[|next| - 1] == END
    ensures Chain(next, if k == |next| then END else k, free)
    decreases |free|
  {
    if k < |next| {
      Ascending(next, k + 1, free[1..]);
    }
  }
}
