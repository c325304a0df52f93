/** The buddy allocator over raw memory: an array of list heads, one for each order, and headers at the
    addresses of the free blocks. The `tag` word of a header is the block's order. */
module BuddyAllocator {
  import opened Links
  import opened BuddyModel

  ghost predicate Held(head: int, mem: Memory, xs: seq<int>, order: int) {
    && Distinct(xs) && Linked(head, mem, xs)
    && forall a :: a in xs ==> a in mem && mem[a].tag == order
  }

  /** Memory holds every list, and the header of every free block its order. */
  ghost predicate AllHeld(heads: seq<int>, mem: Memory, ls: Lists) {
    |heads| == |ls| && forall k :: 0 <= k < |ls| ==> Held(heads[k], mem, ls[k], k)
  }

  lemma HeadIsMapped(heads: seq<int>, mem: Memory, ls: Lists, k: nat)
    requires AllHeld(heads, mem, ls) && k < |ls|
    ensures heads[k] == 0 || (heads[k] in mem && mem[heads[k]].tag == k)
  {
    assert Held(heads[k], mem, ls[k], k);
    if heads[k] != 0 {
      assert ls[k][0] in ls[k];
    }
  }

  lemma InsertHeld(heads: seq<int>, mem: Memory, ls: Lists, k: nat, x: int)
    requires AllHeld(heads, mem, ls) && k < |ls| && x != 0 && forall j :: !Free(ls, j, x)
    ensures heads[k] == 0 || heads[k] in mem
    ensures AllHeld(heads[k := x], Pushed(mem, heads[k], x, k), Insert(ls, k, x))
  {
    HeadIsMapped(heads, mem, ls, k);
    var mem', heads', more := Pushed(mem, heads[k], x, k), heads[k := x], Insert(ls, k, x);
    forall j | 0 <= j < |ls| ensures Held(heads'[j], mem', more[j], j) {
      assert Held(heads[j], mem, ls[j], j) && !Free(ls, j, x);
      if j == k {
        PushedOwn(mem, ls[k], x, k);
      } else {
        PushedOther(mem, heads[j], ls[j], heads[k], x, k);
      }
    }
  }

  lemma BridgedOther(mem: Memory, head: int, xs: seq<int>, k: int, prev: int, next: int, j: int)
    requires Held(head, mem, xs, k) && j != k
    requires prev == 0 || (prev in mem && mem[prev].tag == j)
    requires next == 0 || (next in mem && mem[next].tag == j)
    ensures Held(head, Bridge(mem, prev, next), xs, k)
  {
    var less := Bridge(mem, prev, next);
    forall i | 0 <= i < |xs| ensures Placed(less, xs, i) {
      assert Placed(mem, xs, i) && xs[i] in xs;
    }
  }

  /** The neighbours of a free block are free blocks of its order. */
  lemma NeighboursOf(heads: seq<int>, mem: Memory, ls: Lists, k: nat, x: int)
    requires AllHeld(heads, mem, ls) && Free(ls, k, x)
    ensures x in mem && mem[x].tag == k
    ensures var Node(_, next, prev) := mem[x];
      && (prev == 0 || (prev in mem && mem[prev].tag == k)) && (next == 0 || (next in mem && mem[next].tag == k))
      && next == At(ls[k], IndexOf(ls[k], x) + 1) && prev == At(ls[k], IndexOf(ls[k], x) - 1)
  {
    var xs, i := ls[k], IndexOf(ls[k], x);
    assert Held(heads[k], mem, xs, k) && Placed(mem, xs, i);
    assert i + 1 < |xs| ==> xs[i + 1] in xs;
    assert i > 0 ==> xs[i - 1] in xs;
  }

  lemma RemoveHeld(heads: seq<int>, mem: Memory, ls: Lists, k: nat, x: int)
    requires AllHeld(heads, mem, ls) && Free(ls, k, x)
    ensures x in mem && (mem[x].prev == 0 || mem[x].prev in mem) && (mem[x].next == 0 || mem[x].next in mem)
    ensures var Node(_, next, prev) := mem[x];
      AllHeld(if prev == 0 then heads[k := next] else heads, Bridge(mem, prev, next), Remove(ls, k, x))
  {
    NeighboursOf(heads, mem, ls, k, x);
    var Node(_, next, prev) := mem[x];
    var xs, i := ls[k], IndexOf(ls[k], x);
    var heads', less := if prev == 0 then heads[k := next] else heads, Remove(ls, k, x);
    forall j | 0 <= j < |ls| ensures Held(heads'[j], Bridge(mem, prev, next), less[j], j) {
      assert Held(heads[j], mem, ls[j], j);
      if j == k {
        BridgeRemoves(mem, xs, i);
        WithoutDistinct(xs, i);
        WithoutAt(xs, i, 0);
        assert prev == 0 <==> i == 0 by {
          assert i > 0 ==> xs[i - 1] in xs;
        }
      } else {
        BridgedOther(mem, heads[j], ls[j], j, prev, next, k);
      }
    }
  }

  class Buddies {
    const freeBlocks: array<int>
    var mem: Memory
    ghost var lists: Lists

    ghost predicate Valid()
      reads this, freeBlocks
    {
      freeBlocks.Length == BLOCK_SIZES && AllHeld(freeBlocks[..], mem, lists)
    }

    /** No block is free. */
    constructor ()
      ensures Valid() && fresh(freeBlocks) && lists == seq(BLOCK_SIZES, _ => [])
    {
      freeBlocks := new int[BLOCK_SIZES](_ => 0);
      mem := map[];
      lists := seq(BLOCK_SIZES, _ => []);
    }

    /** remove_block: the neighbours of the block are linked past it. */
    method RemoveBlock(block: int)
      requires Valid() && block in mem && Free(lists, mem[block].tag, block)
      modifies this`mem, this`lists, freeBlocks
      ensures Valid() && lists == Remove(old(lists), old(mem)[block].tag, block)
      ensures mem.Keys == old(mem).Keys && forall a :: a in mem ==> mem[a].tag == old(mem)[a].tag
    {
      var Node(order, next, prev) := mem[block];
      RemoveHeld(freeBlocks[..], mem, lists, order, block);
      NeighboursOf(freeBlocks[..], mem, lists, order, block);
      ghost var was, linked := freeBlocks[..], Bridge(mem, prev, next);
      if prev != 0 {
        mem := mem[prev := mem[prev].(next := next)];
      } else {
        freeBlocks[order] := next;
      }
      if next != 0 {
        mem := mem[next := mem[next].(prev := prev)];
      }
      assert mem == linked && freeBlocks[..] == if prev == 0 then was[order := next] else was;
      lists := Remove(lists, order, block);
    }

    /** insert_block: the block goes to the front of the list of its order. */
    method InsertBlock(block: int)
      requires Valid() && block in mem && block != 0 && 0 <= mem[block].tag < BLOCK_SIZES
      requires forall j :: !Free(lists, j, block)
      modifies this`mem, this`lists, freeBlocks
      ensures Valid() && lists == Insert(old(lists), old(mem)[block].tag, block)
      ensures mem.Keys == old(mem).Keys && forall a :: a in mem ==> mem[a].tag == old(mem)[a].tag
    {
      var order := mem[block].tag;
      InsertHeld(freeBlocks[..], mem, lists, order, block);
      ghost var was, linked := freeBlocks[..], Pushed(mem, freeBlocks[order], block, order);
      mem := mem[block := mem[block].(next := freeBlocks[order])];
      mem := mem[block := mem[block].(prev := 0)];
      var next := mem[block].next;
      if next != 0 {
        mem := mem[next := mem[next].(prev := block)];
      }
      freeBlocks[order] := block;
      assert mem == linked && freeBlocks[..] == was[order := block];
      lists := Insert(lists, order, block);
    }

    /** contains_block: pointers are compared, the block itself is not read. */
    method ContainsBlock(block: int, order: nat) returns (found: bool)
      requires Valid() && order < BLOCK_SIZES
      ensures found <==> Free(lists, order, block)
    {
      ghost var xs := lists[order];
      ghost var i := 0;
      assert Held(freeBlocks[order], mem, xs, order);
      var curr := freeBlocks[order];
      while curr != 0
        invariant 0 <= i <= |xs| && curr == At(xs, i)
        invariant forall j :: 0 <= j < i ==> xs[j] != block
        decreases |xs| - i
      {
        assert Placed(mem, xs, i);
        if curr == block {
          return true;
        }
        curr := mem[curr].next;
        i := i + 1;
      }
      return false;
    }

    /** Both halves leave their list. */
    method RemovePair(block: int, buddy: int, ghost order: nat)
      requires Valid() && Free(lists, order, block) && Free(lists, order, buddy) && buddy != block
      requires block in mem && mem[block].tag == order && buddy in mem && mem[buddy].tag == order
      requires Distinct(lists[order])
      modifies this`mem, this`lists, freeBlocks
      ensures Valid() && Free(Remove(old(lists), order, buddy), order, block)
      ensures lists == Remove(Remove(old(lists), order, buddy), order, block)
      ensures mem.Keys == old(mem).Keys && forall a :: a in mem ==> mem[a].tag == old(mem)[a].tag
    {
      RemovedAreFree(lists, order, buddy);
      RemoveBlock(buddy);
      RemoveBlock(block);
    }

    /** A block that is not free becomes a free block of the next order. */
    method RaiseAndInsert(block: int)
      requires Valid() && block in mem && block != 0 && 0 <= mem[block].tag && mem[block].tag + 1 < BLOCK_SIZES
      requires forall j :: !Free(lists, j, block)
      modifies this`mem, this`lists, freeBlocks
      ensures Valid() && lists == Insert(old(lists), old(mem)[block].tag + 1, block)
      ensures block in mem && mem[block].tag == old(mem)[block].tag + 1
    {
      WriteOrder(block, mem[block].tag + 1);
      InsertBlock(block);
    }

    /** One round of recursive_join. */
    method Merge(block: int, buddy: int, ghost r: Region, ghost order: nat) returns (merged: int)
      requires Valid() && r.Valid() && Fits(r, lists) && block in mem && mem[block].tag == order && block >= 0
      requires Free(lists, order, block) && buddy == Buddy(block, order) && Free(lists, order, buddy)
      modifies this`mem, this`lists, freeBlocks
      ensures Valid() && buddy != block && order + 1 < BLOCK_SIZES
      ensures merged == Lower(block, buddy) && merged in mem && mem[merged].tag == order + 1
      ensures lists == Merged(old(lists), block, order)
    {
      HalvesMerge(r, lists, block, order);
      PairGone(r, lists, order, block, buddy);
      NeighboursOf(freeBlocks[..], mem, lists, order, buddy);
      RemovePair(block, buddy, order);
      merged := if block < buddy then block else buddy;
      RaiseAndInsert(merged);
    }

    /** recursive_join */
    method RecursiveJoin(block: int, ghost r: Region)
      requires Valid() && r.Valid() && Fits(r, lists) && block in mem && block >= 0 && mem[block].tag >= 0
      requires Free(lists, mem[block].tag, block)
      modifies this`mem, this`lists, freeBlocks
      ensures Valid() && lists == Join(r, old(lists), block, old(mem)[block].tag)
    {
      hide Fits, Aligned, Xor, Size;
      var curr := block;
      ghost var done := Join(r, lists, block, mem[block].tag);
      ghost var order: nat := mem[block].tag;
      var buddy := Buddy(curr, mem[curr].tag);
      var again := ContainsBlock(buddy, mem[curr].tag);
      while again
        invariant Valid() && Fits(r, lists) && curr >= 0 && curr in mem && mem[curr].tag == order
        invariant order < BLOCK_SIZES && Free(lists, order, curr) && buddy == Buddy(curr, order)
        invariant again <==> Free(lists, order, buddy)
        invariant Join(r, lists, curr, order) == done
        decreases BLOCK_SIZES - order
      {
        HalvesMerge(r, lists, curr, order);
        MergedFits(r, lists, curr, order);
        MergedAreFree(r, lists, curr, order);
        curr := Merge(curr, buddy, r, order);
        order := order + 1;
        buddy := Buddy(curr, mem[curr].tag);
        again := ContainsBlock(buddy, mem[curr].tag);
      }
    }

    /** A header with the given order is written at a block that is not free. */
    method WriteOrder(block: int, order: int)
      requires Valid() && forall j :: !Free(lists, j, block)
      modifies this`mem
      ensures Valid() && mem.Keys == old(mem).Keys + {block} && mem[block].tag == order
      ensures forall a :: a in old(mem) && a != block ==> mem[a] == old(mem)[a]
    {
      var node := if block in mem then mem[block].(tag := order) else Node(order, 0, 0);
      Headed(freeBlocks[..], mem, lists, block, node);
      mem := mem[block := node];
    }

    /** One round of recursive_split: the upper half of `block` becomes free. */
    method Halve(block: int, ghost r: Region, ghost order: nat)
      requires Valid() && r.Valid() && Fits(r, lists) && 0 < order < BLOCK_SIZES
      requires block in mem && mem[block].tag == order && InRegion(r, block, order) && IsApart(lists, block, order)
      modifies this`mem, this`lists, freeBlocks
      ensures Valid() && lists == Insert(old(lists), order - 1, Buddy(block, order - 1))
      ensures Fits(r, lists) && InRegion(r, block, order - 1) && IsApart(lists, block, order - 1)
      ensures block in mem && mem[block].tag == order - 1
    {
      HalfIsApart(r, lists, block, order);
      WriteOrder(block, mem[block].tag - 1);
      var buddy := Buddy(block, mem[block].tag);
      WriteOrder(buddy, mem[block].tag);
      InsertBlock(buddy);
    }

    /** recursive_split */
    method RecursiveSplit(from: nat, to: nat, ghost r: Region)
      requires Valid() && r.Valid() && Fits(r, lists) && to <= from < BLOCK_SIZES && lists[from] != []
      modifies this`mem, this`lists, freeBlocks
      ensures old(lists)[from][0] >= 0
      ensures Valid() && lists == Split(old(lists), from, to)
    {
      var block := freeBlocks[from];
      HeadIsApart(freeBlocks[..], mem, lists, r, from);
      ghost var rest := lists[from := lists[from][1..]];
      NeighboursOf(freeBlocks[..], mem, lists, from, block);
      RemoveBlock(block);
      ghost var done := SplitFrom(rest, block, from, to);
      var order := from;
      while order > to
        invariant to <= order <= from && Valid() && Fits(r, lists)
        invariant block in mem && mem[block].tag == order
        invariant InRegion(r, block, order) && IsApart(lists, block, order)
        invariant SplitFrom(lists, block, order, to) == done
      {
        Halve(block, r, order);
        order := order - 1;
      }
      InsertBlock(block);
    }
  }

  /** No free block reaches into the block at `a`. */
  ghost predicate IsApart(ls: Lists, a: int, k: nat) {
    forall j, b :: Free(ls, j, b) ==> Apart(a, k, b, j)
  }

  lemma HalfIsApart(r: Region, ls: Lists, a: int, k: nat)
    requires r.Valid() && Fits(r, ls) && 0 < k < BLOCK_SIZES && InRegion(r, a, k) && IsApart(ls, a, k)
    ensures var b := Buddy(a, k - 1);
      && b == a + Size(k - 1) && InRegion(r, a, k - 1) && Fits(r, Insert(ls, k - 1, b))
      && IsApart(Insert(ls, k - 1, b), a, k - 1) && (forall j :: !Free(ls, j, a) && !Free(ls, j, b))
  {
    LowerHalf(a, k - 1);
    BuddyIsOtherHalf(a, k - 1);
    InsertFits(r, ls, k - 1, Buddy(a, k - 1));
    InsertedAreFree(ls, k - 1, Buddy(a, k - 1));
  }

  lemma HeadIsApart(heads: seq<int>, mem: Memory, ls: Lists, r: Region, k: nat)
    requires AllHeld(heads, mem, ls) && r.Valid() && Fits(r, ls) && k < |ls| && ls[k] != []
    ensures heads[k] == ls[k][0] && Free(ls, k, heads[k]) && InRegion(r, heads[k], k)
    ensures var rest := ls[k := ls[k][1..]];
      Remove(ls, k, heads[k]) == rest && Fits(r, rest) && IsApart(rest, heads[k], k)
  {
    assert Held(heads[k], mem, ls[k], k);
    TailIsRemoval(ls, k);
    RemoveFits(r, ls, k, ls[k][0]);
    RemovedAreFree(ls, k, ls[k][0]);
  }

  lemma Headed(heads: seq<int>, mem: Memory, ls: Lists, x: int, node: Node)
    requires AllHeld(heads, mem, ls) && forall j :: !Free(ls, j, x)
    ensures AllHeld(heads, mem[x := node], ls)
  {
    forall k | 0 <= k < |ls| ensures Held(heads[k], mem[x := node], ls[k], k) {
      assert Held(heads[k], mem, ls[k], k) && !Free(ls, k, x);
      LinkedFrame(heads[k], mem, x, node, ls[k]);
    }
  }

  lemma PairGone(r: Region, ls: Lists, k: nat, a: int, b: int)
    requires Fits(r, ls) && Free(ls, k, a) && Free(ls, k, b) && a != b && r.base > 0
    ensures a != 0 && b != 0 && Free(Remove(ls, k, b), k, a)
    ensures forall j :: !Free(Remove(Remove(ls, k, b), k, a), j, a) && !Free(Remove(Remove(ls, k, b), k, a), j, b)
  {
    assert InRegion(r, a, k) && InRegion(r, b, k);
    NotFreeTwice(r, ls, k, a);
    NotFreeTwice(r, ls, k, b);
    RemovedAreFree(ls, k, b);
    RemovedAreFree(Remove(ls, k, b), k, a);
  }

  /** A free block is in one list only. */
  lemma NotFreeTwice(r: Region, ls: Lists, k: nat, a: int)
    requires Fits(r, ls) && Free(ls, k, a)
    ensures forall j :: Free(ls, j, a) ==> j == k
  {
    forall j | Free(ls, j, a) ensures j == k {
      if j != k {
        Disjointness(r, ls, k, a, j, a);
      }
    }
  }
}
