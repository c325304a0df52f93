/** The split and join engine of the buddy allocator on values: one list of free addresses for each
    order. A block of order k is 2^k long and starts at a multiple of its length. */
module BuddyModel {
  import opened Links

  /** The orders are below BLOCK_SIZES. */
  const BLOCK_SIZES := 10

  function Size(order: nat): (s: nat)
    ensures s > 0
  {
    if order == 0 then 1 else 2 * Size(order - 1)
  }

  // ---- find_buddy -----------------------------------------------------------------------------

  /** Bitwise exclusive or. */
  function Xor(a: nat, b: nat): nat
    decreases a + b
  {
    if a == 0 && b == 0 then 0 else (if a % 2 != b % 2 then 1 else 0) + 2 * Xor(a / 2, b / 2)
  }

  function Buddy(a: nat, order: nat): nat { Xor(a, Size(order)) }

  lemma {:induction false} XorZero(a: nat)
    ensures Xor(a, 0) == a
  {
    if a > 0 {
      XorZero(a / 2);
    }
  }

  /** The low `order` bits are zero. */
  predicate Aligned(a: nat, order: nat)
    decreases order
  {
    order == 0 || (a % 2 == 0 && Aligned(a / 2, order - 1))
  }

  lemma XorOne(a: nat)
    ensures Xor(a, 1) == if a % 2 == 0 then a + 1 else a - 1
  {
    XorZero(a / 2);
  }

  lemma XorEven(a: nat, b: nat)
    requires a % 2 == 0 && b % 2 == 0
    ensures Xor(a, b) == 2 * Xor(a / 2, b / 2)
  {
  }

  /** The buddy of an even address is found one bit further up. */
  lemma BuddyOfEven(a: nat, order: nat)
    requires a % 2 == 0 && order > 0
    ensures Buddy(a, order) == 2 * Buddy(a / 2, order - 1)
  {
    XorEven(a, Size(order));
  }

  /** The buddy of an aligned block is the other half of the block twice as long. */
  lemma {:induction false} BuddyIsOtherHalf(a: nat, order: nat)
    requires Aligned(a, order)
    ensures var b := Buddy(a, order);
      && (b == a + Size(order) || (a >= Size(order) && b == a - Size(order)))
      && Aligned(b, order) && Buddy(b, order) == a
      && Aligned(if a < b then a else b, order + 1)
    decreases order
  {
    hide Xor, Buddy;
    if order == 0 {
      OddBuddy(a);
    } else {
      BuddyOfEven(a, order);
      BuddyIsOtherHalf(a / 2, order - 1);
      var b := Buddy(a, order);
      assert b / 2 == Buddy(a / 2, order - 1);
      BuddyOfEven(b, order);
    }
  }

  lemma OddBuddy(a: nat)
    ensures var b := Buddy(a, 0);
      && b == (if a % 2 == 0 then a + 1 else a - 1) && Buddy(b, 0) == a && Aligned(if a < b then a else b, 1)
  {
    hide Xor;
    assert Size(0) == 1;
    XorOne(a);
    XorOne(Xor(a, 1));
    assert Aligned(if a % 2 == 0 then a else a - 1, 1);
  }

  /** A block aligned to the next order is the lower of the two halves. */
  lemma {:induction false} LowerHalf(a: nat, order: nat)
    requires Aligned(a, order + 1)
    ensures Aligned(a, order) && Buddy(a, order) == a + Size(order)
    decreases order
  {
    if order == 0 {
      XorZero(a / 2);
    } else {
      LowerHalf(a / 2, order - 1);
    }
  }

  lemma {:induction false} AlignedBelow(a: nat, order: nat, lower: nat)
    requires Aligned(a, order) && lower <= order
    ensures Aligned(a, lower)
    decreases order - lower
  {
    if lower < order {
      AlignedBelow(a, order, lower + 1);
      LowerHalf(a, lower);
    }
  }

  // ---- Free lists ---------------------------------------------------------------------------------

  type Lists = seq<seq<int>>

  /** The memory that is managed: one block of the highest order, aligned to its size. */
  datatype Region = Region(base: nat, order: nat) {
    predicate Valid() { base > 0 && order < BLOCK_SIZES && Aligned(base, order) }
  }

  predicate InRegion(r: Region, a: int, k: nat) {
    && r.base <= a && a + Size(k) <= r.base + Size(r.order)
    && k <= r.order && Aligned(a, k)
  }

  predicate Free(ls: Lists, k: int, a: int) { 0 <= k < |ls| && a in ls[k] }

  predicate Apart(a: int, k: nat, b: int, j: nat) { a + Size(k) <= b || b + Size(j) <= a }

  /** The free blocks are aligned blocks of the region, no two of them overlap. */
  ghost predicate Fits(r: Region, ls: Lists) {
    && |ls| == BLOCK_SIZES && (forall k :: 0 <= k < |ls| ==> Distinct(ls[k]))
    && (forall k, a :: Free(ls, k, a) ==> InRegion(r, a, k))
    && (forall k, a, j, b :: Free(ls, k, a) && Free(ls, j, b) && (k != j || a != b) ==> Apart(a, k, b, j))
  }

  /** No block is free together with its buddy. */
  ghost predicate NoBuddies(r: Region, ls: Lists)
    requires Fits(r, ls)
  {
    forall k, a :: Free(ls, k, a) ==> InRegion(r, a, k) && !Free(ls, k, Buddy(a, k))
  }

  /** The address lies in a free block. */
  ghost predicate Covered(ls: Lists, x: int) {
    exists k, a :: Free(ls, k, a) && a <= x < a + Size(k)
  }

  function IndexOf(xs: seq<int>, a: int): (i: nat)
    requires a in xs
    ensures i < |xs| && xs[i] == a
  {
    if xs[0] == a then 0 else IndexOf(xs[1..], a) + 1
  }

  /** remove_block */
  function Remove(ls: Lists, k: nat, a: int): Lists
    requires Free(ls, k, a)
  {
    ls[k := Without(ls[k], IndexOf(ls[k], a))]
  }

  /** insert_block */
  function Insert(ls: Lists, k: nat, a: int): Lists
    requires k < |ls|
  {
    ls[k := [a] + ls[k]]
  }

  lemma RemovedAreFree(ls: Lists, k: nat, a: int)
    requires Free(ls, k, a) && Distinct(ls[k])
    ensures Distinct(Remove(ls, k, a)[k])
    ensures forall j, b :: Free(Remove(ls, k, a), j, b) <==> Free(ls, j, b) && (j != k || b != a)
  {
    WithoutDistinct(ls[k], IndexOf(ls[k], a));
  }

  lemma InsertedAreFree(ls: Lists, k: nat, a: int)
    requires k < |ls|
    ensures forall j, b :: Free(Insert(ls, k, a), j, b) <==> Free(ls, j, b) || (j == k && b == a)
  {
  }

  lemma RemoveFits(r: Region, ls: Lists, k: nat, a: int)
    requires Fits(r, ls) && Free(ls, k, a)
    ensures Fits(r, Remove(ls, k, a))
  {
    RemovedAreFree(ls, k, a);
  }

  lemma InsertFits(r: Region, ls: Lists, k: nat, a: int)
    requires Fits(r, ls) && k < |ls| && InRegion(r, a, k) && r.base > 0
    requires forall j, b :: Free(ls, j, b) ==> Apart(a, k, b, j)
    ensures Fits(r, Insert(ls, k, a))
  {
    InsertedAreFree(ls, k, a);
    var xs := [a] + ls[k];
    assert a in ls[k] ==> Free(ls, k, a);
    assert forall i :: 1 <= i < |xs| ==> xs[i] in ls[k];
    assert Distinct(xs) by {
      assert Distinct(ls[k]);
    }
  }

  // ---- recursive_join -----------------------------------------------------------------------------

  function Lower(a: int, b: int): int { if a < b then a else b }

  /** One round of the loop: the free block `a` and its free buddy become one block. */
  function Merged(ls: Lists, a: nat, k: nat): Lists
    requires k + 1 < |ls| && Free(ls, k, a) && Free(ls, k, Buddy(a, k)) && Buddy(a, k) != a
    requires Distinct(ls[k])
  {
    RemovedAreFree(ls, k, Buddy(a, k));
    Insert(Remove(Remove(ls, k, Buddy(a, k)), k, a), k + 1, Lower(a, Buddy(a, k)))
  }

  /** Only the pair at `a` may be free together. */
  ghost predicate NoBuddiesBut(r: Region, ls: Lists, a: nat, k: nat)
    requires Fits(r, ls)
  {
    forall j, c :: Free(ls, j, c) ==>
      InRegion(r, c, j) && (Free(ls, j, Buddy(c, j)) ==> j == k && (c == a || Buddy(c, j) == a))
  }

  lemma Disjointness(r: Region, ls: Lists, k: nat, a: int, j: nat, b: int)
    requires Fits(r, ls) && Free(ls, k, a) && Free(ls, j, b) && (k != j || a != b)
    ensures Apart(a, k, b, j)
  {
  }

  /** Two free buddies fill a larger block of the region, so their order is not the highest. */
  lemma HalvesMerge(r: Region, ls: Lists, a: nat, k: nat)
    requires r.Valid() && Fits(r, ls) && Free(ls, k, a) && Free(ls, k, Buddy(a, k))
    ensures Buddy(a, k) != a && k + 1 < BLOCK_SIZES && InRegion(r, Lower(a, Buddy(a, k)), k + 1)
    ensures Lower(a, Buddy(a, k)) + Size(k) == if a < Buddy(a, k) then Buddy(a, k) else a
  {
    assert InRegion(r, a, k) && InRegion(r, Buddy(a, k), k);
    BuddyIsOtherHalf(a, k);
    assert k == r.order ==> Size(k) == Size(r.order);
  }

  lemma MergedAreFree(r: Region, ls: Lists, a: nat, k: nat)
    requires r.Valid() && Fits(r, ls) && Free(ls, k, a) && Free(ls, k, Buddy(a, k))
    requires Buddy(a, k) != a && k + 1 < BLOCK_SIZES
    ensures var low := Lower(a, Buddy(a, k));
      forall j, c :: Free(Merged(ls, a, k), j, c)
                     <==> (Free(ls, j, c) && (j != k || (c != a && c != Buddy(a, k)))) || (j == k + 1 && c == low)
  {
    var b := Buddy(a, k);
    RemovedAreFree(ls, k, b);
    RemovedAreFree(Remove(ls, k, b), k, a);
    InsertedAreFree(Remove(Remove(ls, k, b), k, a), k + 1, Lower(a, b));
  }

  lemma MergedFits(r: Region, ls: Lists, a: nat, k: nat)
    requires r.Valid() && Fits(r, ls) && Free(ls, k, a) && Free(ls, k, Buddy(a, k))
    requires Buddy(a, k) != a && k + 1 < BLOCK_SIZES
    ensures Fits(r, Merged(ls, a, k))
  {
    var b := Buddy(a, k);
    HalvesMerge(r, ls, a, k);
    RemoveFits(r, ls, k, b);
    RemovedAreFree(ls, k, b);
    RemoveFits(r, Remove(ls, k, b), k, a);
    RemovedAreFree(Remove(ls, k, b), k, a);
    var two := Remove(Remove(ls, k, b), k, a);
    forall j, c | Free(two, j, c) ensures Apart(Lower(a, b), k + 1, c, j) {
      Disjointness(r, ls, k, a, j, c);
      Disjointness(r, ls, k, b, j, c);
    }
    InsertFits(r, two, k + 1, Lower(a, b));
  }

  lemma MergedCovers(r: Region, ls: Lists, a: nat, k: nat, x: int)
    requires r.Valid() && Fits(r, ls) && Free(ls, k, a) && Free(ls, k, Buddy(a, k))
    requires Buddy(a, k) != a && k + 1 < BLOCK_SIZES
    ensures Covered(Merged(ls, a, k), x) <==> Covered(ls, x)
  {
    var b, more := Buddy(a, k), Merged(ls, a, k);
    HalvesMerge(r, ls, a, k);
    MergedAreFree(r, ls, a, k);
    if Covered(ls, x) {
      var j, c :| Free(ls, j, c) && c <= x < c + Size(j);
      if j == k && (c == a || c == b) {
        assert Free(more, k + 1, Lower(a, b));
      } else {
        assert Free(more, j, c);
      }
    }
    if Covered(more, x) {
      var j, c :| Free(more, j, c) && c <= x < c + Size(j);
      if j == k + 1 && c == Lower(a, b) {
        assert Free(ls, k, if x < Lower(a, b) + Size(k) then Lower(a, b) else Lower(a, b) + Size(k));
      } else {
        assert Free(ls, j, c);
      }
    }
  }

  lemma MergedLeavesOnePair(r: Region, ls: Lists, a: nat, k: nat)
    requires r.Valid() && Fits(r, ls) && Free(ls, k, a) && Free(ls, k, Buddy(a, k))
    requires Buddy(a, k) != a && k + 1 < BLOCK_SIZES && NoBuddiesBut(r, ls, a, k)
    ensures Fits(r, Merged(ls, a, k)) && NoBuddiesBut(r, Merged(ls, a, k), Lower(a, Buddy(a, k)), k + 1)
  {
    var more, low := Merged(ls, a, k), Lower(a, Buddy(a, k));
    MergedFits(r, ls, a, k);
    MergedAreFree(r, ls, a, k);
    forall j, c | Free(more, j, c)
      ensures InRegion(r, c, j) && (Free(more, j, Buddy(c, j)) ==> j == k + 1 && (c == low || Buddy(c, j) == low))
    {
      assert InRegion(r, c, j);
      assert !(j == k + 1 && c == low) ==> Free(ls, j, c);
      assert Free(more, j, Buddy(c, j)) && !(j == k + 1 && Buddy(c, j) == low) ==> Free(ls, j, Buddy(c, j));
    }
  }

  /** recursive_join */
  ghost function Join(r: Region, ls: Lists, a: nat, k: nat): (done: Lists)
    requires r.Valid() && Fits(r, ls) && Free(ls, k, a)
    ensures Fits(r, done)
    decreases BLOCK_SIZES - k
  {
    if Free(ls, k, Buddy(a, k)) then
      HalvesMerge(r, ls, a, k);
      MergedFits(r, ls, a, k);
      MergedAreFree(r, ls, a, k);
      Join(r, Merged(ls, a, k), Lower(a, Buddy(a, k)), k + 1)
    else ls
  }

  /** With no two buddies free but for the block just inserted, joining ends with no free buddies at
      all, aligned blocks without overlap, and the same addresses free. */
  lemma {:induction false} JoinSpec(r: Region, ls: Lists, a: nat, k: nat)
    requires r.Valid() && Fits(r, ls) && Free(ls, k, a) && NoBuddiesBut(r, ls, a, k)
    ensures var done := Join(r, ls, a, k);
      NoBuddies(r, done) && forall x :: Covered(done, x) <==> Covered(ls, x)
    decreases BLOCK_SIZES - k
  {
    if Free(ls, k, Buddy(a, k)) {
      HalvesMerge(r, ls, a, k);
      MergedLeavesOnePair(r, ls, a, k);
      MergedAreFree(r, ls, a, k);
      var more := Merged(ls, a, k);
      forall x ensures Covered(more, x) <==> Covered(ls, x) {
        MergedCovers(r, ls, a, k, x);
      }
      JoinSpec(r, more, Lower(a, Buddy(a, k)), k + 1);
    } else {
      NoPairLeft(r, ls, a, k);
    }
  }

  lemma NoPairLeft(r: Region, ls: Lists, a: nat, k: nat)
    requires Fits(r, ls) && Free(ls, k, a) && NoBuddiesBut(r, ls, a, k) && !Free(ls, k, Buddy(a, k))
    ensures NoBuddies(r, ls)
  {
    forall j, c | Free(ls, j, c) ensures InRegion(r, c, j) && !Free(ls, j, Buddy(c, j)) {
      assert InRegion(r, c, j);
      BuddyIsOtherHalf(c, j);
    }
  }

  /** A block given back: `a` of order `k` is inserted and joined. */
  lemma ReleaseSpec(r: Region, ls: Lists, a: nat, k: nat)
    requires r.Valid() && Fits(r, ls) && NoBuddies(r, ls) && k < |ls| && InRegion(r, a, k)
    requires forall j, b :: Free(ls, j, b) ==> Apart(a, k, b, j)
    ensures var more := Insert(ls, k, a);
      && Fits(r, more) && Free(more, k, a) && Fits(r, Join(r, more, a, k)) && NoBuddies(r, Join(r, more, a, k))
      && (forall x :: Covered(Join(r, more, a, k), x) <==> Covered(ls, x) || a <= x < a + Size(k))
  {
    var more := Insert(ls, k, a);
    InsertFits(r, ls, k, a);
    InsertedAreFree(ls, k, a);
    forall j, c | Free(more, j, c)
      ensures InRegion(r, c, j) && (Free(more, j, Buddy(c, j)) ==> j == k && (c == a || Buddy(c, j) == a))
    {
      assert InRegion(r, c, j);
      assert Free(ls, j, c) ==> !Free(ls, j, Buddy(c, j));
    }
    JoinSpec(r, more, a, k);
    forall x ensures Covered(more, x) <==> Covered(ls, x) || a <= x < a + Size(k) {
      InsertCovers(ls, k, a, x);
    }
  }

  lemma InsertCovers(ls: Lists, k: nat, a: int, x: int)
    requires k < |ls|
    ensures Covered(Insert(ls, k, a), x) <==> Covered(ls, x) || a <= x < a + Size(k)
  {
    var more := Insert(ls, k, a);
    InsertedAreFree(ls, k, a);
    if Covered(ls, x) {
      var j, c :| Free(ls, j, c) && c <= x < c + Size(j);
      assert Free(more, j, c);
    }
    if a <= x < a + Size(k) {
      assert Free(more, k, a);
    }
    if Covered(more, x) {
      var j, c :| Free(more, j, c) && c <= x < c + Size(j);
      assert Free(ls, j, c) || (j == k && c == a);
    }
  }

  // ---- recursive_split ------------------------------------------------------------------------------

  /** The loop: the upper half of the block `c` of order `from` becomes free, then that of the lower
      half, down to order `to`, where what is left of `c` becomes free too. */
  function SplitFrom(ls: Lists, c: nat, from: nat, to: nat): (done: Lists)
    requires to <= from < |ls|
    ensures |done| == |ls|
    decreases from
  {
    if from == to then Insert(ls, to, c)
    else SplitFrom(Insert(ls, from - 1, Buddy(c, from - 1)), c, from - 1, to)
  }

  function Split(ls: Lists, from: nat, to: nat): Lists
    requires to <= from < |ls| && ls[from] != [] && ls[from][0] >= 0
  {
    SplitFrom(ls[from := ls[from][1..]], ls[from][0], from, to)
  }

  /** What a split adds to the list of order `j`. */
  function Added(c: nat, from: nat, to: nat, j: nat): seq<int> {
    (if j == to then [c] else []) + (if to <= j < from then [c + Size(j)] else [])
  }

  /** One new block for each order strictly between `to` and `from`, two at `to`, in front. */
  lemma {:induction false} SplitLists(ls: Lists, c: nat, from: nat, to: nat, j: nat)
    requires to <= from < |ls| && Aligned(c, from) && j < |ls|
    ensures SplitFrom(ls, c, from, to)[j] == Added(c, from, to, j) + ls[j]
    decreases from
  {
    hide Size, Aligned, Buddy;
    if from > to {
      LowerHalf(c, from - 1);
      SplitLists(Insert(ls, from - 1, Buddy(c, from - 1)), c, from - 1, to, j);
    }
  }

  lemma {:induction false} SplitCovers(ls: Lists, c: nat, from: nat, to: nat, x: int)
    requires to <= from < |ls| && Aligned(c, from)
    ensures Covered(SplitFrom(ls, c, from, to), x) <==> Covered(ls, x) || c <= x < c + Size(from)
    decreases from
  {
    if from == to {
      InsertCovers(ls, to, c, x);
    } else {
      LowerHalf(c, from - 1);
      var half := Insert(ls, from - 1, Buddy(c, from - 1));
      InsertCovers(ls, from - 1, Buddy(c, from - 1), x);
      SplitCovers(half, c, from - 1, to, x);
    }
  }

  lemma {:induction false} SplitFits(r: Region, ls: Lists, c: nat, from: nat, to: nat)
    requires Fits(r, ls) && to <= from < |ls| && InRegion(r, c, from) && r.base > 0
    requires forall j, b :: Free(ls, j, b) ==> Apart(c, from, b, j)
    ensures Fits(r, SplitFrom(ls, c, from, to))
    decreases from
  {
    if from == to {
      InsertFits(r, ls, to, c);
    } else {
      LowerHalf(c, from - 1);
      BuddyIsOtherHalf(c, from - 1);
      var half := Insert(ls, from - 1, Buddy(c, from - 1));
      InsertFits(r, ls, from - 1, Buddy(c, from - 1));
      InsertedAreFree(ls, from - 1, Buddy(c, from - 1));
      SplitFits(r, half, c, from - 1, to);
    }
  }

  lemma SplitKeepsFit(r: Region, ls: Lists, from: nat, to: nat)
    requires r.Valid() && Fits(r, ls) && to <= from < |ls| && ls[from] != []
    ensures ls[from][0] >= 0 && Fits(r, Split(ls, from, to))
  {
    hide Remove, Aligned, SplitFrom;
    var c := ls[from][0];
    assert Free(ls, from, c) && InRegion(r, c, from);
    TailIsRemoval(ls, from);
    RemoveFits(r, ls, from, c);
    RemovedAreFree(ls, from, c);
    SplitFits(r, ls[from := ls[from][1..]], c, from, to);
  }

  lemma SplitCoversSame(ls: Lists, from: nat, to: nat, x: int)
    requires to <= from < |ls| && ls[from] != [] && ls[from][0] >= 0 && Aligned(ls[from][0], from)
    ensures Covered(Split(ls, from, to), x) <==> Covered(ls, x)
  {
    hide SplitFrom, Covered;
    var c, rest := ls[from][0], ls[from := ls[from][1..]];
    SplitCovers(rest, c, from, to, x);
    InsertCovers(rest, from, c, x);
    assert ls[from] == [c] + ls[from][1..];
    assert Insert(rest, from, c) == ls;
  }

  /** Splitting keeps the free blocks aligned and apart, and the same addresses free. */
  lemma SplitSpec(r: Region, ls: Lists, from: nat, to: nat)
    requires r.Valid() && Fits(r, ls) && to <= from < |ls| && ls[from] != []
    ensures ls[from][0] >= 0 && Fits(r, Split(ls, from, to))
    ensures forall x :: Covered(Split(ls, from, to), x) <==> Covered(ls, x)
    ensures forall j :: 0 <= j < |ls| ==>
              Split(ls, from, to)[j]
              == Added(ls[from][0], from, to, j) + if j == from then ls[j][1..] else ls[j]
  {
    hide Covered, SplitFrom, Aligned;
    var c := ls[from][0];
    assert Free(ls, from, c) && InRegion(r, c, from);
    SplitKeepsFit(r, ls, from, to);
    forall x ensures Covered(Split(ls, from, to), x) <==> Covered(ls, x) {
      SplitCoversSame(ls, from, to, x);
    }
    forall j | 0 <= j < |ls|
      ensures Split(ls, from, to)[j] == Added(c, from, to, j) + if j == from then ls[j][1..] else ls[j]
    {
      SplitLists(ls[from := ls[from][1..]], c, from, to, j);
    }
  }

  lemma TailIsRemoval(ls: Lists, k: nat)
    requires k < |ls| && ls[k] != []
    ensures Free(ls, k, ls[k][0]) && Remove(ls, k, ls[k][0]) == ls[k := ls[k][1..]]
  {
    assert Without(ls[k], 0) == ls[k][1..];
  }

  // ---- A join undoes a split ---------------------------------------------------------------------------

  lemma FrontTwo(c: int, b: int, rest: seq<int>)
    requires c != b
    ensures IndexOf([c, b] + rest, b) == 1 && Without([c, b] + rest, 1) == [c] + rest
    ensures IndexOf([c] + rest, c) == 0 && Without([c] + rest, 0) == rest
  {
    var xs := [c, b] + rest;
    assert xs[0] == c && xs[1] == b && xs[1..][0] == b;
    assert ([c] + rest)[0] == c;
  }

  lemma MergedPair(m: Lists, c: nat, k: nat, rest: seq<int>)
    requires k + 1 < |m| && Distinct(m[k]) && Buddy(c, k) == c + Size(k) && m[k] == [c, Buddy(c, k)] + rest
    ensures Free(m, k, c) && Free(m, k, Buddy(c, k))
    ensures Merged(m, c, k) == m[k := rest][k + 1 := [c] + m[k + 1]]
  {
    var b := Buddy(c, k);
    assert m[k][0] == c && m[k][1] == b;
    FrontTwo(c, b, rest);
    RemovedAreFree(m, k, b);
    assert Remove(m, k, b) == m[k := [c] + rest];
  }

  /** One round of joining takes back one round of splitting. */
  lemma MergeUndoesHalving(ls: Lists, c: nat, from: nat, to: nat)
    requires to < from < |ls| && Aligned(c, from) && Distinct(SplitFrom(ls, c, from, to)[to])
    ensures var m := SplitFrom(ls, c, from, to);
      && Buddy(c, to) == c + Size(to) && Free(m, to, c) && Free(m, to, Buddy(c, to))
      && Merged(m, c, to) == SplitFrom(ls, c, from, to + 1)
  {
    AlignedBelow(c, from, to + 1);
    LowerHalf(c, to);
    var m, n := SplitFrom(ls, c, from, to), SplitFrom(ls, c, from, to + 1);
    SplitLists(ls, c, from, to, to);
    MergedPair(m, c, to, ls[to]);
    forall j | 0 <= j < |ls| ensures Merged(m, c, to)[j] == n[j] {
      SplitLists(ls, c, from, to, j);
      SplitLists(ls, c, from, to + 1, j);
    }
  }

  lemma {:induction false} JoinFollowsSplit(r: Region, ls: Lists, c: nat, from: nat, to: nat)
    requires r.Valid() && Fits(r, ls) && to <= from < |ls| && InRegion(r, c, from)
    requires forall j, b :: Free(ls, j, b) ==> Apart(c, from, b, j)
    ensures var m, whole := SplitFrom(ls, c, from, to), Insert(ls, from, c);
      && Fits(r, m) && Free(m, to, c) && Fits(r, whole) && Free(whole, from, c)
      && Join(r, m, c, to) == Join(r, whole, c, from)
    decreases from - to
  {
    SplitFits(r, ls, c, from, to);
    SplitLists(ls, c, from, to, to);
    InsertFits(r, ls, from, c);
    if to < from {
      var m := SplitFrom(ls, c, from, to);
      MergeUndoesHalving(ls, c, from, to);
      JoinFollowsSplit(r, ls, c, from, to + 1);
    }
  }

  /** Taking the head of order `to` after a split, giving it back and joining restores every list. */
  lemma JoinUndoesSplit(r: Region, ls: Lists, from: nat, to: nat)
    requires r.Valid() && Fits(r, ls) && NoBuddies(r, ls) && to <= from < |ls| && ls[from] != []
    ensures ls[from][0] >= 0
    ensures var c, m := ls[from][0], Split(ls, from, to);
      && m[to] != [] && m[to][0] == c && Fits(r, m)
      && Insert(m[to := m[to][1..]], to, c) == m
      && Join(r, m, c, to) == ls
  {
    var c := ls[from][0];
    assert Free(ls, from, c) && InRegion(r, c, from);
    var m, rest := Split(ls, from, to), ls[from := ls[from][1..]];
    SplitLists(rest, c, from, to, to);
    assert m[to] == [c] + m[to][1..];
    TailIsRemoval(ls, from);
    RemoveFits(r, ls, from, c);
    RemovedAreFree(ls, from, c);
    JoinFollowsSplit(r, rest, c, from, to);
    assert ls[from] == [c] + ls[from][1..];
    assert Insert(rest, from, c) == ls;
  }
}
