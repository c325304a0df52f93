/** The kernel heap as values: an address-ordered list of free runs and the set of live runs.

    Addresses are byte addresses; a run is a whole number of 64-byte blocks and starts with
    a 12-byte segment header (three 32-bit words). A null pointer is address 0.
 */
module HeapModel {

  const BLOCK_SIZE := 64
  const HEADER_SIZE := 12
  const WORD_LIMIT := 0x1_0000_0000

  /** A stretch of `blocks` blocks starting at `addr`. */
  datatype Run = Run(addr: int, blocks: int) {
    function End(): int { addr + BLOCK_SIZE * blocks }

    predicate Contains(x: int) { addr <= x < End() }

    predicate Apart(other: Run) { End() <= other.addr || other.End() <= addr }
  }

  datatype HeapState = HeapState(lo: int, hi: int, free: seq<Run>, live: set<Run>)

  // ---- Invariant ----------------------------------------------------------------------

  /** Strictly ascending, no empty run, and no two runs touch. */
  ghost predicate Canonical(free: seq<Run>) {
    && (forall i :: 0 <= i < |free| ==> free[i].blocks >= 1)
    && (forall i, j :: 0 <= i < j < |free| ==> free[i].End() < free[j].addr)
  }

  ghost predicate InFree(free: seq<Run>, x: int) {
    exists i :: 0 <= i < |free| && free[i].Contains(x)
  }

  ghost predicate InLive(live: set<Run>, x: int) {
    exists r :: r in live && r.Contains(x)
  }

  /** The live runs are non-empty, inside [lo, hi) and pairwise disjoint. */
  ghost predicate LiveOk(lo: int, hi: int, live: set<Run>) {
    && (forall r :: r in live ==> lo <= r.addr && r.blocks >= 1 && r.End() <= hi)
    && (forall r, q :: r in live && q in live && r != q ==> r.Apart(q))
  }

  /** Every address of the heap is in a free run or in a live run, never in both. */
  ghost predicate Tiles(s: HeapState) {
    forall x :: InFree(s.free, x) <==> s.lo <= x < s.hi && !InLive(s.live, x)
  }

  ghost predicate Inv(s: HeapState) {
    && 0 < s.lo && s.hi < WORD_LIMIT
    && Canonical(s.free)
    && LiveOk(s.lo, s.hi, s.live)
    && Tiles(s)
  }

  // ---- Operations ---------------------------------------------------------------------

  /** Number of blocks for a request; the header addition is a 32-bit addition. */
  function BlocksFor(bytes: nat): nat {
    var total := (bytes + HEADER_SIZE) % WORD_LIMIT;
    total / BLOCK_SIZE + if total % BLOCK_SIZE != 0 then 1 else 0
  }

  function FirstFit(free: seq<Run>, n: nat): (i: nat)
    ensures i <= |free|
    ensures i < |free| ==> free[i].blocks >= n
    ensures forall j :: 0 <= j < i ==> free[j].blocks < n
  {
    if free == [] then 0
    else if free[0].blocks >= n then 0
    else
      var i := FirstFit(free[1..], n);
      assert forall j :: 0 < j < i + 1 ==> free[j] == free[1..][j - 1];
      i + 1
  }

  /** The free list after `n` blocks are cut from the front of entry `i`. */
  function Carve(free: seq<Run>, i: nat, n: nat): seq<Run>
    requires i < |free|
  {
    var r := free[i];
    if r.blocks > n
    then free[i := Run(r.addr + BLOCK_SIZE * n, r.blocks - n)]
    else free[..i] + free[i + 1..]
  }

  /** `n` blocks of free run `i` become live. */
  function Take(s: HeapState, i: nat, n: nat): HeapState
    requires i < |s.free|
  {
    s.(free := Carve(s.free, i, n), live := s.live + {Run(s.free[i].addr, n)})
  }

  /** First-fit allocation. The second result is the payload pointer, or 0. */
  function Alloc(s: HeapState, bytes: nat): (HeapState, int) {
    var n := BlocksFor(bytes);
    var i := FirstFit(s.free, n);
    if i == |s.free| then (s, 0)
    else (Take(s, i, n), s.free[i].addr + HEADER_SIZE)
  }

  /** Index of the first free run above `addr`. */
  function Slot(free: seq<Run>, addr: int): (k: nat)
    ensures k <= |free|
    ensures forall j :: 0 <= j < k ==> free[j].addr <= addr
    ensures k < |free| ==> addr < free[k].addr
  {
    if free == [] then 0
    else if addr < free[0].addr then 0
    else
      var k := Slot(free[1..], addr);
      assert forall j :: 0 < j < k + 1 ==> free[j] == free[1..][j - 1];
      k + 1
  }

  /** Entry `i` swallows entry `i + 1` when they touch. */
  function JoinNext(free: seq<Run>, i: nat): seq<Run>
    requires i < |free|
  {
    if i + 1 < |free| && free[i].End() == free[i + 1].addr
    then free[..i] + [Run(free[i].addr, free[i].blocks + free[i + 1].blocks)] + free[i + 2..]
    else free
  }

  function Release(free: seq<Run>, r: Run): seq<Run> {
    var k := Slot(free, r.addr);
    var inserted := free[..k] + [r] + free[k..];
    var joined := JoinNext(inserted, k);
    if k > 0 then JoinNext(joined, k - 1) else joined
  }

  function Dealloc(s: HeapState, r: Run): HeapState {
    s.(free := Release(s.free, r), live := s.live - {r})
  }

  /** The one request that damages a heap: its header addition wraps to 0 blocks, and there is a free
      run to cut them from. */
  predicate Harmless(s: HeapState, bytes: nat) {
    bytes < WORD_LIMIT && (bytes != WORD_LIMIT - HEADER_SIZE || s.free == [])
  }

  // ---- Request sizes ------------------------------------------------------------------

  /** The block count holds header plus payload exactly when the addition does not wrap. */
  lemma BlocksHoldRequest(bytes: nat)
    requires bytes < WORD_LIMIT
    ensures BLOCK_SIZE * BlocksFor(bytes) >= bytes + HEADER_SIZE <==> bytes + HEADER_SIZE < WORD_LIMIT
    ensures BlocksFor(bytes) == 0 <==> bytes == WORD_LIMIT - HEADER_SIZE
  {
    if bytes + HEADER_SIZE >= WORD_LIMIT {
      assert (bytes + HEADER_SIZE) % WORD_LIMIT == bytes + HEADER_SIZE - WORD_LIMIT;
    } else {
      assert (bytes + HEADER_SIZE) % WORD_LIMIT == bytes + HEADER_SIZE;
    }
  }

  /** No smaller number of blocks would do. */
  lemma BlocksAreLeast(bytes: nat, b: nat)
    requires bytes + HEADER_SIZE < WORD_LIMIT
    requires BLOCK_SIZE * b >= bytes + HEADER_SIZE
    ensures BlocksFor(bytes) <= b
  {
    assert (bytes + HEADER_SIZE) % WORD_LIMIT == bytes + HEADER_SIZE;
  }

  // ---- The free list is determined by the live runs -----------------------------------

  lemma FirstIsCovered(free: seq<Run>)
    requires Canonical(free)
    ensures free != [] ==> InFree(free, free[0].addr)
  {
    if free != [] {
      assert free[0].Contains(free[0].addr);
    }
  }

  lemma HeadIsLeast(free: seq<Run>, x: int)
    requires Canonical(free) && InFree(free, x)
    ensures free != [] && free[0].addr <= x
  {
    var i :| 0 <= i < |free| && free[i].Contains(x);
    if i > 0 {
      assert free[0].End() < free[i].addr;
    }
  }

  lemma InTail(free: seq<Run>, x: int)
    requires Canonical(free) && free != []
    ensures Canonical(free[1..])
    ensures InFree(free[1..], x) <==> InFree(free, x) && x > free[0].End()
    ensures !InFree(free, free[0].End())
  {
    var rest := free[1..];
    forall i, j | 0 <= i < j < |rest| ensures rest[i].End() < rest[j].addr {
      assert free[i + 1].End() < free[j + 1].addr;
    }
    if InFree(rest, x) {
      var i :| 0 <= i < |rest| && rest[i].Contains(x);
      assert free[i + 1].Contains(x) && free[0].End() < free[i + 1].addr;
    }
    if InFree(free, x) && x > free[0].End() {
      var i :| 0 <= i < |free| && free[i].Contains(x);
      assert rest[i - 1].Contains(x);
    }
  }

  /** Two canonical lists covering the same addresses are the same list. */
  lemma {:induction false} CanonicalUnique(f: seq<Run>, g: seq<Run>)
    requires Canonical(f) && Canonical(g)
    requires forall x :: InFree(f, x) <==> InFree(g, x)
    ensures f == g
  {
    if f == [] {
      FirstIsCovered(g);
    } else {
      FirstIsCovered(f);
      HeadIsLeast(g, f[0].addr);
      FirstIsCovered(g);
      HeadIsLeast(f, g[0].addr);
      InTail(f, f[0].End());
      InTail(g, g[0].End());
      assert !InFree(g, f[0].End()) && !InFree(f, g[0].End());
      assert !g[0].Contains(f[0].End()) && !f[0].Contains(g[0].End());
      forall x ensures InFree(f[1..], x) <==> InFree(g[1..], x) {
        InTail(f, x);
        InTail(g, x);
      }
      CanonicalUnique(f[1..], g[1..]);
    }
  }

  /** The free list is a function of the live runs: any two reachable heaps over the same
      region with the same live runs have the same free list, whatever calls led there. */
  lemma FreeListDetermined(s: HeapState, t: HeapState)
    requires Inv(s) && Inv(t)
    requires s.lo == t.lo && s.hi == t.hi && s.live == t.live
    ensures s.free == t.free
  {
    CanonicalUnique(s.free, t.free);
  }

  // ---- Allocation keeps the invariant --------------------------------------------------

  lemma CarveCanonical(free: seq<Run>, i: nat, n: nat)
    requires Canonical(free) && i < |free| && 1 <= n <= free[i].blocks
    ensures Canonical(Carve(free, i, n))
  {
    var g := Carve(free, i, n);
    forall j, k | 0 <= j < k < |g| ensures g[j].End() < g[k].addr {
      var split := free[i].blocks > n;
      assert g[j].End() == free[if split || j < i then j else j + 1].End();
      assert g[k].addr >= free[if split || k < i then k else k + 1].addr;
    }
  }

  lemma CarvedEntry(free: seq<Run>, i: nat, n: nat, j: nat)
    requires i < |free| && 1 <= n <= free[i].blocks && j < |Carve(free, i, n)|
    ensures var split, r := free[i].blocks > n, Carve(free, i, n)[j];
      if split && j == i then r == Run(free[i].addr + BLOCK_SIZE * n, free[i].blocks - n)
      else var k := if split || j < i then j else j + 1; k < |free| && k != i && r == free[k]
  {
  }

  lemma CarveAddsNothing(free: seq<Run>, i: nat, n: nat, x: int)
    requires Canonical(free) && i < |free| && 1 <= n <= free[i].blocks && InFree(Carve(free, i, n), x)
    ensures InFree(free, x) && !Run(free[i].addr, n).Contains(x)
  {
    hide Carve;
    var g := Carve(free, i, n);
    var j :| 0 <= j < |g| && g[j].Contains(x);
    CarvedEntry(free, i, n, j);
    var k := if free[i].blocks > n || j < i then j else j + 1;
    assert free[k].Contains(x);
    assert k < i ==> free[k].End() < free[i].addr;
    assert i < k ==> free[i].End() < free[k].addr;
  }

  lemma CarveLeavesRest(free: seq<Run>, i: nat, n: nat, x: int)
    requires i < |free| && 1 <= n <= free[i].blocks && InFree(free, x) && !Run(free[i].addr, n).Contains(x)
    ensures InFree(Carve(free, i, n), x)
  {
    var g := Carve(free, i, n);
    var k :| 0 <= k < |free| && free[k].Contains(x);
    assert g[if free[i].blocks > n || k < i then k else k - 1].Contains(x);
  }

  lemma CarveCoversAt(free: seq<Run>, i: nat, n: nat, x: int)
    requires Canonical(free) && i < |free| && 1 <= n <= free[i].blocks
    ensures InFree(Carve(free, i, n), x) <==> InFree(free, x) && !Run(free[i].addr, n).Contains(x)
  {
    if InFree(Carve(free, i, n), x) {
      CarveAddsNothing(free, i, n, x);
    }
    if InFree(free, x) && !Run(free[i].addr, n).Contains(x) {
      CarveLeavesRest(free, i, n, x);
    }
  }

  lemma CarveCovers(free: seq<Run>, i: nat, n: nat)
    requires Canonical(free) && i < |free| && 1 <= n <= free[i].blocks
    ensures Canonical(Carve(free, i, n))
    ensures forall x :: InFree(Carve(free, i, n), x) <==> InFree(free, x) && !Run(free[i].addr, n).Contains(x)
  {
    CarveCanonical(free, i, n);
    forall x ensures InFree(Carve(free, i, n), x) <==> InFree(free, x) && !Run(free[i].addr, n).Contains(x) {
      CarveCoversAt(free, i, n, x);
    }
  }

  lemma FreeRunInside(s: HeapState, i: nat)
    requires Inv(s) && i < |s.free|
    ensures s.lo <= s.free[i].addr && s.free[i].End() <= s.hi
    ensures forall r :: r in s.live ==> r.Apart(s.free[i])
  {
    var f := s.free[i];
    assert f.Contains(f.addr) && InFree(s.free, f.addr);
    assert f.Contains(f.End() - 1) && InFree(s.free, f.End() - 1);
    forall r | r in s.live ensures r.Apart(f) {
      assert f.Contains(r.addr) ==> InFree(s.free, r.addr);
      assert r.Contains(r.addr) && InLive(s.live, r.addr);
      assert r.Contains(f.addr) ==> InLive(s.live, f.addr);
    }
  }

  lemma TakeKeepsInv(s: HeapState, i: nat, n: nat)
    requires Inv(s) && i < |s.free| && 1 <= n <= s.free[i].blocks
    ensures Inv(Take(s, i, n))
    ensures forall q :: q in s.live ==> Run(s.free[i].addr, n).Apart(q)
  {
    var r := Run(s.free[i].addr, n);
    var t := Take(s, i, n);
    FreeRunInside(s, i);
    CarveCovers(s.free, i, n);
    forall x ensures InFree(t.free, x) <==> t.lo <= x < t.hi && !InLive(t.live, x) {
      assert InLive(t.live, x) <==> InLive(s.live, x) || r.Contains(x) by {
        assert r in t.live;
      }
      assert r.Contains(x) ==> s.free[i].Contains(x);
    }
  }

  /** What a caller gets from an allocation: it fails exactly when no free run is large enough;
      otherwise the payload follows the header of the lowest-addressed run that fits, and
      the new run is disjoint from every live one. */
  lemma AllocSpec(s: HeapState, bytes: nat)
    requires Inv(s) && Harmless(s, bytes)
    ensures var (t, ptr) := Alloc(s, bytes);
      var n := BlocksFor(bytes);
      && Inv(t)
      && (ptr == 0 <==> forall i :: 0 <= i < |s.free| ==> s.free[i].blocks < n)
      && (ptr == 0 ==> t == s)
      && (ptr != 0 ==>
            var r := Run(ptr - HEADER_SIZE, n);
            && t.live == s.live + {r} && r !in s.live
            && (forall q :: q in s.live ==> r.Apart(q))
            && (exists i :: 0 <= i < |s.free| && s.free[i].addr == r.addr && s.free[i].blocks >= n)
            && (forall i :: 0 <= i < |s.free| && s.free[i].blocks >= n ==> r.addr <= s.free[i].addr))
  {
    var n := BlocksFor(bytes);
    var i := FirstFit(s.free, n);
    BlocksHoldRequest(bytes);
    if i < |s.free| {
      FreeRunInside(s, i);
      TakeKeepsInv(s, i, n);
    }
  }

  // ---- Release keeps the invariant -----------------------------------------------------

  /** Ascending, but neighbours may touch. */
  ghost predicate Ordered(free: seq<Run>) {
    && (forall i :: 0 <= i < |free| ==> free[i].blocks >= 1)
    && (forall i, j :: 0 <= i < j < |free| ==> free[i].End() <= free[j].addr)
  }

  predicate Touches(free: seq<Run>, i: nat) {
    i + 1 < |free| && free[i].End() == free[i + 1].addr
  }

  lemma {:induction false} UntouchedIsCanonical(free: seq<Run>)
    requires Ordered(free) && forall i: nat :: !Touches(free, i)
    ensures Canonical(free)
  {
    forall i, j | 0 <= i < j < |free| ensures free[i].End() < free[j].addr {
      assert !Touches(free, i);
      assert free[i].End() < free[i + 1].addr;
    }
  }

  lemma JoinedLength(free: seq<Run>, i: nat)
    requires Touches(free, i)
    ensures |JoinNext(free, i)| == |free| - 1
  {
  }

  lemma JoinedEntry(free: seq<Run>, i: nat, j: nat)
    requires Touches(free, i) && j < |JoinNext(free, i)|
    ensures JoinNext(free, i)[j]
            == if j == i then Run(free[i].addr, free[i].blocks + free[i + 1].blocks)
               else free[if j < i then j else j + 1]
  {
  }

  lemma JoinAddsNothing(free: seq<Run>, i: nat, x: int)
    requires Touches(free, i) && InFree(JoinNext(free, i), x)
    ensures InFree(free, x)
  {
    hide JoinNext;
    var g := JoinNext(free, i);
    var j :| 0 <= j < |g| && g[j].Contains(x);
    JoinedLength(free, i);
    JoinedEntry(free, i, j);
    if j == i {
      assert free[i].Contains(x) || free[i + 1].Contains(x);
    } else {
      assert free[if j < i then j else j + 1].Contains(x);
    }
  }

  lemma JoinLosesNothing(free: seq<Run>, i: nat, x: int)
    requires Ordered(free) && Touches(free, i) && InFree(free, x)
    ensures InFree(JoinNext(free, i), x)
  {
    hide JoinNext;
    var g := JoinNext(free, i);
    var j :| 0 <= j < |free| && free[j].Contains(x);
    JoinedLength(free, i);
    JoinedEntry(free, i, i);
    var k := if j <= i then j else j - 1;
    JoinedEntry(free, i, k);
    assert g[k].Contains(x);
  }

  lemma JoinNextCovers(free: seq<Run>, i: nat, x: int)
    requires Ordered(free) && i < |free|
    ensures InFree(JoinNext(free, i), x) <==> InFree(free, x)
  {
    if Touches(free, i) {
      if InFree(JoinNext(free, i), x) {
        JoinAddsNothing(free, i, x);
      }
      if InFree(free, x) {
        JoinLosesNothing(free, i, x);
      }
    }
  }

  /** Joining at `i` keeps the order and leaves no touching pair from `i` on. */
  lemma JoinNextKeeps(free: seq<Run>, i: nat)
    requires Ordered(free) && i < |free|
    requires forall j: nat :: Touches(free, j) ==> j <= i
    ensures Ordered(JoinNext(free, i)) && i < |JoinNext(free, i)|
    ensures forall j: nat :: Touches(JoinNext(free, i), j) ==> j < i && Touches(free, j)
  {
    var g := JoinNext(free, i);
    if Touches(free, i) {
      assert |g| == |free| - 1;
      assert g[i].addr == free[i].addr && g[i].End() == free[i + 1].End();
      forall j, k | 0 <= j < k < |g| ensures g[j].End() <= g[k].addr {
        assert g[j].End() == free[if j < i then j else j + 1].End();
        assert g[k].addr == free[if k <= i then k else k + 1].addr;
      }
      forall j: nat | j >= i ensures !Touches(g, j) {
        assert !Touches(free, j + 1);
      }
      forall j: nat | j < i && Touches(g, j) ensures Touches(free, j) {
        assert g[j] == free[j] && g[j + 1].addr == free[j + 1].addr;
      }
    }
  }

  ghost predicate Joins(free: seq<Run>, r: Run, k: nat) {
    && k <= |free|
    && (forall j :: 0 <= j < k ==> free[j].End() <= r.addr)
    && (forall j :: k <= j < |free| ==> r.End() <= free[j].addr)
  }

  lemma SlotJoins(free: seq<Run>, r: Run)
    requires Canonical(free) && r.blocks >= 1
    requires forall i :: 0 <= i < |free| ==> r.Apart(free[i])
    ensures Joins(free, r, Slot(free, r.addr))
  {
    var k := Slot(free, r.addr);
    forall j | k <= j < |free| ensures r.End() <= free[j].addr {
      assert r.Apart(free[j]);
      assert j > k ==> free[k].End() < free[j].addr;
    }
  }

  lemma InsertedPair(free: seq<Run>, r: Run, k: nat, i: nat, j: nat)
    requires Canonical(free) && Joins(free, r, k) && i < j <= |free|
    ensures var f := free[..k] + [r] + free[k..]; f[i].End() <= f[j].addr
  {
    if j < k {
      assert free[i].End() < free[j].addr;
    } else if j > k && i != k {
      assert free[if i < k then i else i - 1].End() < free[j - 1].addr;
    }
  }

  lemma InsertOrdered(free: seq<Run>, r: Run, k: nat)
    requires Canonical(free) && r.blocks >= 1 && Joins(free, r, k)
    ensures var f := free[..k] + [r] + free[k..];
      && Ordered(f)
      && (forall j: nat :: Touches(f, j) ==> j == k || j + 1 == k)
  {
    var f := free[..k] + [r] + free[k..];
    forall i, j | 0 <= i < j < |f| ensures f[i].End() <= f[j].addr {
      InsertedPair(free, r, k, i, j);
    }
    forall j: nat | j != k && j + 1 != k ensures !Touches(f, j) {
      if j + 1 < k {
        assert f[j] == free[j] && f[j + 1] == free[j + 1];
      } else if j + 1 < |f| {
        assert f[j] == free[j - 1] && f[j + 1] == free[j];
      }
    }
  }

  lemma InsertCovers(free: seq<Run>, r: Run, k: nat, x: int)
    requires k <= |free|
    ensures InFree(free[..k] + [r] + free[k..], x) <==> InFree(free, x) || r.Contains(x)
  {
    var f := free[..k] + [r] + free[k..];
    assert f[k] == r;
    if j :| 0 <= j < |f| && f[j].Contains(x) {
      assert f[j] == if j < k then free[j] else if j == k then r else free[j - 1];
    }
    if j :| 0 <= j < |free| && free[j].Contains(x) {
      assert free[j] == f[if j < k then j else j + 1];
    }
  }

  lemma ReleaseCanonical(free: seq<Run>, r: Run)
    requires Canonical(free) && r.blocks >= 1
    requires forall i :: 0 <= i < |free| ==> r.Apart(free[i])
    ensures var k := Slot(free, r.addr);
      var f := free[..k] + [r] + free[k..];
      Ordered(f) && Ordered(JoinNext(f, k)) && k < |JoinNext(f, k)| && Canonical(Release(free, r))
  {
    var k := Slot(free, r.addr);
    var f := free[..k] + [r] + free[k..];
    SlotJoins(free, r);
    InsertOrdered(free, r, k);
    JoinNextKeeps(f, k);
    var g := JoinNext(f, k);
    if k > 0 {
      JoinNextKeeps(g, k - 1);
    }
    UntouchedIsCanonical(Release(free, r));
  }

  lemma JoinsCover(f: seq<Run>, k: nat, x: int)
    requires k < |f| && Ordered(f) && Ordered(JoinNext(f, k)) && k < |JoinNext(f, k)|
    ensures InFree(if k > 0 then JoinNext(JoinNext(f, k), k - 1) else JoinNext(f, k), x) <==> InFree(f, x)
  {
    JoinNextCovers(f, k, x);
    if k > 0 {
      JoinNextCovers(JoinNext(f, k), k - 1, x);
    }
  }

  lemma ReleaseCoversAt(free: seq<Run>, r: Run, f: seq<Run>, x: int)
    requires var k := Slot(free, r.addr); f == free[..k] + [r] + free[k..] && Ordered(f) && Ordered(JoinNext(f, k))
    requires var k := Slot(free, r.addr); k < |JoinNext(f, k)|
    ensures InFree(Release(free, r), x) <==> InFree(free, x) || r.Contains(x)
  {
    var k := Slot(free, r.addr);
    InsertCovers(free, r, k, x);
    JoinsCover(f, k, x);
  }

  lemma ReleaseCovers(free: seq<Run>, r: Run)
    requires Canonical(free) && r.blocks >= 1
    requires forall i :: 0 <= i < |free| ==> r.Apart(free[i])
    ensures Canonical(Release(free, r))
    ensures forall x :: InFree(Release(free, r), x) <==> InFree(free, x) || r.Contains(x)
  {
    ReleaseCanonical(free, r);
    var k := Slot(free, r.addr);
    var f := free[..k] + [r] + free[k..];
    forall x ensures InFree(Release(free, r), x) <==> InFree(free, x) || r.Contains(x) {
      ReleaseCoversAt(free, r, f, x);
    }
  }

  lemma DeallocKeepsInv(s: HeapState, r: Run)
    requires Inv(s) && r in s.live
    ensures Inv(Dealloc(s, r))
  {
    forall i | 0 <= i < |s.free| ensures r.Apart(s.free[i]) {
      FreeRunInside(s, i);
    }
    ReleaseCovers(s.free, r);
    var t := Dealloc(s, r);
    forall x ensures InFree(t.free, x) <==> t.lo <= x < t.hi && !InLive(t.live, x) {
      if InLive(s.live, x) && !r.Contains(x) {
        var q :| q in s.live && q.Contains(x);
        assert q in t.live;
      }
      if r.Contains(x) {
        assert forall q :: q in t.live ==> r.Apart(q);
        assert InLive(s.live, x);
      }
    }
  }

  /** Freeing what was just allocated restores the heap exactly, in the split branch and in
      the exact-fit branch. */
  lemma DeallocUndoesAlloc(s: HeapState, bytes: nat)
    requires Inv(s) && Harmless(s, bytes)
    requires Alloc(s, bytes).1 != 0
    ensures Dealloc(Alloc(s, bytes).0, Run(Alloc(s, bytes).1 - HEADER_SIZE, BlocksFor(bytes))) == s
  {
    AllocSpec(s, bytes);
    var (t, ptr) := Alloc(s, bytes);
    var r := Run(ptr - HEADER_SIZE, BlocksFor(bytes));
    DeallocKeepsInv(t, r);
    assert Dealloc(t, r).live == s.live;
    FreeListDetermined(Dealloc(t, r), s);
  }

  // ---- Whole runs -----------------------------------------------------------------------

  datatype Op = Request(bytes: nat) | Free(run: Run)

  ghost predicate Enabled(s: HeapState, op: Op) {
    match op
    case Request(bytes) => Harmless(s, bytes)
    case Free(r) => r in s.live
  }

  function Step(s: HeapState, op: Op): HeapState {
    match op
    case Request(bytes) => Alloc(s, bytes).0
    case Free(r) => Dealloc(s, r)
  }

  function After(s: HeapState, ops: seq<Op>): HeapState
    decreases |ops|
  {
    if ops == [] then s else After(Step(s, ops[0]), ops[1..])
  }

  ghost predicate AllEnabled(s: HeapState, ops: seq<Op>)
    decreases |ops|
  {
    ops == [] || (Enabled(s, ops[0]) && AllEnabled(Step(s, ops[0]), ops[1..]))
  }

  function Initial(lo: int, blocks: int): HeapState {
    HeapState(lo, lo + BLOCK_SIZE * blocks, [Run(lo, blocks)], {})
  }

  lemma InitialInv(lo: int, blocks: int)
    requires 0 < lo && 1 <= blocks && lo + BLOCK_SIZE * blocks < WORD_LIMIT
    ensures Inv(Initial(lo, blocks))
  {
    var s := Initial(lo, blocks);
    forall x | s.lo <= x < s.hi ensures InFree(s.free, x) {
      assert s.free[0].Contains(x);
    }
  }

  lemma {:induction false} RunKeepsInv(s: HeapState, ops: seq<Op>)
    requires Inv(s) && AllEnabled(s, ops)
    ensures Inv(After(s, ops)) && After(s, ops).lo == s.lo && After(s, ops).hi == s.hi
    decreases |ops|
  {
    if ops != [] {
      match ops[0] {
        case Request(bytes) => AllocSpec(s, bytes);
        case Free(r) => DeallocKeepsInv(s, r);
      }
      RunKeepsInv(Step(s, ops[0]), ops[1..]);
    }
  }

  /** Order independence: two histories that leave the same runs live leave the same heap.
      In particular any set of live runs can be freed in any order. */
  lemma HistoriesAgree(s: HeapState, ops: seq<Op>, ops': seq<Op>)
    requires Inv(s) && AllEnabled(s, ops) && AllEnabled(s, ops')
    requires After(s, ops).live == After(s, ops').live
    ensures After(s, ops) == After(s, ops')
  {
    RunKeepsInv(s, ops);
    RunKeepsInv(s, ops');
    FreeListDetermined(After(s, ops), After(s, ops'));
  }

  /** Once everything has been freed the heap is the single run it started as. */
  lemma AllFreedIsInitial(lo: int, blocks: int, ops: seq<Op>)
    requires 0 < lo && 1 <= blocks && lo + BLOCK_SIZE * blocks < WORD_LIMIT
    requires AllEnabled(Initial(lo, blocks), ops)
    requires After(Initial(lo, blocks), ops).live == {}
    ensures After(Initial(lo, blocks), ops) == Initial(lo, blocks)
  {
    InitialInv(lo, blocks);
    assert After(Initial(lo, blocks), []) == Initial(lo, blocks);
    HistoriesAgree(Initial(lo, blocks), ops, []);
  }
}
