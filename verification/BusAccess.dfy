/** The bus refines byte memory: grants, answers and the bytes that an access reads or writes, under
    any request pattern of the second master. */
module BusAccess {
  import opened Isa
  import CpuUnits
  import opened BusParts

  // ---- Grants -----------------------------------------------------------------------------------

  /** At most one master drives the bus. */
  lemma GrantsExclude(b: Bus, d: Dma)
    ensures !(Granted(b, d) && DmaGranted(b, d))
    ensures b.port.busReq || d.req ==> Granted(b, d) || DmaGranted(b, d)
  {
  }

  /** Whatever the DMA does at the next edge, a granted CPU request stays granted until the CPU
      drops it; and whatever the CPU does, so does a granted DMA request. */
  lemma GrantsStay(r: Range, allowed: nat, b: Bus, q: Request, d: Dma, s: Slave, d': Dma)
    ensures var n := NextBus(r, allowed, b, q, d, s);
      && (Granted(b, d) && n.port.busReq ==> Granted(n, d'))
      && (DmaGranted(b, d) && d'.req ==> DmaGranted(n, d'))
  {
  }

  /** The CPU comes first on an idle bus, and whenever the DMA has paused. */
  lemma PauseGoesToCpu(r: Range, allowed: nat, b: Bus, q: Request, d: Dma, s: Slave, d': Dma)
    requires !d.req
    ensures var n := NextBus(r, allowed, b, q, d, s); n.port.busReq ==> Granted(n, d')
  {
  }

  // ---- Bytes --------------------------------------------------------------------------------------

  function ByteAt(r: Range, words: Words, a: Word): bv8 {
    Lane(WordAt(words, r.Index(a)), Offset(a))
  }

  predicate MaskBit(mask: bv4, k: Word) {
    if k == 0 then mask & 1 != 0 else if k == 1 then mask & 2 != 0
    else if k == 2 then mask & 4 != 0 else k == 3 && mask & 8 != 0
  }

  function DataByte(d: Word, k: Word): bv8 {
    if k == 0 then (d & 0xFF) as bv8 else if k == 1 then ((d >> 8) & 0xFF) as bv8
    else if k == 2 then ((d >> 16) & 0xFF) as bv8 else ((d >> 24) & 0xFF) as bv8
  }

  /** The byte at `a` once `data` has been stored at `addr` under `mask`. */
  function StoredByte(was: bv8, addr: Word, mask: bv4, data: Word, a: Word): bv8 {
    var k := Minus(a, addr);
    if MaskBit(mask, k) then DataByte(data, k) else was
  }

  lemma SameWordSameIndex(start: Word, a: Word, b: Word)
    requires start & 3 == 0 && a >> 2 == b >> 2
    ensures WordIndex(a, start) == WordIndex(b, start)
  {
  }

  lemma SameIndexSameWord(start: Word, a: Word, b: Word)
    requires start & 3 == 0 && WordIndex(a, start) == WordIndex(b, start)
    ensures a >> 2 == b >> 2
  {
  }

  /** Two addresses share a word of the memory exactly when they differ in the offset only. */
  lemma SharesWord(r: Range, a: Word, b: Word)
    requires r.Aligned()
    ensures r.Index(a) == r.Index(b) <==> a >> 2 == b >> 2
  {
    if r.Index(a) == r.Index(b) {
      SameIndexSameWord(r.start, a, b);
    }
    if a >> 2 == b >> 2 {
      SameWordSameIndex(r.start, a, b);
    }
  }

  lemma WordAndOffset(a: Word)
    ensures a == Plus(a & !3, a & 3)
  {
  }

  lemma WordPart(a: Word, b: Word)
    requires a >> 2 == b >> 2
    ensures a & !3 == b & !3
  {
  }

  lemma CommonTerm(w: Word, x: Word, y: Word)
    ensures Minus(w + x, w + y) == Minus(x, y)
  {
  }

  lemma BaseCancels(w: Word, x: Word, y: Word)
    ensures Minus(Plus(w, x), Plus(w, y)) == Minus(x, y)
  {
    CommonTerm(w, x, y);
    assert Plus(w, x) == w + x;
    assert Plus(w, y) == w + y;
  }

  lemma OffsetsApart(a: Word, addr: Word)
    requires a >> 2 == addr >> 2
    ensures Minus(a, addr) == Minus(a & 3, addr & 3)
  {
    WordPart(a, addr);
    WordAndOffset(a);
    WordAndOffset(addr);
    BaseCancels(a & !3, a & 3, addr & 3);
  }

  lemma FarBytes(a: Word, addr: Word, mask: bv4)
    requires a >> 2 != addr >> 2 && !CpuUnits.Overflow(Offset(addr), mask)
    ensures !MaskBit(mask, a - addr)
  {
  }

  /** An address outside the word of `addr` is not reached by an access that stays in its word. */
  lemma OutOfReach(a: Word, addr: Word, mask: bv4)
    requires a >> 2 != addr >> 2 && !CpuUnits.Overflow(Offset(addr), mask)
    ensures !MaskBit(mask, Minus(a, addr))
  {
    FarBytes(a, addr, mask);
    assert Minus(a, addr) == a - addr;
  }

  /** Writing the shifted data under the shifted mask changes, lane by lane, the bytes addressed. */
  lemma LaneWritten(q: Quad, mask: bv4, data: Word, off: bv2, k: bv2)
    requires !CpuUnits.Overflow(off, mask)
    ensures Lane(WriteLanes(q, MaskUp(mask, off), LanesUp(data, off)), k)
            == StoredByte(Lane(q, k), off as bv32, mask, data, k as bv32)
  {
  }

  lemma LaneRead(q: Quad, off: bv2, k: bv2)
    requires off as bv32 + k as bv32 < 4
    ensures DataByte(LanesDown(Join(q), off), k as bv32) == Lane(q, off + k)
  {
  }

  /** A store under `mask` at `addr`, seen through the word it is written to. */
  function Store(r: Range, words: Words, addr: Word, mask: bv4, data: Word): Words {
    NextWords(words, true, MaskUp(mask, Offset(addr)), r.Index(addr), LanesUp(data, Offset(addr)))
  }

  lemma WordWritten(words: Words, mask: bv4, i: Word, d: Word)
    ensures WordAt(NextWords(words, true, mask, i, d), i) == WriteLanes(WordAt(words, i), mask, d)
  {
  }

  lemma WordKept(words: Words, mask: bv4, i: Word, d: Word, j: Word)
    requires i != j
    ensures WordAt(NextWords(words, true, mask, i, d), j) == WordAt(words, j)
  {
  }

  /** A store that passes the alignment check changes exactly its own bytes. */
  lemma StoreIsExact(r: Range, words: Words, addr: Word, mask: bv4, data: Word, a: Word)
    requires r.Aligned() && !CpuUnits.Overflow(Offset(addr), mask)
    ensures ByteAt(r, Store(r, words, addr, mask, data), a)
            == StoredByte(ByteAt(r, words, a), addr, mask, data, a)
  {
    SharesWord(r, a, addr);
    if a >> 2 == addr >> 2 {
      WordWritten(words, MaskUp(mask, Offset(addr)), r.Index(addr), LanesUp(data, Offset(addr)));
      OffsetsApart(a, addr);
      LaneStored(WordAt(words, r.Index(addr)), mask, data, addr, a);
    } else {
      WordKept(words, MaskUp(mask, Offset(addr)), r.Index(addr), LanesUp(data, Offset(addr)), r.Index(a));
      OutOfReach(a, addr, mask);
    }
  }

  lemma LaneStored(q: Quad, mask: bv4, data: Word, addr: Word, a: Word)
    requires !CpuUnits.Overflow(Offset(addr), mask) && Minus(a, addr) == Minus(a & 3, addr & 3)
    ensures Lane(WriteLanes(q, MaskUp(mask, Offset(addr)), LanesUp(data, Offset(addr))), Offset(a))
            == StoredByte(Lane(q, Offset(a)), addr, mask, data, a)
  {
    LaneWritten(q, mask, data, Offset(addr), Offset(a));
    assert Offset(addr) as bv32 == addr & 3;
    assert Offset(a) as bv32 == a & 3;
  }

  /** Writing the same data again changes nothing. */
  lemma StoreTwice(r: Range, words: Words, addr: Word, mask: bv4, data: Word)
    ensures var once := Store(r, words, addr, mask, data);
      WordAt(Store(r, once, addr, mask, data), r.Index(addr)) == WordAt(once, r.Index(addr))
  {
  }

  // ---- The request that is being served -------------------------------------------------------------

  /** The port holds what the CPU asks for. */
  predicate Latched(p: Port, q: Request) {
    && q.rd != q.wr && p.mar == q.addr && p.mask == q.mask && p.isWr == q.wr && (q.wr ==> p.mdr == q.data)
  }

  /** The memory has carried out the request of the port: a write is in its word, the word of a
      read is at the output. */
  predicate CarriedOut(r: Range, b: Bus) {
    var p := b.port;
    && b.served
    && (if p.isWr then
          WordAt(Store(r, b.words, p.mar, p.mask, p.mdr), r.Index(p.mar)) == WordAt(b.words, r.Index(p.mar))
        else b.out == Join(WordAt(b.words, r.Index(p.mar))))
  }

  /** What holds between two edges while the CPU shows `q`. */
  predicate Serving(r: Range, b: Bus, q: Request) {
    var p := b.port;
    match p.state
    case WaitingReq => !p.busReq && !p.done && !p.timeout
    case WaitingBus => p.busReq && !p.done && !p.timeout && Latched(p, q)
    case WaitingAck =>
      && p.busReq && !p.done && !p.timeout && Latched(p, q) && b.owner.CpuOwns?
      && (r.Hit(p.mar) ==> CarriedOut(r, b))
    case Answered => !p.busReq && p.done != p.timeout
  }

  /** A CPU that reads or writes, not both, and keeps asking until it is answered. */
  predicate KeepsAsking(b: Bus, q: Request, q': Request) {
    && !(q.rd && q.wr)
    && (match b.port.state
        case WaitingReq => q.Up() ==> q' == q
        case WaitingBus => q' == q
        case WaitingAck => q' == q
        case Answered => true)
  }

  lemma GrantedLines(b: Bus, d: Dma)
    requires Granted(b, d)
    ensures LinesOf(b, d) == Lines(b.port.mar, !b.port.isWr, b.port.isWr, b.port.mask)
  {
  }

  /** With the CPU granted, an edge carries out its request on the memory. */
  lemma GrantCarriesOut(r: Range, allowed: nat, b: Bus, q: Request, d: Dma, s: Slave)
    requires Granted(b, d) && Latched(b.port, q) && r.Hit(b.port.mar)
    ensures var n := NextBus(r, allowed, b, q, d, s);
      && n.served
      && n.words == (if q.wr then Store(r, b.words, b.port.mar, b.port.mask, b.port.mdr) else b.words)
      && n.out == Join(WordAt(b.words, r.Index(b.port.mar)))
  {
    GrantedLines(b, d);
  }

  lemma GrantKeepsServing(r: Range, allowed: nat, b: Bus, q: Request, d: Dma, s: Slave)
    requires Serving(r, b, q) && b.port.state.WaitingBus?
    ensures Serving(r, NextBus(r, allowed, b, q, d, s), q)
  {
    var p := b.port;
    if Granted(b, d) && r.Hit(p.mar) {
      GrantCarriesOut(r, allowed, b, q, d, s);
      StoreTwice(r, b.words, p.mar, p.mask, p.mdr);
    }
  }

  /** A request for the memory is answered, at the latest, at the edge after its grant. */
  lemma AckAnswers(r: Range, allowed: nat, b: Bus, q: Request, d: Dma, s: Slave)
    requires Serving(r, b, q) && b.port.state.WaitingAck?
    ensures var n := NextBus(r, allowed, b, q, d, s);
      && (n.port.state.Answered? || (n.port == b.port && n.owner.CpuOwns? && !r.Hit(b.port.mar)))
      && (n.port.state.Answered? ==> !n.port.busReq && n.port.done != n.port.timeout)
      && (n.port.state.Answered? ==> (n.port.timeout <==> b.dog.state.Notifying?))
      && (q.wr ==> n.port.mdr == q.data)
  {
    GrantedLines(b, d);
  }

  /** What a slave sees of a granted request, of the CPU and of the DMA. */
  lemma SlaveSees(r: Range, b: Bus, q: Request, d: Dma, s: Slave)
    requires b.port.busReq ==> Latched(b.port, q)
    ensures Granted(b, d) ==> LinesOf(b, d) == Lines(q.addr, q.rd, q.wr, q.mask)
    ensures Granted(b, d) && q.wr ==> DataBus(r, b, q, d, s) == q.data
    ensures DmaGranted(b, d) ==> LinesOf(b, d) == d.lines
    ensures DmaGranted(b, d) && d.lines.wr && !d.lines.rd ==> DataBus(r, b, q, d, s) == d.data
  {
    GrantsExclude(b, d);
    if Granted(b, d) {
      GrantedLines(b, d);
    }
  }

  /** A request outside the memory ends at the edge at which its slave acknowledges it or the watchdog
      notifies, and in done exactly when the watchdog does not; a read then holds the data of the slave. */
  lemma SlaveAnswers(r: Range, allowed: nat, b: Bus, q: Request, d: Dma, s: Slave)
    requires Serving(r, b, q) && b.port.state.WaitingAck? && !r.Hit(b.port.mar)
    ensures var p, n := b.port, NextBus(r, allowed, b, q, d, s).port;
      if s.fc || b.dog.state.Notifying? then
        && n.state.Answered? && (n.timeout <==> b.dog.state.Notifying?) && (n.done <==> !b.dog.state.Notifying?)
        && (n.done && q.rd ==> n.mdr == s.data) && (q.wr ==> n.mdr == q.data)
      else n == p
  {
    GrantedLines(b, d);
  }

  /** The watchdog stops counting exactly when the access of either master is answered: by the memory, or by
      another slave. */
  lemma AnswerStopsCount(r: Range, allowed: nat, b: Bus, q: Request, d: Dma, s: Slave)
    requires b.dog.state.Counting?
    ensures var l, n := LinesOf(b, d), NextBus(r, allowed, b, q, d, s).dog;
      var byMemory, bySlave := r.Hit(l.addr) && l.rd != l.wr && b.served, !(r.Hit(l.addr) && l.rd != l.wr) && s.fc;
      n == Watchdog(DogIdle, 0) <==> (Granted(b, d) || DmaGranted(b, d)) && (byMemory || bySlave)
  {
  }

  /** The watchdog, at the edge that grants the CPU the RAM, is about to report: it already reports the
      access that the DMA gave up, or has just counted that access to its limit. */
  predicate Leaking(allowed: nat, b: Bus) {
    b.dog.state.Notifying? || (b.dog.state.Counting? && !b.served && b.dog.counter == allowed)
  }

  lemma GrantWatched(r: Range, allowed: nat, b: Bus, q: Request, d: Dma, s: Slave)
    requires Serving(r, b, q) && b.port.state.WaitingBus? && r.Hit(b.port.mar) && Granted(b, d)
    ensures var n := NextBus(r, allowed, b, q, d, s);
      n.port == b.port.(state := WaitingAck) && (n.dog.state.Notifying? <==> Leaking(allowed, b))
  {
    GrantedLines(b, d);
  }

  /** An access to the RAM is answered two edges after its grant, by a timeout exactly when the watchdog
      was leaking at the grant. Answered by done or by timeout, it has been carried out. */
  lemma TimeoutLeaksIff(r: Range, allowed: nat, b: Bus, q: Request, d: Dma, s: Slave, d': Dma, s': Slave)
    requires Serving(r, b, q) && b.port.state.WaitingBus? && r.Hit(b.port.mar) && Granted(b, d)
    ensures var n := NextBus(r, allowed, b, q, d, s);
      var e := NextBus(r, allowed, n, q, d', s');
      && e.port.state.Answered? && e.port.done != e.port.timeout
      && (e.port.timeout <==> Leaking(allowed, b))
      && n.words == (if q.wr then Store(r, b.words, b.port.mar, b.port.mask, b.port.mdr) else b.words)
      && n.out == Join(WordAt(b.words, r.Index(b.port.mar)))
      && (forall a :: ByteAt(r, e.words, a) == ByteAt(r, n.words, a))
  {
    var n := NextBus(r, allowed, b, q, d, s);
    GrantWatched(r, allowed, b, q, d, s);
    GrantCarriesOut(r, allowed, b, q, d, s);
    GrantKeepsServing(r, allowed, b, q, d, s);
    GrantsStay(r, allowed, b, q, d, s, d');
    AckAnswers(r, allowed, n, q, d', s');
    GrantCarriesOut(r, allowed, n, q, d', s');
    if q.wr {
      forall a ensures ByteAt(r, NextBus(r, allowed, n, q, d', s').words, a) == ByteAt(r, n.words, a) {
        RewriteKeepsBytes(r, n.words, n.port.mar, n.port.mask, n.port.mdr, a);
      }
    }
  }

  /** Under any DMA pattern the invariant of the request being served is kept. */
  lemma ServingKept(r: Range, allowed: nat, b: Bus, q: Request, d: Dma, s: Slave, q': Request)
    requires Serving(r, b, q) && KeepsAsking(b, q, q')
    ensures Serving(r, NextBus(r, allowed, b, q, d, s), q')
  {
    match b.port.state {
      case WaitingReq =>
      case WaitingBus => GrantKeepsServing(r, allowed, b, q, d, s);
      case WaitingAck => AckAnswers(r, allowed, b, q, d, s);
      case Answered =>
    }
  }

  // ---- What the memory bytes are after an edge --------------------------------------------------------

  /** The edge at which the store of the CPU takes effect: it has just got the bus. */
  predicate CpuStores(r: Range, b: Bus, d: Dma) {
    Granted(b, d) && b.port.state.WaitingBus? && b.port.isWr && r.Hit(b.port.mar)
  }

  predicate DmaStores(r: Range, b: Bus, d: Dma) {
    DmaGranted(b, d) && d.lines.wr && !d.lines.rd && r.Hit(d.lines.addr)
  }

  /** Both masters only store within a word. */
  predicate InWords(b: Bus, d: Dma) {
    && (b.port.isWr ==> !CpuUnits.Overflow(Offset(b.port.mar), b.port.mask))
    && (d.lines.wr ==> !CpuUnits.Overflow(Offset(d.lines.addr), d.lines.mask))
  }

  lemma RewriteKeepsBytes(r: Range, words: Words, addr: Word, mask: bv4, data: Word, a: Word)
    requires WordAt(Store(r, words, addr, mask, data), r.Index(addr)) == WordAt(words, r.Index(addr))
    ensures ByteAt(r, Store(r, words, addr, mask, data), a) == ByteAt(r, words, a)
  {
    if r.Index(a) != r.Index(addr) {
      WordKept(words, MaskUp(mask, Offset(addr)), r.Index(addr), LanesUp(data, Offset(addr)), r.Index(a));
    }
  }

  lemma DmaEdge(r: Range, allowed: nat, b: Bus, q: Request, d: Dma, s: Slave)
    requires DmaGranted(b, d)
    ensures NextBus(r, allowed, b, q, d, s).words
            == if DmaStores(r, b, d) then Store(r, b.words, d.lines.addr, d.lines.mask, d.data) else b.words
  {
  }

  /** Every edge changes the memory bytes as one atomic store, or not at all: that of the CPU when it
      gets the bus, that of the DMA when it drives one. The second write of the handshake, at the
      edge that acknowledges, changes nothing. */
  lemma MemoryIsAtomic(r: Range, allowed: nat, b: Bus, q: Request, d: Dma, s: Slave, a: Word)
    requires r.Aligned() && Serving(r, b, q) && InWords(b, d)
    ensures var was, now := ByteAt(r, b.words, a), ByteAt(r, NextBus(r, allowed, b, q, d, s).words, a);
      now == if CpuStores(r, b, d) then StoredByte(was, b.port.mar, b.port.mask, b.port.mdr, a)
             else if DmaStores(r, b, d) then StoredByte(was, d.lines.addr, d.lines.mask, d.data, a)
             else was
  {
    var p := b.port;
    if Granted(b, d) {
      GrantsExclude(b, d);
      if r.Hit(p.mar) {
        GrantCarriesOut(r, allowed, b, q, d, s);
        if p.isWr {
          if p.state.WaitingBus? {
            StoreIsExact(r, b.words, p.mar, p.mask, p.mdr, a);
          } else {
            RewriteKeepsBytes(r, b.words, p.mar, p.mask, p.mdr, a);
          }
        }
      } else {
        GrantedLines(b, d);
      }
    } else if DmaGranted(b, d) {
      DmaEdge(r, allowed, b, q, d, s);
      if DmaStores(r, b, d) {
        StoreIsExact(r, b.words, d.lines.addr, d.lines.mask, d.data, a);
      }
    }
  }

  lemma NextLane(a: Word, k: bv2)
    requires (a & 3) + k as bv32 < 4
    ensures (a + k as bv32) >> 2 == a >> 2 && Offset(a + k as bv32) == Offset(a) + k
  {
  }

  lemma ByteAbove(r: Range, words: Words, a: Word, k: bv2)
    requires r.Aligned() && (a & 3) + k as bv32 < 4
    ensures ByteAt(r, words, a + k as bv32) == Lane(WordAt(words, r.Index(a)), Offset(a) + k)
  {
    NextLane(a, k);
    SharesWord(r, a + k as bv32, a);
  }

  lemma AnswerShowsWord(r: Range, allowed: nat, b: Bus, q: Request, d: Dma, s: Slave)
    requires Serving(r, b, q) && b.port.state.WaitingAck? && !b.port.isWr && r.Hit(b.port.mar)
    requires NextBus(r, allowed, b, q, d, s).port.done
    ensures NextBus(r, allowed, b, q, d, s).port.mdr
            == LanesDown(Join(WordAt(b.words, r.Index(b.port.mar))), Offset(b.port.mar))
  {
    GrantedLines(b, d);
  }

  lemma OffsetFits(a: Word, k: bv2)
    requires (a & 3) + k as bv32 < 4
    ensures Offset(a) as bv32 + k as bv32 < 4
  {
  }

  lemma WordShowsBytes(r: Range, words: Words, a: Word, k: bv2)
    requires r.Aligned() && (a & 3) + k as bv32 < 4
    ensures DataByte(LanesDown(Join(WordAt(words, r.Index(a))), Offset(a)), k as bv32)
            == ByteAt(r, words, a + k as bv32)
  {
    ByteAbove(r, words, a, k);
    OffsetFits(a, k);
    LaneRead(WordAt(words, r.Index(a)), Offset(a), k);
  }

  /** A read that is answered returns the bytes addressed. */
  lemma ReadReturnsBytes(r: Range, allowed: nat, b: Bus, q: Request, d: Dma, s: Slave, k: bv2)
    requires r.Aligned() && Serving(r, b, q) && b.port.state.WaitingAck? && !b.port.isWr && r.Hit(b.port.mar)
    requires NextBus(r, allowed, b, q, d, s).port.done && (b.port.mar & 3) + k as bv32 < 4
    ensures DataByte(NextBus(r, allowed, b, q, d, s).port.mdr, k as bv32) == ByteAt(r, b.words, b.port.mar + k as bv32)
  {
    AnswerShowsWord(r, allowed, b, q, d, s);
    WordShowsBytes(r, b.words, b.port.mar, k);
  }

  // ---- One answer per request ------------------------------------------------------------------------

  datatype Edge = Edge(q: Request, d: Dma, s: Slave)

  function After(r: Range, allowed: nat, b: Bus, es: seq<Edge>): Bus
    decreases es
  {
    if es == [] then b else After(r, allowed, NextBus(r, allowed, b, es[0].q, es[0].d, es[0].s), es[1..])
  }

  predicate Pending(b: Bus) { b.port.state.WaitingBus? || b.port.state.WaitingAck? }

  function Requests(r: Range, allowed: nat, b: Bus, es: seq<Edge>): nat
    decreases es
  {
    if es == [] then 0
    else
      (if b.port.state.WaitingReq? && es[0].q.Up() then 1 else 0)
      + Requests(r, allowed, NextBus(r, allowed, b, es[0].q, es[0].d, es[0].s), es[1..])
  }

  /** Edges at which done or timeout rises. */
  function Answers(r: Range, allowed: nat, b: Bus, es: seq<Edge>): nat
    decreases es
  {
    if es == [] then 0
    else
      var n := NextBus(r, allowed, b, es[0].q, es[0].d, es[0].s);
      (if !b.port.state.Answered? && (n.port.done || n.port.timeout) then 1 else 0) + Answers(r, allowed, n, es[1..])
  }

  ghost predicate Protocol(r: Range, allowed: nat, b: Bus, es: seq<Edge>)
    decreases es
  {
    |es| > 1 ==>
      && KeepsAsking(b, es[0].q, es[1].q)
      && Protocol(r, allowed, NextBus(r, allowed, b, es[0].q, es[0].d, es[0].s), es[1..])
  }

  lemma PortEdge(r: Range, allowed: nat, b: Bus, e: Edge)
    requires Serving(r, b, e.q)
    ensures var n := NextBus(r, allowed, b, e.q, e.d, e.s);
      (if b.port.state.WaitingReq? && e.q.Up() then 1 else 0) + (if Pending(b) then 1 else 0)
      == (if !b.port.state.Answered? && (n.port.done || n.port.timeout) then 1 else 0) + (if Pending(n) then 1 else 0)
  {
  }

  /** Over any run each request gets one answer, done or timeout, unless it is still pending. */
  lemma {:induction false} EachRequestIsAnsweredOnce(r: Range, allowed: nat, b: Bus, es: seq<Edge>)
    requires es != [] ==> Serving(r, b, es[0].q)
    requires Protocol(r, allowed, b, es)
    ensures Requests(r, allowed, b, es) + (if Pending(b) then 1 else 0)
            == Answers(r, allowed, b, es) + (if Pending(After(r, allowed, b, es)) then 1 else 0)
    decreases es
  {
    if es != [] {
      PortEdge(r, allowed, b, es[0]);
      if |es| > 1 {
        ServingKept(r, allowed, b, es[0].q, es[0].d, es[0].s, es[1].q);
      }
      EachRequestIsAnsweredOnce(r, allowed, NextBus(r, allowed, b, es[0].q, es[0].d, es[0].s), es[1..]);
    }
  }
}
