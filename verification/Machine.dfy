/** The CPU on its bus with a RAM, whatever the DMA does: every clock edge of the wired-up machines is a step
    of the instruction set over byte memory, and of the DMA on that memory. */
module Machine {
  import opened Isa
  import CpuUnits
  import opened Cpu
  import R = CpuRefinement
  import opened BusParts
  import A = BusAccess
  import L = BusLiveness
  import N = Addresses

  datatype Computer = Computer(cpu: Cpu, bus: Bus)

  function RequestOf(c: Cpu): Request {
    Request(c.rdReq, c.wrReq, MaAddr(c), Src2(c), MaMask(c))
  }

  /** The interrupt lines, the DMA, and the other slaves: these may answer the DMA, never the CPU. */
  datatype Outside = Outside(timer: bool, ext: bool, dma: Dma, answers: bool, noise: Word)

  function InOf(b: Bus, o: Outside): In {
    In(b.port.mdr, b.port.done, b.port.timeout, o.timer, o.ext)
  }

  function SlaveOf(b: Bus, o: Outside): Slave {
    Slave(o.answers && !Granted(b, o.dma), o.noise)
  }

  function Clock(r: Range, allowed: nat, m: Computer, o: Outside): Computer {
    Computer(Next(m.cpu, InOf(m.bus, o)), NextBus(r, allowed, m.bus, RequestOf(m.cpu), o.dma, SlaveOf(m.bus, o)))
  }

  // ---- Bytes of the RAM and bytes of the instruction set ---------------------------------------------

  /** The RAM and the instruction set's memory agree on every byte. */
  ghost predicate SameBytes(r: Range, words: Words, mem: Memory) {
    forall a: Word :: A.ByteAt(r, words, a) == ReadByte(mem, a)
  }

  function MaskOf(w: Width): bv4 {
    match w
    case Byte => 1
    case Half => 3
    case Full => 15
  }

  lemma ThereMinusHere(addr: Word, k: Word)
    ensures Minus(addr + k, addr) == k
  {
  }

  lemma HerePlusDistance(a: Word, addr: Word)
    ensures Plus(addr, a - addr) == a
  {
  }

  lemma Ahead(addr: Word, k: Word)
    ensures Minus(Plus(addr, k), addr) == k
  {
    ThereMinusHere(addr, k);
    assert Plus(addr, k) == addr + k;
  }

  lemma Behind(a: Word, addr: Word)
    ensures Plus(addr, Minus(a, addr)) == a
  {
    HerePlusDistance(a, addr);
    assert Minus(a, addr) == a - addr;
  }

  lemma Neighbours(a: Word, addr: Word, k: Word)
    ensures a == Plus(addr, k) <==> Minus(a, addr) == k
  {
    Ahead(addr, k);
    Behind(a, addr);
  }

  lemma PutByte(mem: Memory, x: Word, b: bv8, a: Word)
    ensures ReadByte(mem[At(x) := b], a) == if a == x then b else ReadByte(mem, a)
  {
  }

  lemma PutBytes(mem: Memory, x0: Word, b0: bv8, x1: Word, b1: bv8, x2: Word, b2: bv8, x3: Word, b3: bv8, a: Word)
    ensures ReadByte(mem[At(x0) := b0], a) == if a == x0 then b0 else ReadByte(mem, a)
    ensures ReadByte(mem[At(x0) := b0][At(x1) := b1], a)
            == if a == x1 then b1 else if a == x0 then b0 else ReadByte(mem, a)
    ensures ReadByte(mem[At(x0) := b0][At(x1) := b1][At(x2) := b2][At(x3) := b3], a)
            == if a == x3 then b3 else if a == x2 then b2 else if a == x1 then b1 else if a == x0 then b0
               else ReadByte(mem, a)
  {
    var m0 := mem[At(x0) := b0];
    var m1 := m0[At(x1) := b1];
    var m2 := m1[At(x2) := b2];
    PutByte(mem, x0, b0, a);
    PutByte(m0, x1, b1, a);
    PutByte(m1, x2, b2, a);
    PutByte(m2, x3, b3, a);
  }

  lemma WrittenByte(mem: Memory, addr: Word, w: Width, v: Word, a: Word)
    ensures ReadByte(WriteBytes(mem, addr, w, v), a)
            == match w
               case Byte => if a == addr then A.DataByte(v, 0) else ReadByte(mem, a)
               case Half =>
                 if a == Plus(addr, 1) then A.DataByte(v, 1) else if a == addr then A.DataByte(v, 0)
                 else ReadByte(mem, a)
               case Full =>
                 if a == Plus(addr, 3) then A.DataByte(v, 3) else if a == Plus(addr, 2) then A.DataByte(v, 2)
                 else if a == Plus(addr, 1) then A.DataByte(v, 1) else if a == addr then A.DataByte(v, 0)
                 else ReadByte(mem, a)
  {
    PutBytes(mem, addr, A.DataByte(v, 0), Plus(addr, 1), A.DataByte(v, 1), Plus(addr, 2), A.DataByte(v, 2),
             Plus(addr, 3), A.DataByte(v, 3), a);
  }

  lemma ZeroAway(addr: Word)
    ensures Plus(addr, 0) == addr
  {
  }

  /** The instruction set's store and the store seen through the mask write the same bytes. */
  lemma StoresAgree(mem: Memory, addr: Word, w: Width, v: Word, a: Word)
    ensures ReadByte(WriteBytes(mem, addr, w, v), a) == A.StoredByte(ReadByte(mem, a), addr, MaskOf(w), v, a)
  {
    WrittenByte(mem, addr, w, v, a);
    ZeroAway(addr);
    Neighbours(a, addr, 0);
    Neighbours(a, addr, 1);
    Neighbours(a, addr, 2);
    Neighbours(a, addr, 3);
  }

  lemma StoreKeepsSame(r: Range, words: Words, mem: Memory, addr: Word, w: Width, v: Word)
    requires r.Aligned() && SameBytes(r, words, mem) && !CpuUnits.Overflow(Offset(addr), MaskOf(w))
    ensures SameBytes(r, A.Store(r, words, addr, MaskOf(w), v), WriteBytes(mem, addr, w, v))
  {
    forall a: Word
      ensures A.ByteAt(r, A.Store(r, words, addr, MaskOf(w), v), a) == ReadByte(WriteBytes(mem, addr, w, v), a)
    {
      A.StoreIsExact(r, words, addr, MaskOf(w), v, a);
      StoresAgree(mem, addr, w, v, a);
    }
  }
  lemma LowByte(data: Word)
    ensures CpuUnits.LowBytes(Byte, data) == A.DataByte(data, 0) as bv32
  {
  }

  lemma LowHalf(data: Word)
    ensures CpuUnits.LowBytes(Half, data) == Pack2(A.DataByte(data, 0), A.DataByte(data, 1))
  {
  }

  lemma WholeWord(data: Word)
    ensures CpuUnits.LowBytes(Full, data)
            == Pack4(A.DataByte(data, 0), A.DataByte(data, 1), A.DataByte(data, 2), A.DataByte(data, 3))
  {
  }

  /** What the RAM's output shows, shifted down, at the `k`th byte. */
  lemma ShownByte(r: Range, words: Words, mem: Memory, addr: Word, k: bv2)
    requires r.Aligned() && SameBytes(r, words, mem) && (addr & 3) + k as bv32 < 4
    ensures A.DataByte(LanesDown(Join(WordAt(words, r.Index(addr))), Offset(addr)), k as bv32)
            == ReadByte(mem, Plus(addr, k as bv32))
  {
    A.WordShowsBytes(r, words, addr, k);
    assert Plus(addr, k as bv32) == addr + k as bv32;
  }

  lemma WithinWord(addr: Word, w: Width)
    requires !CpuUnits.Overflow(Offset(addr), MaskOf(w))
    ensures (addr & 3) + 0 < 4
    ensures !w.Byte? ==> (addr & 3) + 1 < 4
    ensures w.Full? ==> (addr & 3) + 2 < 4 && (addr & 3) + 3 < 4
  {
  }

  lemma ReadsAgree(r: Range, words: Words, mem: Memory, addr: Word, w: Width, data: Word)
    requires r.Aligned() && SameBytes(r, words, mem) && !CpuUnits.Overflow(Offset(addr), MaskOf(w))
    requires data == LanesDown(Join(WordAt(words, r.Index(addr))), Offset(addr))
    ensures CpuUnits.LowBytes(w, data) == ReadBytes(mem, addr, w)
  {
    WithinWord(addr, w);
    ZeroAway(addr);
    ShownByte(r, words, mem, addr, 0);
    match w {
      case Byte => LowByte(data);
      case Half =>
        ShownByte(r, words, mem, addr, 1);
        LowHalf(data);
      case Full =>
        ShownByte(r, words, mem, addr, 1);
        ShownByte(r, words, mem, addr, 2);
        ShownByte(r, words, mem, addr, 3);
        WholeWord(data);
    }
  }
  // ---- Stores of the DMA -----------------------------------------------------------------------------

  /** `data` written at `addr` under `mask`, byte by byte. */
  function WriteMasked(mem: Memory, addr: Word, mask: bv4, data: Word): Memory {
    var m0 := if mask & 1 != 0 then mem[At(addr) := A.DataByte(data, 0)] else mem;
    var m1 := if mask & 2 != 0 then m0[At(Plus(addr, 1)) := A.DataByte(data, 1)] else m0;
    var m2 := if mask & 4 != 0 then m1[At(Plus(addr, 2)) := A.DataByte(data, 2)] else m1;
    if mask & 8 != 0 then m2[At(Plus(addr, 3)) := A.DataByte(data, 3)] else m2
  }

  function BaseOf(a: Word): Word { a & !3 }

  /** What a store of the DMA makes of the memory: it writes the lanes of one word, whatever its mask. */
  function DmaWrite(mem: Memory, addr: Word, mask: bv4, data: Word): Memory {
    WriteMasked(mem, BaseOf(addr), MaskUp(mask, Offset(addr)), LanesUp(data, Offset(addr)))
  }

  lemma PutIf(mem: Memory, c: bool, x: Word, b: bv8, a: Word)
    ensures ReadByte(if c then mem[At(x) := b] else mem, a) == if c && a == x then b else ReadByte(mem, a)
  {
    PutByte(mem, x, b, a);
  }

  lemma MaskedBytes(mem: Memory, addr: Word, mask: bv4, data: Word, a: Word)
    ensures ReadByte(WriteMasked(mem, addr, mask, data), a)
            == if mask & 8 != 0 && a == Plus(addr, 3) then A.DataByte(data, 3)
               else if mask & 4 != 0 && a == Plus(addr, 2) then A.DataByte(data, 2)
               else if mask & 2 != 0 && a == Plus(addr, 1) then A.DataByte(data, 1)
               else if mask & 1 != 0 && a == addr then A.DataByte(data, 0)
               else ReadByte(mem, a)
  {
    hide A.DataByte, Plus;
    var m0 := if mask & 1 != 0 then mem[At(addr) := A.DataByte(data, 0)] else mem;
    var m1 := if mask & 2 != 0 then m0[At(Plus(addr, 1)) := A.DataByte(data, 1)] else m0;
    var m2 := if mask & 4 != 0 then m1[At(Plus(addr, 2)) := A.DataByte(data, 2)] else m1;
    PutIf(mem, mask & 1 != 0, addr, A.DataByte(data, 0), a);
    PutIf(m0, mask & 2 != 0, Plus(addr, 1), A.DataByte(data, 1), a);
    PutIf(m1, mask & 4 != 0, Plus(addr, 2), A.DataByte(data, 2), a);
    PutIf(m2, mask & 8 != 0, Plus(addr, 3), A.DataByte(data, 3), a);
  }

  lemma MaskedStore(mem: Memory, addr: Word, mask: bv4, data: Word, a: Word)
    ensures ReadByte(WriteMasked(mem, addr, mask, data), a) == A.StoredByte(ReadByte(mem, a), addr, mask, data, a)
  {
    hide WriteMasked, Plus, Minus, A.DataByte;
    MaskedBytes(mem, addr, mask, data, a);
    ZeroAway(addr);
    Neighbours(a, addr, 0);
    Neighbours(a, addr, 1);
    Neighbours(a, addr, 2);
    Neighbours(a, addr, 3);
  }

  lemma BaseIsWord(a: Word)
    ensures Offset(BaseOf(a)) == 0 && BaseOf(a) >> 2 == a >> 2
  {
  }

  lemma LanesFit(mask: bv4)
    ensures !CpuUnits.Overflow(0, mask)
  {
  }

  /** The store of the DMA and the store of its lanes at the start of the word write the same word. */
  lemma StoreAtBase(r: Range, words: Words, addr: Word, mask: bv4, data: Word)
    requires r.Aligned()
    ensures A.Store(r, words, addr, mask, data)
            == A.Store(r, words, BaseOf(addr), MaskUp(mask, Offset(addr)), LanesUp(data, Offset(addr)))
  {
    BaseIsWord(addr);
    A.SharesWord(r, BaseOf(addr), addr);
  }

  lemma DmaWriteKeepsSame(r: Range, words: Words, mem: Memory, addr: Word, mask: bv4, data: Word)
    requires r.Aligned() && SameBytes(r, words, mem)
    ensures SameBytes(r, A.Store(r, words, addr, mask, data), DmaWrite(mem, addr, mask, data))
  {
    hide WriteMasked, A.Store, A.StoredByte, A.ByteAt, ReadByte;
    var base, up, lanes := BaseOf(addr), MaskUp(mask, Offset(addr)), LanesUp(data, Offset(addr));
    StoreAtBase(r, words, addr, mask, data);
    BaseIsWord(addr);
    LanesFit(up);
    forall a: Word
      ensures A.ByteAt(r, A.Store(r, words, addr, mask, data), a) == ReadByte(DmaWrite(mem, addr, mask, data), a)
    {
      A.StoreIsExact(r, words, base, up, lanes, a);
      MaskedStore(mem, base, up, lanes, a);
    }
  }

  lemma OneLane(was: bv8, addr: Word, mask: bv4, data: Word, a: Word)
    requires a >> 2 == addr >> 2 && !CpuUnits.Overflow(Offset(addr), mask)
    ensures A.StoredByte(was, addr, mask, data, a)
            == Lane(WriteLanes(Quad(was, was, was, was), MaskUp(mask, Offset(addr)), LanesUp(data, Offset(addr))),
                    Offset(a))
  {
    hide A.StoredByte, Lane, WriteLanes, MaskUp, LanesUp, Offset, Minus, CpuUnits.Overflow;
    A.OffsetsApart(a, addr);
    A.LaneStored(Quad(was, was, was, was), mask, data, addr, a);
    SameLanes(was, a);
  }

  lemma NoShift(mask: bv4, data: Word)
    ensures MaskUp(mask, 0) == mask && LanesUp(data, 0) == data
  {
  }

  /** A store of the DMA that stays in its word writes the bytes under its mask at its address. */
  lemma DmaWriteIsExact(mem: Memory, addr: Word, mask: bv4, data: Word, a: Word)
    requires !CpuUnits.Overflow(Offset(addr), mask)
    ensures ReadByte(DmaWrite(mem, addr, mask, data), a) == A.StoredByte(ReadByte(mem, a), addr, mask, data, a)
  {
    hide WriteMasked, A.StoredByte, ReadByte, WriteLanes, Lane, CpuUnits.Overflow, MaskUp, LanesUp, Offset, BaseOf;
    var base, up, lanes, was := BaseOf(addr), MaskUp(mask, Offset(addr)), LanesUp(data, Offset(addr)), ReadByte(mem, a);
    BaseIsWord(addr);
    LanesFit(up);
    MaskedStore(mem, base, up, lanes, a);
    if a >> 2 == addr >> 2 {
      OneLane(was, addr, mask, data, a);
      OneLane(was, base, up, lanes, a);
      NoShift(up, lanes);
    } else {
      Unreached(was, addr, mask, data, a);
      Unreached(was, base, up, lanes, a);
    }
  }

  lemma SameLanes(b: bv8, a: Word)
    ensures Lane(Quad(b, b, b, b), Offset(a)) == b
  {
  }

  lemma Unreached(was: bv8, addr: Word, mask: bv4, data: Word, a: Word)
    requires a >> 2 != addr >> 2 && !CpuUnits.Overflow(Offset(addr), mask)
    ensures A.StoredByte(was, addr, mask, data, a) == was
  {
    A.OutOfReach(a, addr, mask);
  }

  // ---- The CPU as the master -----------------------------------------------------------------------------

  predicate Asking(c: Cpu) { c.rdReq || c.wrReq }

  lemma FetchWaits(c: Cpu, w: Wires, in_: In)
    requires c.state.RdInstWait? && !c.hasException && !in_.done && !in_.timeout
    ensures NextWith(c, w, in_) == c.(csr := NextCsr(c, w.kind, in_))
  {
  }

  /** A CPU that is not answered goes on showing the same request. */
  lemma AsksOn(c: Cpu, i: Instr, w: Wires, in_: In)
    requires R.Flags(c, i) && Asking(c) && !in_.done && !in_.timeout
    ensures RequestOf(NextWith(c, w, in_)) == RequestOf(c) && NextWith(c, w, in_).state == c.state
  {
    if c.state.RdInstWait? {
      FetchWaits(c, w, in_);
    } else {
      R.AccessWaits(c, w, in_);
    }
  }

  /** A CPU that is answered drops its request. */
  lemma AsksNoMore(c: Cpu, i: Instr, i': Instr, w: Wires, in_: In)
    requires R.Flags(c, i) && Asking(c) && in_.done != in_.timeout && R.Flags(NextWith(c, w, in_), i')
    ensures var n := NextWith(c, w, in_); !Asking(n) && (n.state.DecodeInst? || n.state.CheckExc?)
  {
    if c.state.RdInstWait? {
    } else {
      R.MemoryLeaves(c, w, in_);
    }
  }

  /** It asks again two edges later at the earliest. */
  lemma PausesBetween(c: Cpu, i': Instr, w: Wires, in_: In)
    requires (c.state.DecodeInst? || c.state.CheckExc?) && R.Flags(NextWith(c, w, in_), i')
    ensures !Asking(NextWith(c, w, in_))
  {
    if c.state.DecodeInst? {
      R.DecodeNext(c, w, in_);
    }
  }

  lemma MaskKnown(f3: bv3)
    ensures MaskOf(R.WidthOf(CpuUnits.DataMask(f3))) == CpuUnits.DataMask(f3)
  {
  }

  /** What the CPU asks for lies within a word. */
  lemma AsksWithinWord(c: Cpu, i: Instr)
    requires R.Flags(c, i) && R.Decoded(c, i) && Legal(i) && Asking(c)
    ensures !CpuUnits.Overflow(Offset(MaAddr(c)), MaMask(c)) && MaskOf(R.WidthOf(MaMask(c))) == MaMask(c)
  {
    if c.state.RdInstWait? {
      R.FetchAligned(c.pc);
    } else {
      R.AccessShown(c, i, CpuUnits.KindOf(c.ir));
      MaskKnown(F3(c.f));
    }
  }
  // ---- Bus and CPU together ------------------------------------------------------------------------------

  /** The bytes the RAM holds, as the instruction set sees them: a store of the CPU is in the RAM from its
      grant on, while its instruction is completed when it is acknowledged. */
  function Visible(r: Range, b: Bus, q: Request, mem: Memory): Memory {
    var p := b.port;
    if q.wr && r.Hit(p.mar) && (p.state.WaitingAck? || p.state.Answered?)
    then WriteBytes(mem, p.mar, R.WidthOf(p.mask), p.mdr)
    else mem
  }

  /** The answer the port shows is right for the request. */
  ghost predicate AnswerFits(r: Range, b: Bus, q: Request) {
    var p := b.port;
    && A.Latched(p, q) && (p.done <==> r.Hit(p.mar))
    && (!p.isWr && p.done ==> p.mdr == LanesDown(Join(WordAt(b.words, r.Index(p.mar))), Offset(p.mar)))
  }

  predicate Framed(q: Request) {
    && !(q.rd && q.wr)
    && (q.Up() ==> !CpuUnits.Overflow(Offset(q.addr), q.mask) && MaskOf(R.WidthOf(q.mask)) == q.mask)
  }

  ghost predicate Joined(r: Range, allowed: nat, b: Bus, q: Request, resting: bool, mem: Memory) {
    && Framed(q) && A.Serving(r, b, q) && L.DogOk(b.dog, allowed)
    && SameBytes(r, b.words, Visible(r, b, q, mem))
    && (b.port.state.WaitingAck? && b.dog.state.Notifying? ==> !r.Hit(b.port.mar))
    && (b.port.state.Answered? ==> if q.Up() then AnswerFits(r, b, q) else resting)
  }

  /** The memory once the CPU has seen the answer. */
  function Taken(b: Bus, q: Request, mem: Memory): Memory {
    if q.wr && b.port.done then WriteBytes(mem, q.addr, R.WidthOf(q.mask), q.data) else mem
  }

  /** The memory once the DMA has stored, if it does. */
  function Disturbed(r: Range, b: Bus, d: Dma, mem: Memory): Memory {
    if A.DmaStores(r, b, d) then DmaWrite(mem, d.lines.addr, d.lines.mask, d.data) else mem
  }

  /** The watchdog is not about to report, at a grant of the CPU, what the DMA gave up. */
  predicate NoLeak(r: Range, allowed: nat, b: Bus, d: Dma) {
    Granted(b, d) && b.port.state.WaitingBus? && r.Hit(b.port.mar) ==> !A.Leaking(allowed, b)
  }

  lemma DogStaysOk(r: Range, allowed: nat, b: Bus, q: Request, d: Dma, s: Slave)
    requires L.DogOk(b.dog, allowed) && allowed >= 2 && L.Holds(allowed)
    ensures L.DogOk(NextBus(r, allowed, b, q, d, s).dog, allowed)
  {
    L.DogEdge(b.dog, allowed, LinesOf(b, d).rd, LinesOf(b, d).wr, FcBus(r, b, d, s));
  }

  lemma IdleWords(r: Range, allowed: nat, b: Bus, q: Request, d: Dma, s: Slave)
    requires !Granted(b, d) && !DmaGranted(b, d)
    ensures NextBus(r, allowed, b, q, d, s).words == b.words
  {
  }

  /** Without a grant for the CPU only the DMA changes the memory. */
  lemma DmaKeepsSame(r: Range, allowed: nat, b: Bus, q: Request, d: Dma, s: Slave, mem: Memory)
    requires r.Aligned() && SameBytes(r, b.words, mem) && !Granted(b, d)
    ensures SameBytes(r, NextBus(r, allowed, b, q, d, s).words, Disturbed(r, b, d, mem))
  {
    hide NextBus, SameBytes, DmaWrite, A.Store;
    if DmaGranted(b, d) {
      A.DmaEdge(r, allowed, b, q, d, s);
      DmaWriteKeepsSame(r, b.words, mem, d.lines.addr, d.lines.mask, d.data);
    } else {
      IdleWords(r, allowed, b, q, d, s);
    }
  }

  /** A CPU without a request on the bus, or without the grant, has no store pending in the RAM. */
  lemma NothingPending(r: Range, allowed: nat, b: Bus, q: Request, d: Dma, rest: bool, mem: Memory)
    requires Joined(r, allowed, b, q, rest, mem) && !Granted(b, d)
    ensures !b.port.state.WaitingAck? && Visible(r, b, q, mem) == Taken(b, q, mem)
  {
    hide SameBytes, WriteBytes, WordAt;
  }

  /** The port after an edge at which the CPU is not granted. */
  lemma UngrantedPort(r: Range, allowed: nat, b: Bus, q: Request, d: Dma, s: Slave)
    requires !Granted(b, d) && !b.port.state.WaitingAck?
    ensures var n := NextBus(r, allowed, b, q, d, s).port;
      n == match b.port.state
           case WaitingReq => NextPort(b.port, q, false, 0, false, false)
           case WaitingBus => b.port
           case _ => if q.Up() then b.port else b.port.(state := WaitingReq, done := false, timeout := false)
  {
  }

  lemma JoinedUngranted(r: Range, allowed: nat, b: Bus, q: Request, d: Dma, s: Slave, q': Request, rest: bool,
                        rest': bool, mem: Memory)
    requires r.Aligned() && allowed >= 2 && L.Holds(allowed) && Joined(r, allowed, b, q, rest, mem) && Framed(q')
    requires if b.port.state.Answered? then !q'.Up() && (q.Up() ==> rest') else q.Up() ==> q' == q
    requires !Granted(b, d)
    ensures Joined(r, allowed, NextBus(r, allowed, b, q, d, s), q', rest', Disturbed(r, b, d, Taken(b, q, mem)))
  {
    hide SameBytes, NextBus, Disturbed, WriteBytes, WordAt;
    NothingPending(r, allowed, b, q, d, rest, mem);
    DmaKeepsSame(r, allowed, b, q, d, s, Taken(b, q, mem));
    DogStaysOk(r, allowed, b, q, d, s);
    UngrantedPort(r, allowed, b, q, d, s);
    A.ServingKept(r, allowed, b, q, d, s, q');
  }

  lemma JoinedGrant(r: Range, allowed: nat, b: Bus, q: Request, d: Dma, s: Slave, rest: bool, rest': bool, mem: Memory)
    requires Joined(r, allowed, b, q, rest, mem) && b.port.state.WaitingBus? && Granted(b, d)
    requires r.Aligned() && allowed >= 2 && L.Holds(allowed) && NoLeak(r, allowed, b, d)
    ensures Joined(r, allowed, NextBus(r, allowed, b, q, d, s), q, rest', mem)
  {
    var n, p := NextBus(r, allowed, b, q, d, s), b.port;
    A.ServingKept(r, allowed, b, q, d, s, q);
    DogStaysOk(r, allowed, b, q, d, s);
    if r.Hit(p.mar) {
      A.GrantCarriesOut(r, allowed, b, q, d, s);
      A.GrantWatched(r, allowed, b, q, d, s);
      if q.wr {
        StoreKeepsSame(r, b.words, mem, p.mar, R.WidthOf(p.mask), p.mdr);
      }
    }
    assert n.port == p.(state := WaitingAck);
  }

  lemma SameAfterRewrite(r: Range, words: Words, mem: Memory, addr: Word, mask: bv4, data: Word)
    requires SameBytes(r, words, mem)
    requires WordAt(A.Store(r, words, addr, mask, data), r.Index(addr)) == WordAt(words, r.Index(addr))
    ensures SameBytes(r, A.Store(r, words, addr, mask, data), mem)
  {
    forall a: Word ensures A.ByteAt(r, A.Store(r, words, addr, mask, data), a) == ReadByte(mem, a) {
      A.RewriteKeepsBytes(r, words, addr, mask, data, a);
    }
  }

  lemma JoinedAckHit(r: Range, allowed: nat, b: Bus, q: Request, d: Dma, s: Slave, rest: bool, rest': bool, mem: Memory)
    requires Joined(r, allowed, b, q, rest, mem) && b.port.state.WaitingAck? && r.Hit(b.port.mar)
    requires r.Aligned() && allowed >= 2 && L.Holds(allowed)
    ensures Joined(r, allowed, NextBus(r, allowed, b, q, d, s), q, rest', mem)
  {
    var n, p := NextBus(r, allowed, b, q, d, s), b.port;
    A.GrantCarriesOut(r, allowed, b, q, d, s);
    A.AckAnswers(r, allowed, b, q, d, s);
    DogStaysOk(r, allowed, b, q, d, s);
    if q.wr {
      SameAfterRewrite(r, b.words, Visible(r, b, q, mem), p.mar, p.mask, p.mdr);
    } else {
      A.AnswerShowsWord(r, allowed, b, q, d, s);
    }
  }

  lemma JoinedAckMiss(r: Range, allowed: nat, b: Bus, q: Request, d: Dma, s: Slave, rest: bool, rest': bool,
                      mem: Memory)
    requires Joined(r, allowed, b, q, rest, mem) && b.port.state.WaitingAck? && !r.Hit(b.port.mar) && !s.fc
    requires r.Aligned() && allowed >= 2 && L.Holds(allowed)
    ensures Joined(r, allowed, NextBus(r, allowed, b, q, d, s), q, rest', mem)
  {
    A.AckAnswers(r, allowed, b, q, d, s);
    DogStaysOk(r, allowed, b, q, d, s);
  }

  predicate Resting(c: Cpu) { c.state.DecodeInst? || c.state.CheckExc? }

  /** What is being executed was fetched from the RAM. */
  predicate Resident(r: Range, c: Cpu) {
    c.state.DecodeInst? || R.Executing(c) ==> r.Hit(c.pc)
  }

  /** What holds between any two edges of the whole machine, for the memory `mem` that the
      instruction set sees. */
  ghost predicate Coupled(r: Range, allowed: nat, m: Computer, i: Instr, mem: Memory) {
    && R.Inv(R.Sys(m.cpu, mem), i) && Resident(r, m.cpu)
    && Joined(r, allowed, m.bus, RequestOf(m.cpu), Resting(m.cpu), mem)
  }

  /** The bus answers the CPU as the instruction set's memory would. */
  lemma BusAnswers(r: Range, allowed: nat, b: Bus, c: Cpu, mem: Memory, o: Outside)
    requires r.Aligned() && Joined(r, allowed, b, RequestOf(c), Resting(c), mem)
    ensures R.Answers(R.Sys(c, mem), InOf(b, o))
    ensures R.NextMemory(R.Sys(c, mem), InOf(b, o)) == Taken(b, RequestOf(c), mem)
  {
    var q := RequestOf(c);
    if b.port.done && c.rdReq {
      ReadsAgree(r, b.words, mem, b.port.mar, R.WidthOf(b.port.mask), b.port.mdr);
    }
  }

  /** An access to the RAM is never answered by a timeout, and one outside it always is. */
  lemma OnlyMissesTimeOut(r: Range, allowed: nat, b: Bus, c: Cpu, mem: Memory)
    requires Joined(r, allowed, b, RequestOf(c), Resting(c), mem) && Asking(c) && (b.port.done || b.port.timeout)
    ensures b.port.timeout <==> !r.Hit(MaAddr(c))
  {
  }

  /** In numbers: exactly the accesses that leave the `size` addresses from the start on time out. */
  lemma OnlyOutsideTimesOut(r: Range, allowed: nat, b: Bus, c: Cpu, mem: Memory)
    requires Joined(r, allowed, b, RequestOf(c), Resting(c), mem) && Asking(c) && (b.port.done || b.port.timeout)
    requires N.Fits(r)
    ensures var a, start := N.Number(MaAddr(c)), N.Number(r.start);
      b.port.timeout <==> !(start <= a < start + N.Number(r.size))
  {
    hide N.Number, Joined, Range.Hit;
    OnlyMissesTimeOut(r, allowed, b, c, mem);
    N.HitIffInside(r, MaAddr(c));
  }

  lemma GrantedAlone(r: Range, b: Bus, q: Request, d: Dma, mem: Memory)
    requires A.Serving(r, b, q) && Granted(b, d)
    ensures Disturbed(r, b, d, Taken(b, q, mem)) == mem && (b.port.state.WaitingBus? || b.port.state.WaitingAck?)
  {
    A.GrantsExclude(b, d);
  }

  /** The memory side of one edge of the machine. */
  lemma JoinedEdge(r: Range, allowed: nat, b: Bus, q: Request, d: Dma, s: Slave, q': Request, rest: bool, rest': bool,
                   mem: Memory)
    requires r.Aligned() && allowed >= 2 && L.Holds(allowed) && Joined(r, allowed, b, q, rest, mem) && Framed(q')
    requires if b.port.state.Answered? then !q'.Up() && (q.Up() ==> rest') else q.Up() ==> q' == q
    requires NoLeak(r, allowed, b, d) && (Granted(b, d) ==> !s.fc)
    ensures Joined(r, allowed, NextBus(r, allowed, b, q, d, s), q', rest', Disturbed(r, b, d, Taken(b, q, mem)))
  {
    hide SameBytes, NextBus, Disturbed, DmaGranted;
    if !Granted(b, d) {
      JoinedUngranted(r, allowed, b, q, d, s, q', rest, rest', mem);
    } else {
      GrantedAlone(r, b, q, d, mem);
      if b.port.state.WaitingBus? {
        JoinedGrant(r, allowed, b, q, d, s, rest, rest', mem);
      } else if r.Hit(b.port.mar) {
        JoinedAckHit(r, allowed, b, q, d, s, rest, rest', mem);
      } else {
        JoinedAckMiss(r, allowed, b, q, d, s, rest, rest', mem);
      }
    }
  }

  lemma FramedRequest(c: Cpu, i: Instr)
    requires R.Flags(c, i) && R.Decoded(c, i) && Legal(i)
    ensures Framed(RequestOf(c))
  {
    if Asking(c) {
      AsksWithinWord(c, i);
    }
  }

  /** The CPU side of one edge of the machine. */
  lemma MasterEdge(r: Range, allowed: nat, b: Bus, c: Cpu, i: Instr, i': Instr, w: Wires, o: Outside, mem: Memory)
    requires Joined(r, allowed, b, RequestOf(c), Resting(c), mem) && R.Flags(c, i)
    requires R.Flags(NextWith(c, w, InOf(b, o)), i')
    ensures var n := NextWith(c, w, InOf(b, o));
      if b.port.state.Answered? then !RequestOf(n).Up() && (RequestOf(c).Up() ==> Resting(n))
      else RequestOf(c).Up() ==> RequestOf(n) == RequestOf(c) && n.state == c.state
  {
    if b.port.state.Answered? {
      if Asking(c) {
        AsksNoMore(c, i, i', w, InOf(b, o));
      } else {
        PausesBetween(c, i', w, InOf(b, o));
      }
    } else if Asking(c) {
      AsksOn(c, i, w, InOf(b, o));
    }
  }

  lemma ResidentEdge(r: Range, allowed: nat, b: Bus, c: Cpu, i: Instr, w: Wires, o: Outside, mem: Memory)
    requires Joined(r, allowed, b, RequestOf(c), Resting(c), mem) && R.Flags(c, i) && Resident(r, c)
    ensures Resident(r, NextWith(c, w, InOf(b, o)))
  {
    hide NextWith, Joined;
    R.EdgeKeeps(c, i, w, InOf(b, o));
    if R.FetchEnds(c, InOf(b, o)) {
      FetchedFromRam(r, allowed, b, c, mem);
    }
  }

  lemma FetchedFromRam(r: Range, allowed: nat, b: Bus, c: Cpu, mem: Memory)
    requires Joined(r, allowed, b, RequestOf(c), Resting(c), mem) && c.state.RdInstWait? && c.rdReq && b.port.done
    ensures r.Hit(c.pc)
  {
    OnlyMissesTimeOut(r, allowed, b, c, mem);
  }
  // ---- One edge of the machine ---------------------------------------------------------------------------

  /** The DMA leaves the instruction that is being executed as it was fetched. */
  predicate KeepsInstruction(r: Range, b: Bus, d: Dma, n: Computer) {
    A.DmaStores(r, b, d) && (n.cpu.state.DecodeInst? || R.Executing(n.cpu)) ==>
      WordAt(n.bus.words, r.Index(n.cpu.pc)) == WordAt(b.words, r.Index(n.cpu.pc))
  }

  /** What the machine asks of the DMA: not to leave an access that the watchdog is about to report when the CPU
      is granted the RAM, and not to overwrite the instruction that is being executed. */
  predicate Polite(r: Range, allowed: nat, m: Computer, o: Outside) {
    NoLeak(r, allowed, m.bus, o.dma) && KeepsInstruction(r, m.bus, o.dma, Clock(r, allowed, m, o))
  }

  /** The memory that the instruction set sees after the edge. */
  function NextMem(r: Range, m: Computer, o: Outside, mem: Memory): Memory {
    Disturbed(r, m.bus, o.dma, R.NextMemory(R.Sys(m.cpu, mem), InOf(m.bus, o)))
  }

  lemma ByteStays(r: Range, words: Words, words': Words, mem: Memory, mem': Memory, a: Word, k: bv2)
    requires r.Aligned() && SameBytes(r, words, mem) && SameBytes(r, words', mem') && (a & 3) + k as bv32 < 4
    requires WordAt(words', r.Index(a)) == WordAt(words, r.Index(a))
    ensures ReadByte(mem', Plus(a, k as bv32)) == ReadByte(mem, Plus(a, k as bv32))
  {
    A.ByteAbove(r, words, a, k);
    A.ByteAbove(r, words', a, k);
    assert Plus(a, k as bv32) == a + k as bv32;
  }

  lemma WordStays(r: Range, words: Words, words': Words, mem: Memory, mem': Memory, a: Word)
    requires r.Aligned() && SameBytes(r, words, mem) && SameBytes(r, words', mem') && !Crosses(a, Full)
    requires WordAt(words', r.Index(a)) == WordAt(words, r.Index(a))
    ensures ReadBytes(mem', a, Full) == ReadBytes(mem, a, Full)
  {
    hide SameBytes, WordAt, ReadByte, Pack4;
    WholeFits(a);
    ZeroAway(a);
    ByteStays(r, words, words', mem, mem', a, 0);
    ByteStays(r, words, words', mem, mem', a, 1);
    ByteStays(r, words, words', mem, mem', a, 2);
    ByteStays(r, words, words', mem, mem', a, 3);
  }

  lemma WholeFits(a: Word)
    requires !Crosses(a, Full)
    ensures a & 3 == 0
  {
  }

  /** The instruction register still holds the word at pc after a store of the DMA. */
  lemma FetchedStays(r: Range, allowed: nat, m: Computer, o: Outside, mem: Memory, word: Word)
    requires r.Aligned() && Joined(r, allowed, m.bus, RequestOf(m.cpu), Resting(m.cpu), mem)
    requires Polite(r, allowed, m, o)
    requires R.Fetched(Clock(r, allowed, m, o).cpu, R.NextMemory(R.Sys(m.cpu, mem), InOf(m.bus, o)), word)
    ensures R.Fetched(Clock(r, allowed, m, o).cpu, NextMem(r, m, o, mem), word)
  {
    hide Joined, Next, NextBus, WordAt, DmaWrite, ReadBytes;
    var b, q, d, n := m.bus, RequestOf(m.cpu), o.dma, Clock(r, allowed, m, o);
    if A.DmaStores(r, b, d) && (n.cpu.state.DecodeInst? || R.Executing(n.cpu)) {
      A.GrantsExclude(b, d);
      BusAnswers(r, allowed, b, m.cpu, mem, o);
      JoinedSame(r, allowed, b, q, Resting(m.cpu), mem);
      NothingPending(r, allowed, b, q, d, Resting(m.cpu), mem);
      DmaKeepsSame(r, allowed, b, q, d, SlaveOf(b, o), Taken(b, q, mem));
      WordStays(r, b.words, n.bus.words, Taken(b, q, mem), NextMem(r, m, o, mem), n.cpu.pc);
    }
  }

  lemma JoinedSame(r: Range, allowed: nat, b: Bus, q: Request, rest: bool, mem: Memory)
    requires Joined(r, allowed, b, q, rest, mem)
    ensures SameBytes(r, b.words, Visible(r, b, q, mem))
  {
  }

  lemma InvOver(c: Cpu, mem: Memory, mem': Memory, i: Instr)
    requires R.Inv(R.Sys(c, mem), i) && R.Fetched(c, mem', Encode(i))
    ensures R.Inv(R.Sys(c, mem'), i)
  {
  }

  /** One edge of the whole machine: the invariant is kept, the CPU makes its step, and the memory takes the
      store of the CPU, that of the DMA, or both in this order. */
  lemma ClockRefines(r: Range, allowed: nat, m: Computer, o: Outside, i: Instr, i': Instr, mem: Memory)
    requires r.Aligned() && allowed >= 2 && L.Holds(allowed) && Coupled(r, allowed, m, i, mem)
    requires Polite(r, allowed, m, o) && R.Follows(R.Sys(m.cpu, mem), InOf(m.bus, o), i, i')
    ensures var s, in_ := R.Sys(m.cpu, mem), InOf(m.bus, o);
      && R.Answers(s, in_) && R.Step(s, in_).cpu == Clock(r, allowed, m, o).cpu
      && Coupled(r, allowed, Clock(r, allowed, m, o), i', NextMem(r, m, o, mem))
  {
    hide Joined, NextBus, NextWith, Disturbed, R.Fetched, R.Flags, R.Decoded, Granted, KeepsInstruction;
    var s, in_ := R.Sys(m.cpu, mem), InOf(m.bus, o);
    var n := Clock(r, allowed, m, o);
    BusAnswers(r, allowed, m.bus, m.cpu, mem, o);
    R.EdgeInv(s, in_, i, i');
    FetchedStays(r, allowed, m, o, mem, Encode(i'));
    InvOver(n.cpu, R.NextMemory(s, in_), NextMem(r, m, o, mem), i');
    FramedRequest(n.cpu, i');
    ResidentEdge(r, allowed, m.bus, m.cpu, i, WiresOf(m.cpu, in_), o, mem);
    MasterEdge(r, allowed, m.bus, m.cpu, i, i', WiresOf(m.cpu, in_), o, mem);
    JoinedEdge(r, allowed, m.bus, RequestOf(m.cpu), o.dma, SlaveOf(m.bus, o), RequestOf(n.cpu), Resting(m.cpu),
               Resting(n.cpu), mem);
  }

  lemma ClockContinues(r: Range, allowed: nat, m: Computer, o: Outside, i: Instr, mem: Memory)
    requires r.Aligned() && allowed >= 2 && L.Holds(allowed) && Coupled(r, allowed, m, i, mem)
    requires Polite(r, allowed, m, o)
    requires R.FetchEnds(m.cpu, InOf(m.bus, o)) ==> R.Supported(R.Abs(R.Sys(m.cpu, mem)))
    ensures var s, in_ := R.Sys(m.cpu, mem), InOf(m.bus, o);
      && R.Answers(s, in_) && R.Step(s, in_).cpu == Clock(r, allowed, m, o).cpu
      && Coupled(r, allowed, Clock(r, allowed, m, o), R.Fetching(s, in_, i), NextMem(r, m, o, mem))
  {
    hide Coupled, Next, NextBus, Polite, NextMem;
    var s, in_ := R.Sys(m.cpu, mem), InOf(m.bus, o);
    CoupledLegal(r, allowed, m, i, mem);
    R.FetchingFollows(s, in_, i);
    ClockRefines(r, allowed, m, o, i, R.Fetching(s, in_, i), mem);
  }

  lemma CoupledLegal(r: Range, allowed: nat, m: Computer, i: Instr, mem: Memory)
    requires Coupled(r, allowed, m, i, mem)
    ensures Legal(i) && R.Inv(R.Sys(m.cpu, mem), i)
  {
  }
}
