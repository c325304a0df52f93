/** The clocked machines on the system bus: the bus interface of the CPU, the arbitrator between CPU
    and DMA, the memory bus interface, the RAM and the watchdog. One `Next...` is one clock edge. */
module BusParts {
  import opened Isa

  // ---- CPU/BusInterface.v ---------------------------------------------------------------------

  datatype PortState = WaitingReq | WaitingBus | WaitingAck | Answered

  datatype Port = Port(
    state: PortState, busReq: bool, mar: Word, mdr: Word, mask: bv4, isWr: bool, done: bool, timeout: bool)

  /** What the CPU shows to its bus interface. */
  datatype Request = Request(rd: bool, wr: bool, addr: Word, data: Word, mask: bv4) {
    predicate Up() { rd || wr }
  }

  function NextPort(p: Port, q: Request, grant: bool, dataBus: Word, fc: bool, watchdog: bool): Port {
    match p.state
    case WaitingReq =>
      if q.Up() then
        p.(state := WaitingBus, busReq := true, mar := q.addr, mask := q.mask,
           mdr := if q.wr then q.data else p.mdr, isWr := q.wr)
      else p
    case WaitingBus => if grant then p.(state := WaitingAck) else p
    case WaitingAck =>
      if watchdog then p.(state := Answered, timeout := true, busReq := false)
      else if fc then
        p.(state := Answered, done := true, busReq := false, mdr := if p.isWr then p.mdr else dataBus)
      else p
    case Answered => if q.Up() then p else p.(state := WaitingReq, done := false, timeout := false)
  }

  // ---- Bus/Arbitrator.sv ------------------------------------------------------------------------

  datatype Owner = Nobody | CpuOwns | DmaOwns

  predicate CpuGrant(o: Owner, cpuReq: bool, dmaReq: bool) { cpuReq && (!dmaReq || !o.DmaOwns?) }

  predicate DmaGrant(o: Owner, cpuReq: bool, dmaReq: bool) { dmaReq && (!cpuReq || o.DmaOwns?) }

  function NextOwner(o: Owner, cpuReq: bool, dmaReq: bool): Owner {
    match o
    case Nobody => if cpuReq then CpuOwns else if dmaReq then DmaOwns else Nobody
    case CpuOwns => if cpuReq then CpuOwns else if dmaReq then DmaOwns else Nobody
    case DmaOwns => if dmaReq then DmaOwns else if cpuReq then CpuOwns else Nobody
  }

  // ---- Memory/BusInterface.sv ---------------------------------------------------------------------

  function WordIndex(a: Word, start: Word): Word { (a - start) >> 2 }

  predicate Below(x: Word, y: Word) { x < y }

  /** The address range of a memory, in bytes; it starts at a word. */
  datatype Range = Range(start: Word, size: Word) {
    predicate Aligned() { start & 3 == 0 }

    predicate Hit(a: Word) { !Below(a, start) && Below(a, Plus(start, size)) }

    /** mem_addr; on a hit it fits the address port of the memory. */
    function Index(a: Word): Word { WordIndex(a, start) }
  }

  /** What the bus master drives. */
  datatype Lines = Lines(addr: Word, rd: bool, wr: bool, mask: bv4)

  predicate MemReq(r: Range, l: Lines) { r.Hit(l.addr) && l.rd != l.wr }

  function Offset(a: Word): bv2 { (a & 3) as bv2 }

  function LanesUp(d: Word, off: bv2): Word {
    if off == 0 then d else if off == 1 then d << 8 else if off == 2 then d << 16 else d << 24
  }

  function LanesDown(d: Word, off: bv2): Word {
    if off == 0 then d else if off == 1 then d >> 8 else if off == 2 then d >> 16 else d >> 24
  }

  function MaskUp(m: bv4, off: bv2): bv4 {
    if off == 0 then m else if off == 1 then m << 1 else if off == 2 then m << 2 else m << 3
  }

  /** The handshake state: STATE_DONE or not. */
  function NextServed(served: bool, req: bool): bool {
    if served then req else req
  }

  // ---- Memory/RAM.sv ------------------------------------------------------------------------------

  datatype Quad = Quad(b0: bv8, b1: bv8, b2: bv8, b3: bv8)

  function Join(q: Quad): Word { Pack4(q.b0, q.b1, q.b2, q.b3) }

  function Lane(q: Quad, k: bv2): bv8 {
    if k == 0 then q.b0 else if k == 1 then q.b1 else if k == 2 then q.b2 else q.b3
  }

  function WriteLanes(q: Quad, mask: bv4, d: Word): Quad {
    Quad(if mask & 1 != 0 then (d & 0xFF) as bv8 else q.b0,
         if mask & 2 != 0 then ((d >> 8) & 0xFF) as bv8 else q.b1,
         if mask & 4 != 0 then ((d >> 16) & 0xFF) as bv8 else q.b2,
         if mask & 8 != 0 then ((d >> 24) & 0xFF) as bv8 else q.b3)
  }

  type Words = map<Cell, Quad>

  function WordAt(words: Words, i: Word): Quad {
    if At(i) in words then words[At(i)] else Quad(0, 0, 0, 0)
  }

  /** The write port; `data_out` takes the word from before the write. */
  function NextWords(words: Words, wr: bool, mask: bv4, i: Word, d: Word): Words {
    if wr then words[At(i) := WriteLanes(WordAt(words, i), mask, d)] else words
  }

  // ---- Bus/Watchdog.v -----------------------------------------------------------------------------

  datatype DogState = DogIdle | Counting | Notifying

  datatype Watchdog = Watchdog(state: DogState, counter: nat)

  function Pow2(k: nat): (p: nat)
    ensures p > 0
  {
    if k == 0 then 1 else 2 * Pow2(k - 1)
  }

  /** $clog2: the least k with n <= 2^k. */
  function Clog2(n: nat): nat {
    ClogFrom(n, 0)
  }

  function ClogFrom(n: nat, k: nat): (r: nat)
    ensures n <= Pow2(r) && k <= r && (r > k ==> Pow2(r - 1) < n)
    decreases if n <= Pow2(k) then 0 else n - Pow2(k)
  {
    if n <= Pow2(k) then k else ClogFrom(n, k + 1)
  }

  /** The counter register has $clog2(ALLOWED_CYCLES) bits. */
  function NextDog(w: Watchdog, allowed: nat, rd: bool, wr: bool, fc: bool): Watchdog {
    match w.state
    case DogIdle => if rd || wr then w.(state := Counting) else w
    case Counting =>
      if fc then Watchdog(DogIdle, 0)
      else if w.counter == allowed then w.(state := Notifying)
      else w.(counter := (w.counter + 1) % Pow2(Clog2(allowed)))
    case Notifying => if !rd && !wr then Watchdog(DogIdle, 1 % Pow2(Clog2(allowed))) else w
  }

  // ---- The bus --------------------------------------------------------------------------------------

  datatype Bus = Bus(port: Port, owner: Owner, served: bool, words: Words, out: Word, dog: Watchdog)

  /** The second master, which may do anything at any time. */
  datatype Dma = Dma(req: bool, lines: Lines, data: Word)

  /** What the other slaves answer. */
  datatype Slave = Slave(fc: bool, data: Word)

  predicate Granted(b: Bus, d: Dma) { CpuGrant(b.owner, b.port.busReq, d.req) }

  predicate DmaGranted(b: Bus, d: Dma) { DmaGrant(b.owner, b.port.busReq, d.req) }

  function LinesOf(b: Bus, d: Dma): Lines {
    if Granted(b, d) then Lines(b.port.mar, !b.port.isWr, b.port.isWr, b.port.mask)
    else if DmaGranted(b, d) then d.lines
    else Lines(0, false, false, 0)
  }

  function FcBus(r: Range, b: Bus, d: Dma, s: Slave): bool {
    if MemReq(r, LinesOf(b, d)) then b.served else (Granted(b, d) || DmaGranted(b, d)) && s.fc
  }

  function DataBus(r: Range, b: Bus, q: Request, d: Dma, s: Slave): Word {
    var l := LinesOf(b, d);
    if MemReq(r, l) && l.rd then LanesDown(b.out, Offset(l.addr))
    else if Granted(b, d) && q.wr then b.port.mdr
    else if DmaGranted(b, d) && l.wr then d.data
    else s.data
  }

  /** One clock edge of all machines on the bus. */
  function NextBus(r: Range, allowed: nat, b: Bus, q: Request, d: Dma, s: Slave): Bus {
    var l, data, fc := LinesOf(b, d), DataBus(r, b, q, d, s), FcBus(r, b, d, s);
    Bus(NextPort(b.port, q, Granted(b, d), data, fc, b.dog.state.Notifying?),
        NextOwner(b.owner, b.port.busReq, d.req),
        NextServed(b.served, MemReq(r, l)),
        NextWords(b.words, MemReq(r, l) && l.wr, MaskUp(l.mask, Offset(l.addr)), r.Index(l.addr),
                  LanesUp(data, Offset(l.addr))),
        Join(WordAt(b.words, r.Index(l.addr))),
        NextDog(b.dog, allowed, l.rd, l.wr, fc))
  }
}
