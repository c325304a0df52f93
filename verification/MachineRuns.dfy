/** Runs of the CPU on its bus: whatever the DMA does, every run is a run of the instruction set over byte
    memory on which the DMA stores; and the passes of the CPU keep ending. */
module MachineRuns {
  import opened Isa
  import CpuUnits
  import opened Cpu
  import R = CpuRefinement
  import opened BusParts
  import A = BusAccess
  import T = Interrupts
  import L = BusLiveness
  import opened Machine

  function MachineRun(r: Range, allowed: nat, m: Computer, os: seq<Outside>): Computer
    decreases os
  {
    if os == [] then m else MachineRun(r, allowed, Clock(r, allowed, m, os[0]), os[1..])
  }

  /** The memory that the instruction set sees after a run. */
  function MemoryAfter(r: Range, allowed: nat, m: Computer, os: seq<Outside>, mem: Memory): Memory
    decreases os
  {
    if os == [] then mem
    else MemoryAfter(r, allowed, Clock(r, allowed, m, os[0]), os[1..], NextMem(r, m, os[0], mem))
  }

  /** The architectural state after a run. */
  function ArchAfter(r: Range, allowed: nat, m: Computer, os: seq<Outside>, mem: Memory): Arch {
    R.Abs(R.Sys(MachineRun(r, allowed, m, os).cpu, MemoryAfter(r, allowed, m, os, mem)))
  }

  /** The DMA does not disturb the CPU at any edge. */
  predicate PoliteRun(r: Range, allowed: nat, m: Computer, os: seq<Outside>)
    decreases os
  {
    os == [] || (Polite(r, allowed, m, os[0]) && PoliteRun(r, allowed, Clock(r, allowed, m, os[0]), os[1..]))
  }

  /** Every word that is fetched encodes a supported instruction. */
  ghost predicate FetchesSupported(r: Range, allowed: nat, m: Computer, os: seq<Outside>, mem: Memory)
    decreases os
  {
    os == []
    || ((R.FetchEnds(m.cpu, InOf(m.bus, os[0])) ==> R.Supported(R.Abs(R.Sys(m.cpu, mem))))
        && FetchesSupported(r, allowed, Clock(r, allowed, m, os[0]), os[1..], NextMem(r, m, os[0], mem)))
  }

  /** The configuration of the machine: the RAM starts at a word, and the watchdog can count to its limit. */
  predicate Configured(r: Range, allowed: nat) { r.Aligned() && allowed >= 2 && L.Holds(allowed) }

  // ---- The events of a run ---------------------------------------------------------------------------------

  /** The RAM has the bytes that the instruction accesses, if it accesses any. */
  predicate Reaches(r: Range, a: Arch, i: Instr) {
    R.UsesMemory(i) && !Crosses(R.Address(a, i), i.width) ==> r.Hit(R.Address(a, i))
  }

  /** The event is the one that a machine with nothing but the RAM must have: a fault is that of a pc or
      an address outside the RAM, everything else was fetched from it and accesses it. */
  predicate Fits(r: Range, a: Arch, e: R.Event) {
    match e
    case FetchTrap(_) => Crosses(a.pc, Full) || !r.Hit(a.pc)
    case AccessFault(i) => r.Hit(a.pc) && !Reaches(r, a, i)
    case Retire(i) => r.Hit(a.pc) && Reaches(r, a, i)
    case Interrupted(i, _, _) => r.Hit(a.pc) && Reaches(r, a, i)
  }

  /** What a run does to the architectural state: a pass ends, or the DMA stores. */
  datatype Beat = Ends | Stores(addr: Word, mask: bv4, data: Word)

  function Beats(r: Range, allowed: nat, m: Computer, o: Outside): seq<Beat> {
    (if R.PassEnds(m.cpu, Clock(r, allowed, m, o).cpu) then [Ends] else [])
    + (if A.DmaStores(r, m.bus, o.dma) then [Stores(o.dma.lines.addr, o.dma.lines.mask, o.dma.data)] else [])
  }

  function Script(r: Range, allowed: nat, m: Computer, os: seq<Outside>): seq<Beat>
    decreases os
  {
    if os == [] then [] else Beats(r, allowed, m, os[0]) + Script(r, allowed, Clock(r, allowed, m, os[0]), os[1..])
  }

  function Passes(beats: seq<Beat>): nat
    decreases beats
  {
    if beats == [] then 0 else (if beats[0].Ends? then 1 else 0) + Passes(beats[1..])
  }

  /** The events that the passes of a run complete, when `i` is the instruction in the instruction register at
      first. */
  ghost function Events(r: Range, allowed: nat, m: Computer, os: seq<Outside>, i: Instr, mem: Memory): seq<R.Event>
    decreases os
  {
    if os == [] then []
    else
      var s, in_ := R.Sys(m.cpu, mem), InOf(m.bus, os[0]);
      R.Completes(m.cpu, WiresOf(m.cpu, in_), in_, i)
      + Events(r, allowed, Clock(r, allowed, m, os[0]), os[1..], R.Fetching(s, in_, i), NextMem(r, m, os[0], mem))
  }

  function Stored(a: Arch, beat: Beat): Arch
    requires beat.Stores?
  {
    a.(mem := DmaWrite(a.mem, beat.addr, beat.mask, beat.data))
  }

  /** A run of the instruction set with the RAM as the only memory, on which the DMA stores as well: one event
      for each pass that ends. */
  ghost predicate RamRuns(r: Range, a: Arch, beats: seq<Beat>, es: seq<R.Event>, a': Arch)
    decreases beats
  {
    if beats == [] then es == [] && a' == a
    else if beats[0].Stores? then RamRuns(r, Stored(a, beats[0]), beats[1..], es, a')
    else
      && es != [] && R.Possible(a, es[0]) && Fits(r, a, es[0])
      && RamRuns(r, R.IsaStep(a, es[0]), beats[1..], es[1..], a')
  }

  lemma {:induction false} OneEventForEachPass(r: Range, a: Arch, beats: seq<Beat>, es: seq<R.Event>, a': Arch)
    requires RamRuns(r, a, beats, es, a')
    ensures |es| == Passes(beats)
    decreases beats
  {
    hide R.Sensible, R.AtPc, Fits, R.IsaStep, Crosses, Stored;
    if beats != [] {
      if beats[0].Stores? {
        OneEventForEachPass(r, Stored(a, beats[0]), beats[1..], es, a');
      } else {
        OneEventForEachPass(r, R.IsaStep(a, es[0]), beats[1..], es[1..], a');
      }
    }
  }

  lemma FetchFits(r: Range, allowed: nat, b: Bus, c: Cpu, mem: Memory, o: Outside, i: Instr, w: Wires)
    requires Joined(r, allowed, b, RequestOf(c), Resting(c), mem) && R.Flags(c, i)
    requires c.state.RdInstReq? || c.state.RdInstWait?
    requires w.misaligned == AlignmentOverflow(c)
    ensures forall e :: e in R.Completes(c, w, InOf(b, o), i) ==> Fits(r, R.View(c, mem), e)
  {
    R.FetchAligned(c.pc);
    if c.state.RdInstWait? && b.port.timeout {
      OnlyMissesTimeOut(r, allowed, b, c, mem);
    }
  }

  lemma ExecFits(r: Range, c: Cpu, mem: Memory, in_: In, i: Instr, w: Wires)
    requires c.state.ExecInst? && CpuUnits.Delivers(i, w.kind, c.f) && Legal(i) && r.Hit(c.pc)
    requires w.misaligned == AlignmentOverflow(c)
    ensures forall e :: e in R.Completes(c, w, in_, i) ==> Fits(r, R.View(c, mem), e)
  {
    if R.UsesMemory(i) {
      R.AccessShown(c, i, w.kind);
    }
  }

  lemma AccessFits(r: Range, a: Arch, c: Cpu, in_: In, i: Instr, w: Wires)
    requires c.state.ExecInstMemWait? && R.UsesMemory(i) && r.Hit(a.pc) && R.Address(a, i) == MaAddr(c)
    requires !Crosses(MaAddr(c), i.width)
    requires in_.done || in_.timeout ==> in_.done != in_.timeout && (in_.timeout <==> !r.Hit(MaAddr(c)))
    ensures forall e :: e in R.Completes(c, w, in_, i) ==> Fits(r, a, e)
  {
    hide MaAddr, Crosses;
  }

  lemma AccessSeen(c: Cpu, mem: Memory, i: Instr)
    requires R.Flags(c, i) && c.state.ExecInstMemWait?
    ensures Asking(c) && R.UsesMemory(i) && !Crosses(MaAddr(c), i.width) && R.View(c, mem).pc == c.pc
    ensures R.Address(R.View(c, mem), i) == Plus(ReadReg(c.regs, i.rs1), SignExtend12(i.imm))
  {
  }

  lemma MemoryFits(r: Range, allowed: nat, b: Bus, c: Cpu, mem: Memory, o: Outside, i: Instr, w: Wires)
    requires Joined(r, allowed, b, RequestOf(c), Resting(c), mem) && R.Flags(c, i)
    requires c.state.ExecInstMemWait? && CpuUnits.Delivers(i, w.kind, c.f) && Legal(i) && r.Hit(c.pc)
    ensures forall e :: e in R.Completes(c, w, InOf(b, o), i) ==> Fits(r, R.View(c, mem), e)
  {
    hide R.Completes, R.Flags, R.View, R.Address, Joined, Fits, CpuUnits.Delivers, Crosses, MaAddr;
    AccessSeen(c, mem, i);
    R.AccessShown(c, i, w.kind);
    if b.port.done || b.port.timeout {
      OnlyMissesTimeOut(r, allowed, b, c, mem);
    }
    AnsweredOnce(r, allowed, b, RequestOf(c), Resting(c), mem);
    AccessFits(r, R.View(c, mem), c, InOf(b, o), i, w);
  }

  lemma AnsweredOnce(r: Range, allowed: nat, b: Bus, q: Request, rest: bool, mem: Memory)
    requires Joined(r, allowed, b, q, rest, mem)
    ensures !(b.port.done && b.port.timeout)
  {
  }

  /** What an edge of the machine completes fits the RAM. */
  lemma EdgeFits(r: Range, allowed: nat, m: Computer, o: Outside, i: Instr, mem: Memory)
    requires Coupled(r, allowed, m, i, mem)
    ensures var s, in_ := R.Sys(m.cpu, mem), InOf(m.bus, o);
      forall e :: e in R.Completes(m.cpu, WiresOf(m.cpu, in_), in_, i) ==> Fits(r, R.Abs(s), e)
  {
    hide Joined, WiresOf, Fits, R.Flags, R.View;
    var c, in_ := m.cpu, InOf(m.bus, o);
    var w := WiresOf(c, in_);
    R.WiresShown(R.Sys(c, mem), i, in_);
    match c.state {
      case RdInstReq => FetchFits(r, allowed, m.bus, c, mem, o, i, w);
      case RdInstWait => FetchFits(r, allowed, m.bus, c, mem, o, i, w);
      case DecodeInst =>
      case ExecInst => ExecFits(r, c, mem, in_, i, w);
      case ExecInstMemWait => MemoryFits(r, allowed, m.bus, c, mem, o, i, w);
      case CheckExc =>
    }
  }

  lemma Lingers(c: Cpu, i: Instr, w: Wires, in_: In)
    requires R.Flags(c, i) && Asking(c) && !in_.done && !in_.timeout
    ensures NextWith(c, w, in_) == c.(csr := NextCsr(c, w.kind, in_))
  {
    if c.state.RdInstWait? {
      FetchWaits(c, w, in_);
    } else {
      R.AccessWaits(c, w, in_);
    }
  }

  /** A CPU that waits, but for its CSRs. */
  predicate Likewise(n: Cpu, c: Cpu) { n == c.(csr := n.csr) }

  lemma LikeFlags(n: Cpu, c: Cpu, i: Instr)
    requires Likewise(n, c) && R.Flags(c, i) && c.csr.stvec & 3 != 1 && n.csr.stvec == c.csr.stvec
    ensures R.Flags(n, i)
  {
  }

  lemma LingersOn(c: Cpu, i: Instr, w: Wires, in_: In)
    requires R.Flags(c, i) && Asking(c) && !in_.done && !in_.timeout
    ensures var n := NextWith(c, w, in_); R.Flags(n, i) && Likewise(n, c) && RequestOf(n) == RequestOf(c)
  {
    hide NextWith, NextCsr;
    Lingers(c, i, w, in_);
    AsksOn(c, i, w, in_);
    R.CsrsKept(c, w.kind, in_);
    assert R.CsrsOf(NextCsr(c, w.kind, in_)).stvec == c.csr.stvec;
    LikeFlags(NextWith(c, w, in_), c, i);
  }

  /** A timeout at an address of the RAM is an event that fits no memory. */
  lemma RamTimeoutMisfits(r: Range, c: Cpu, mem: Memory, in_: In, i: Instr, w: Wires)
    requires R.Flags(c, i) && Legal(i) && R.Decoded(c, i) && Asking(c) && in_.timeout && r.Hit(MaAddr(c))
    ensures |R.Completes(c, w, in_, i)| == 1 && !Fits(r, R.View(c, mem), R.Completes(c, w, in_, i)[0])
  {
    if c.state.ExecInstMemWait? {
      AccessSeen(c, mem, i);
      R.AccessShown(c, i, CpuUnits.KindOf(c.ir));
    }
  }

  /** The machine asks no more than it must: if the watchdog leaks when the CPU is granted the RAM, then two edges
      later its instruction faults on an address that the RAM has, which no run on the RAM does. */
  lemma LeakMisfits(r: Range, allowed: nat, m: Computer, o: Outside, o': Outside, o'': Outside, i: Instr, mem: Memory)
    requires Coupled(r, allowed, m, i, mem) && !NoLeak(r, allowed, m.bus, o.dma)
    ensures var n := Clock(r, allowed, Clock(r, allowed, m, o), o');
      var es := R.Completes(n.cpu, WiresOf(n.cpu, InOf(n.bus, o'')), InOf(n.bus, o''), i);
      |es| == 1 && !Fits(r, R.View(n.cpu, mem), es[0])
  {
    hide NextBus, NextWith, Fits, R.Flags, R.Decoded, R.Fetched, R.View, R.Completes, WiresOf, SameBytes, Likewise;
    var q, c, b := RequestOf(m.cpu), m.cpu, m.bus;
    var n1 := Clock(r, allowed, m, o);
    var n2 := Clock(r, allowed, n1, o');
    A.TimeoutLeaksIff(r, allowed, b, q, o.dma, SlaveOf(b, o), o'.dma, SlaveOf(n1.bus, o'));
    A.GrantWatched(r, allowed, b, q, o.dma, SlaveOf(b, o));
    LingersOn(c, i, WiresOf(c, InOf(b, o)), InOf(b, o));
    LingersOn(n1.cpu, i, WiresOf(n1.cpu, InOf(n1.bus, o')), InOf(n1.bus, o'));
    LikeDecoded(n1.cpu, c, i);
    LikeDecoded(n2.cpu, n1.cpu, i);
    RamTimeoutMisfits(r, n2.cpu, mem, InOf(n2.bus, o''), i, WiresOf(n2.cpu, InOf(n2.bus, o'')));
  }

  lemma LikeDecoded(n: Cpu, c: Cpu, i: Instr)
    requires Likewise(n, c) && R.Decoded(c, i)
    ensures R.Decoded(n, i)
  {
  }

  lemma {:induction false} RamRunsJoin(
      r: Range, a: Arch, ps: seq<Beat>, es: seq<R.Event>, b: Arch, qs: seq<Beat>, fs: seq<R.Event>, c: Arch)
    requires RamRuns(r, a, ps, es, b) && RamRuns(r, b, qs, fs, c)
    ensures RamRuns(r, a, ps + qs, es + fs, c)
    decreases ps
  {
    hide R.Sensible, R.AtPc, Fits, R.IsaStep, Crosses, Stored;
    if ps == [] {
      assert ps + qs == qs && es + fs == fs;
    } else {
      assert (ps + qs)[1..] == ps[1..] + qs;
      if ps[0].Stores? {
        RamRunsJoin(r, Stored(a, ps[0]), ps[1..], es, b, qs, fs, c);
      } else {
        assert (es + fs)[1..] == es[1..] + fs;
        RamRunsJoin(r, R.IsaStep(a, es[0]), ps[1..], es[1..], b, qs, fs, c);
      }
    }
  }

  /** The memory takes no part in the view of the CPU. */
  lemma ViewOver(c: Cpu, mem: Memory, mem': Memory)
    ensures R.View(c, mem') == R.View(c, mem).(mem := mem') && R.View(c, mem).mem == mem
  {
  }

  lemma BeatsRun(r: Range, a: Arch, es: seq<R.Event>, b: Arch, stores: seq<Beat>, c: Arch)
    requires R.IsaRuns(a, es, b) && |es| <= 1 && forall e :: e in es ==> Fits(r, a, e)
    requires |stores| <= 1
    requires if stores == [] then c == b else stores[0].Stores? && c == Stored(b, stores[0])
    ensures RamRuns(r, a, (if es == [] then [] else [Ends]) + stores, es, c)
  {
    hide R.Possible, Fits, R.IsaStep, DmaWrite;
    assert RamRuns(r, b, stores, [], c) by {
      assert stores != [] ==> stores[1..] == [] && RamRuns(r, Stored(b, stores[0]), [], [], c);
    }
    if es == [] {
      assert [] + stores == stores;
    } else {
      assert es[0] in es && es[1..] == [] && ([Ends] + stores)[1..] == stores;
    }
  }

  /** What an edge does to the architectural state. */
  lemma EdgeBeats(r: Range, allowed: nat, m: Computer, o: Outside, i: Instr, mem: Memory, es: seq<R.Event>, a: Arch,
                  b: Arch)
    requires Configured(r, allowed) && Coupled(r, allowed, m, i, mem) && Polite(r, allowed, m, o)
    requires R.FetchEnds(m.cpu, InOf(m.bus, o)) ==> R.Supported(R.Abs(R.Sys(m.cpu, mem)))
    requires es == R.Completes(m.cpu, WiresOf(m.cpu, InOf(m.bus, o)), InOf(m.bus, o), i)
    requires a == R.Abs(R.Sys(m.cpu, mem)) && b == R.Abs(R.Sys(Clock(r, allowed, m, o).cpu, NextMem(r, m, o, mem)))
    ensures RamRuns(r, a, Beats(r, allowed, m, o), es, b)
  {
    hide Coupled, Clock, Polite, R.Step, R.Answers, R.Supported, R.View, R.Completes, R.Inv, R.IsaRuns, R.Fetching,
         R.PassEnds, Fits, RamRuns, A.DmaStores, R.NextMemory, DmaWrite;
    var s, in_, n := R.Sys(m.cpu, mem), InOf(m.bus, o), Clock(r, allowed, m, o);
    var t := R.Step(s, in_);
    ClockContinues(r, allowed, m, o, i, mem);
    CoupledLegal(r, allowed, m, i, mem);
    R.EdgeRuns(s, in_, i, t, a, R.Abs(t), es);
    EdgeFits(r, allowed, m, o, i, mem);
    StepMemory(s, in_);
    ViewOver(n.cpu, t.mem, NextMem(r, m, o, mem));
    BeatsRun(r, a, es, R.Abs(t),
             if A.DmaStores(r, m.bus, o.dma) then [Stores(o.dma.lines.addr, o.dma.lines.mask, o.dma.data)] else [], b);
  }

  lemma StepMemory(s: R.Sys, in_: In)
    ensures R.Step(s, in_).mem == R.NextMemory(s, in_)
  {
  }

  /** Every run of the machine is the run of the instruction set through the events of its passes, whatever
      addresses the program uses and whatever the DMA and the interrupt lines do: the stores of the DMA take effect
      between instructions, in the order of its grants; faults are only those of a pc or an address outside
      the RAM; and the RAM ends up with the bytes of that run. */
  lemma {:induction false} MachineRefines(r: Range, allowed: nat, m: Computer, os: seq<Outside>, i: Instr, mem: Memory)
    requires Configured(r, allowed) && Coupled(r, allowed, m, i, mem)
    requires PoliteRun(r, allowed, m, os) && FetchesSupported(r, allowed, m, os, mem)
    ensures RamRuns(r, R.Abs(R.Sys(m.cpu, mem)), Script(r, allowed, m, os), Events(r, allowed, m, os, i, mem),
                    ArchAfter(r, allowed, m, os, mem))
    ensures exists i' :: Coupled(r, allowed, MachineRun(r, allowed, m, os), i', MemoryAfter(r, allowed, m, os, mem))
    decreases os
  {
    hide Coupled, Clock, Polite, Beats, NextMem, R.Supported, R.View, R.Completes, R.Fetching, WiresOf;
    if os == [] {
      assert Coupled(r, allowed, MachineRun(r, allowed, m, os), i, MemoryAfter(r, allowed, m, os, mem));
    } else {
      var s, in_, n := R.Sys(m.cpu, mem), InOf(m.bus, os[0]), Clock(r, allowed, m, os[0]);
      var now, i' := R.Completes(m.cpu, WiresOf(m.cpu, in_), in_, i), R.Fetching(s, in_, i);
      var mem' := NextMem(r, m, os[0], mem);
      ClockContinues(r, allowed, m, os[0], i, mem);
      EdgeBeats(r, allowed, m, os[0], i, mem, now, R.Abs(s), R.Abs(R.Sys(n.cpu, mem')));
      MachineRefines(r, allowed, n, os[1..], i', mem');
      RamRunsJoin(r, R.Abs(s), Beats(r, allowed, m, os[0]), now, R.Abs(R.Sys(n.cpu, mem')),
                  Script(r, allowed, n, os[1..]), Events(r, allowed, n, os[1..], i', mem'),
                  ArchAfter(r, allowed, m, os, mem));
    }
  }

  // ---- Every pass ends -------------------------------------------------------------------------------------

  /** Edges of the slowest pass. */
  function PassEdges(allowed: nat): nat { 2 * allowed + 16 }

  /** Edges until the current pass ends, at most; the last state counts to the end of the next one. */
  function Budget(allowed: nat, m: Computer): nat
    requires L.DogOk(m.bus.dog, allowed)
  {
    var wait := L.Remaining(m.bus, allowed) + 1;
    match m.cpu.state
    case CheckExc => 2 * allowed + 16
    case RdInstReq => 2 * allowed + 15
    case RdInstWait => wait + allowed + 8
    case DecodeInst => allowed + 8
    case ExecInst => allowed + 7
    case ExecInstMemWait => wait
  }

  lemma BudgetByRank(allowed: nat, m: Computer, n: Computer)
    requires L.DogOk(m.bus.dog, allowed) && L.DogOk(n.bus.dog, allowed)
    requires R.Rank(m.cpu) < R.Rank(n.cpu)
    ensures Budget(allowed, n) < Budget(allowed, m)
  {
  }

  /** The CPU waits for the bus and the DMA has it. */
  predicate Starved(m: Computer, o: Outside) {
    m.bus.port.state.WaitingBus? && !Granted(m.bus, o.dma)
  }

  lemma WaitingShrinks(r: Range, allowed: nat, m: Computer, o: Outside, i: Instr, mem: Memory)
    requires Configured(r, allowed) && Coupled(r, allowed, m, i, mem)
    requires R.Waits(m.cpu, InOf(m.bus, o))
    ensures var n := Clock(r, allowed, m, o);
      && L.DogOk(n.bus.dog, allowed) && n.cpu.state == m.cpu.state
      && 1 + L.Remaining(n.bus, allowed) <= L.Remaining(m.bus, allowed) + if Starved(m, o) then 1 else 0
  {
    hide R.Inv, SameBytes, NextWith, WiresOf;
    WaitersAsk(r, allowed, m, i, mem);
    L.GrantedEdge(r, allowed, m.bus, A.Edge(RequestOf(m.cpu), o.dma, SlaveOf(m.bus, o)));
    AsksOn(m.cpu, i, WiresOf(m.cpu, InOf(m.bus, o)), InOf(m.bus, o));
  }

  lemma WaitersAsk(r: Range, allowed: nat, m: Computer, i: Instr, mem: Memory)
    requires Coupled(r, allowed, m, i, mem) && (m.cpu.state.RdInstWait? || m.cpu.state.ExecInstMemWait?)
    ensures R.Flags(m.cpu, i) && Asking(m.cpu)
  {
  }

  lemma BudgetWaiting(allowed: nat, m: Computer, n: Computer, late: nat)
    requires L.DogOk(m.bus.dog, allowed) && L.DogOk(n.bus.dog, allowed)
    requires m.cpu.state == n.cpu.state && (m.cpu.state.RdInstWait? || m.cpu.state.ExecInstMemWait?)
    requires 1 + L.Remaining(n.bus, allowed) <= L.Remaining(m.bus, allowed) + late
    ensures 1 + Budget(allowed, n) <= Budget(allowed, m) + late
  {
  }

  lemma BudgetRenewed(allowed: nat, m: Computer, n: Computer)
    requires L.DogOk(m.bus.dog, allowed) && L.DogOk(n.bus.dog, allowed) && R.PassEnds(m.cpu, n.cpu)
    ensures 1 + Budget(allowed, n) <= Budget(allowed, m) + PassEdges(allowed)
  {
  }

  lemma EdgeKinds(r: Range, allowed: nat, m: Computer, o: Outside, i: Instr, mem: Memory)
    requires r.Aligned() && Coupled(r, allowed, m, i, mem)
    ensures var c, n := m.cpu, Clock(r, allowed, m, o).cpu;
      R.PassEnds(c, n) || R.Waits(c, InOf(m.bus, o)) || R.Rank(c) < R.Rank(n)
  {
    BusAnswers(r, allowed, m.bus, m.cpu, mem, o);
    R.EdgeCounts(R.Sys(m.cpu, mem), InOf(m.bus, o), i);
  }

  lemma BudgetEdge(r: Range, allowed: nat, m: Computer, o: Outside, i: Instr, mem: Memory)
    requires Configured(r, allowed)
    requires Coupled(r, allowed, m, i, mem) && L.DogOk(Clock(r, allowed, m, o).bus.dog, allowed)
    ensures var n := Clock(r, allowed, m, o);
      1 + Budget(allowed, n)
      <= Budget(allowed, m) + (if R.PassEnds(m.cpu, n.cpu) then PassEdges(allowed) else 0)
         + if Starved(m, o) then 1 else 0
  {
    hide Coupled, Clock, R.PassEnds, Starved, Budget;
    var n, in_ := Clock(r, allowed, m, o), InOf(m.bus, o);
    CoupledDog(r, allowed, m, i, mem);
    EdgeKinds(r, allowed, m, o, i, mem);
    if R.PassEnds(m.cpu, n.cpu) {
      BudgetRenewed(allowed, m, n);
    } else if R.Waits(m.cpu, in_) {
      WaitingShrinks(r, allowed, m, o, i, mem);
      BudgetWaiting(allowed, m, n, if Starved(m, o) then 1 else 0);
    } else {
      BudgetByRank(allowed, m, n);
    }
  }

  /** Edges at which the DMA keeps the CPU from the bus. */
  function StarvedEdges(r: Range, allowed: nat, m: Computer, os: seq<Outside>): nat
    decreases os
  {
    if os == [] then 0
    else (if Starved(m, os[0]) then 1 else 0) + StarvedEdges(r, allowed, Clock(r, allowed, m, os[0]), os[1..])
  }

  lemma CoupledDog(r: Range, allowed: nat, m: Computer, i: Instr, mem: Memory)
    requires Coupled(r, allowed, m, i, mem)
    ensures L.DogOk(m.bus.dog, allowed)
  {
  }

  lemma PassesOfEdge(r: Range, allowed: nat, m: Computer, o: Outside, rest: seq<Beat>)
    ensures Passes(Beats(r, allowed, m, o) + rest)
            == (if R.PassEnds(m.cpu, Clock(r, allowed, m, o).cpu) then 1 else 0) + Passes(rest)
  {
    hide A.DmaStores, Clock, R.PassEnds;
    var ends := if R.PassEnds(m.cpu, Clock(r, allowed, m, o).cpu) then [Ends] else [];
    var stores := Beats(r, allowed, m, o)[|ends|..];
    assert Beats(r, allowed, m, o) + rest == ends + (stores + rest);
    assert ends != [] ==> (ends + (stores + rest))[1..] == stores + rest;
    assert ends == [] ==> ends + (stores + rest) == stores + rest;
    assert stores == [] ==> stores + rest == rest;
    assert stores != [] ==> (stores + rest)[1..] == rest;
  }

  lemma BoundGrows(budget: int, budget': int, k: int, ends: bool, rest: int, late: int)
    requires 1 + budget' <= budget + (if ends then k else 0) + late
    ensures 1 + budget' + k * rest <= budget + k * ((if ends then 1 else 0) + rest) + late
  {
    assert k * (1 + rest) == k + k * rest;
  }

  lemma {:induction false} PassesKeepEnding(
      r: Range, allowed: nat, m: Computer, os: seq<Outside>, i: Instr, mem: Memory, k: nat, bound: int)
    requires Configured(r, allowed) && Coupled(r, allowed, m, i, mem) && L.DogOk(m.bus.dog, allowed)
    requires PoliteRun(r, allowed, m, os) && FetchesSupported(r, allowed, m, os, mem) && k == PassEdges(allowed)
    requires bound == Budget(allowed, m) + k * Passes(Script(r, allowed, m, os)) + StarvedEdges(r, allowed, m, os)
    ensures |os| <= bound
    decreases os
  {
    hide Coupled, Clock, Polite, Beats, NextMem, R.Supported, R.Fetching, R.PassEnds, Starved, Passes, Budget,
         PassEdges, R.View, R.FetchEnds, InOf, R.NextMemory, R.Step, R.Answers, L.DogOk, L.Holds;
    if os != [] {
      var s, in_, n := R.Sys(m.cpu, mem), InOf(m.bus, os[0]), Clock(r, allowed, m, os[0]);
      var i', mem' := R.Fetching(s, in_, i), NextMem(r, m, os[0], mem);
      var ends, late := R.PassEnds(m.cpu, n.cpu), if Starved(m, os[0]) then 1 else 0;
      var rest, next := Passes(Script(r, allowed, n, os[1..])), StarvedEdges(r, allowed, n, os[1..]);
      ClockContinues(r, allowed, m, os[0], i, mem);
      CoupledDog(r, allowed, n, i', mem');
      BudgetEdge(r, allowed, m, os[0], i, mem);
      PassesOfEdge(r, allowed, m, os[0], Script(r, allowed, n, os[1..]));
      BoundGrows(Budget(allowed, m), Budget(allowed, n), k, ends, rest, late);
      var bound' := Budget(allowed, n) + k * rest + next;
      assert 1 + bound' <= bound;
      PassesKeepEnding(r, allowed, n, os[1..], i', mem', k, bound');
    } else {
      assert Script(r, allowed, m, os) == [] && StarvedEdges(r, allowed, m, os) == 0;
    }
  }

  lemma BudgetBounded(allowed: nat, m: Computer)
    requires L.DogOk(m.bus.dog, allowed)
    ensures Budget(allowed, m) <= PassEdges(allowed)
  {
  }

  /** The passes keep ending, one at least every 2 * ALLOWED_CYCLES + 16 clock edges, not counting those at which
      the DMA keeps the CPU from the bus. */
  lemma MachineProgresses(r: Range, allowed: nat, m: Computer, os: seq<Outside>, i: Instr, mem: Memory)
    requires Configured(r, allowed) && Coupled(r, allowed, m, i, mem)
    requires PoliteRun(r, allowed, m, os) && FetchesSupported(r, allowed, m, os, mem)
    ensures |os| <= PassEdges(allowed) + PassEdges(allowed) * Passes(Script(r, allowed, m, os))
                    + StarvedEdges(r, allowed, m, os)
  {
    hide Coupled, PoliteRun, FetchesSupported, Passes, Script, StarvedEdges, Budget, PassEdges;
    CoupledDog(r, allowed, m, i, mem);
    BudgetBounded(allowed, m);
    var k, passes := PassEdges(allowed), Passes(Script(r, allowed, m, os));
    PassesKeepEnding(r, allowed, m, os, i, mem, k, Budget(allowed, m) + k * passes + StarvedEdges(r, allowed, m, os));
  }

  // ---- Without interrupts ------------------------------------------------------------------------------------

  /** One instruction with the RAM as the only memory. */
  ghost function RamStep(r: Range, a: Arch): Arch {
    if Crosses(a.pc, Full) then EnterTrap(a, FETCH_MISALIGNED, a.pc, a.pc)
    else if !r.Hit(a.pc) then EnterTrap(a, FETCH_FAULT, a.pc, a.pc)
    else if !R.Supported(a) then a
    else if !Reaches(r, a, R.Here(a)) then R.IsaStep(a, R.AccessFault(R.Here(a)))
    else R.IsaStep(a, R.Retire(R.Here(a)))
  }

  ghost function RamSteps(r: Range, a: Arch, n: nat): Arch
    decreases n
  {
    if n == 0 then a else RamSteps(r, RamStep(r, a), n - 1)
  }

  lemma FittingStep(r: Range, a: Arch, e: R.Event)
    requires R.Possible(a, e) && Fits(r, a, e) && !e.Interrupted?
    ensures R.IsaStep(a, e) == RamStep(r, a)
  {
    if !e.FetchTrap? {
      R.HereIs(a, e.i);
    }
  }

  /** The instruction set on the RAM, through the passes and the stores of the DMA. */
  ghost function Replay(r: Range, a: Arch, beats: seq<Beat>): Arch
    decreases beats
  {
    if beats == [] then a
    else Replay(r, if beats[0].Ends? then RamStep(r, a) else Stored(a, beats[0]), beats[1..])
  }

  lemma {:induction false} ReplayJoin(r: Range, a: Arch, ps: seq<Beat>, qs: seq<Beat>)
    ensures Replay(r, a, ps + qs) == Replay(r, Replay(r, a, ps), qs)
    decreases ps
  {
    hide RamStep, Stored;
    if ps == [] {
      assert ps + qs == qs;
    } else {
      assert (ps + qs)[1..] == ps[1..] + qs;
      ReplayJoin(r, if ps[0].Ends? then RamStep(r, a) else Stored(a, ps[0]), ps[1..], qs);
    }
  }

  /** Without interrupts the events that fit the RAM are decided by the architectural state. */
  lemma {:induction false} RamRunsAreReplays(r: Range, a: Arch, beats: seq<Beat>, es: seq<R.Event>, a': Arch)
    requires RamRuns(r, a, beats, es, a') && forall e :: e in es ==> !e.Interrupted?
    ensures a' == Replay(r, a, beats)
    decreases beats
  {
    hide RamStep, R.IsaStep, Exec, Fits, Stored;
    if beats != [] {
      if beats[0].Stores? {
        RamRunsAreReplays(r, Stored(a, beats[0]), beats[1..], es, a');
      } else {
        assert es[0] in es;
        FittingStep(r, a, es[0]);
        RamRunsAreReplays(r, R.IsaStep(a, es[0]), beats[1..], es[1..], a');
      }
    }
  }

  /** What is fetched from the RAM in this state, if anything, is a supported instruction. */
  ghost predicate Fetchable(r: Range, a: Arch) {
    !Crosses(a.pc, Full) && r.Hit(a.pc) ==> R.Supported(a)
  }

  lemma FetchesHere(r: Range, allowed: nat, m: Computer, o: Outside, i: Instr, mem: Memory)
    requires Coupled(r, allowed, m, i, mem) && Fetchable(r, R.Abs(R.Sys(m.cpu, mem)))
    requires R.FetchEnds(m.cpu, InOf(m.bus, o))
    ensures R.Supported(R.Abs(R.Sys(m.cpu, mem)))
  {
    hide R.Supported, SameBytes;
    FetchedFromRam(r, allowed, m.bus, m.cpu, mem);
  }

  /** No interrupt is pending and none comes. */
  predicate Calm(c: Cpu, os: seq<Outside>) {
    c.csr.sip == 0 && forall o :: o in os ==> !o.timer && !o.ext
  }

  lemma LinesClock(c: Cpu, kind: CpuUnits.Kind, in_: In)
    requires c.csr.sip == 0 && !in_.timer && !in_.ext
    ensures NextCsr(c, kind, in_).sip == 0
  {
  }

  lemma NoneSelected(u: CsrUnit)
    requires u.sip == 0
    ensures !HasIntr(u)
  {
  }

  /** One edge without interrupts. */
  lemma CalmEdge(r: Range, allowed: nat, m: Computer, o: Outside, i: Instr, mem: Memory, a: Arch, b: Arch)
    requires Configured(r, allowed) && Coupled(r, allowed, m, i, mem) && Polite(r, allowed, m, o)
    requires m.cpu.csr.sip == 0 && !o.timer && !o.ext
    requires R.FetchEnds(m.cpu, InOf(m.bus, o)) ==> R.Supported(R.Abs(R.Sys(m.cpu, mem)))
    requires a == R.Abs(R.Sys(m.cpu, mem)) && b == R.Abs(R.Sys(Clock(r, allowed, m, o).cpu, NextMem(r, m, o, mem)))
    ensures Clock(r, allowed, m, o).cpu.csr.sip == 0 && b == Replay(r, a, Beats(r, allowed, m, o))
    ensures forall e :: e in R.Completes(m.cpu, WiresOf(m.cpu, InOf(m.bus, o)), InOf(m.bus, o), i) ==> !e.Interrupted?
  {
    hide Coupled, Polite, NextMem, Beats, RamRuns, Replay, R.Supported, R.Completes, NextBus, NextWith, HasIntr, R.View;
    var in_ := InOf(m.bus, o);
    var w := WiresOf(m.cpu, in_);
    NoneSelected(m.cpu.csr);
    R.EdgeRetires(m.cpu, in_, i, w);
    T.UnitsClock(m.cpu, w, in_);
    LinesClock(m.cpu, w.kind, in_);
    EdgeBeats(r, allowed, m, o, i, mem, R.Completes(m.cpu, w, in_, i), a, b);
    RamRunsAreReplays(r, a, Beats(r, allowed, m, o), R.Completes(m.cpu, w, in_, i), b);
  }

  /** Along the replay of the first `k` beats only supported instructions are fetched. */
  ghost predicate FetchableAt(r: Range, a: Arch, beats: seq<Beat>, k: nat)
    requires k <= |beats|
  {
    Fetchable(r, Replay(r, a, beats[..k]))
  }

  lemma FetchableNext(r: Range, a: Arch, ps: seq<Beat>, b: Arch, qs: seq<Beat>)
    requires b == Replay(r, a, ps) && forall k: nat :: k <= |ps + qs| ==> FetchableAt(r, a, ps + qs, k)
    ensures forall k: nat :: k <= |qs| ==> FetchableAt(r, b, qs, k)
  {
    hide Fetchable, Replay;
    forall k: nat | k <= |qs| ensures FetchableAt(r, b, qs, k) {
      assert FetchableAt(r, a, ps + qs, |ps| + k);
      assert (ps + qs)[..|ps| + k] == ps + qs[..k];
      ReplayJoin(r, a, ps, qs[..k]);
    }
  }

  lemma FetchableNow(r: Range, a: Arch, beats: seq<Beat>)
    requires FetchableAt(r, a, beats, 0)
    ensures Fetchable(r, a)
  {
    assert beats[..0] == [];
  }

  /** The fetches of a machine that computes are decided by the instruction set. */
  lemma {:induction false} FetchesFollow(r: Range, allowed: nat, m: Computer, os: seq<Outside>, i: Instr, mem: Memory,
                                         a: Arch, beats: seq<Beat>)
    requires Configured(r, allowed) && Coupled(r, allowed, m, i, mem) && PoliteRun(r, allowed, m, os) && Calm(m.cpu, os)
    requires a == R.Abs(R.Sys(m.cpu, mem)) && beats == Script(r, allowed, m, os)
    requires forall k: nat :: k <= |beats| ==> FetchableAt(r, a, beats, k)
    ensures FetchesSupported(r, allowed, m, os, mem)
    ensures forall e :: e in Events(r, allowed, m, os, i, mem) ==> !e.Interrupted?
    decreases os
  {
    hide Coupled, Clock, Polite, NextMem, Beats, Replay, FetchableAt, Fetchable, R.Supported, R.Completes, R.Fetching,
         R.View, R.FetchEnds, WiresOf;
    if os != [] {
      var s, in_, n := R.Sys(m.cpu, mem), InOf(m.bus, os[0]), Clock(r, allowed, m, os[0]);
      var mem', rest := NextMem(r, m, os[0], mem), Script(r, allowed, n, os[1..]);
      var b := R.Abs(R.Sys(n.cpu, mem'));
      assert os[0] in os;
      FetchableNow(r, a, beats);
      if R.FetchEnds(m.cpu, in_) {
        FetchesHere(r, allowed, m, os[0], i, mem);
      }
      ClockContinues(r, allowed, m, os[0], i, mem);
      CalmEdge(r, allowed, m, os[0], i, mem, a, b);
      FetchableNext(r, a, Beats(r, allowed, m, os[0]), b, rest);
      FetchesFollow(r, allowed, n, os[1..], R.Fetching(s, in_, i), mem', b, rest);
    }
  }

  /** Without interrupts the machine computes: its architectural state is that of the instruction set on the
      RAM after as many steps as passes have ended, with the stores of the DMA in between, however long each
      of them took. All it needs of the program is that the instruction set only fetches supported instructions. */
  lemma MachineComputes(r: Range, allowed: nat, m: Computer, os: seq<Outside>, i: Instr, mem: Memory)
    requires Configured(r, allowed) && Coupled(r, allowed, m, i, mem) && PoliteRun(r, allowed, m, os) && Calm(m.cpu, os)
    requires var beats := Script(r, allowed, m, os);
      forall k: nat :: k <= |beats| ==> FetchableAt(r, R.Abs(R.Sys(m.cpu, mem)), beats, k)
    ensures ArchAfter(r, allowed, m, os, mem) == Replay(r, R.Abs(R.Sys(m.cpu, mem)), Script(r, allowed, m, os))
    ensures exists i' :: Coupled(r, allowed, MachineRun(r, allowed, m, os), i', MemoryAfter(r, allowed, m, os, mem))
  {
    hide Coupled, PoliteRun, Script, Events, RamRuns, Replay, FetchableAt, FetchesSupported, MachineRun, MemoryAfter,
         R.View;
    var a, beats := R.Abs(R.Sys(m.cpu, mem)), Script(r, allowed, m, os);
    FetchesFollow(r, allowed, m, os, i, mem, a, beats);
    MachineRefines(r, allowed, m, os, i, mem);
    RamRunsAreReplays(r, a, beats, Events(r, allowed, m, os, i, mem), ArchAfter(r, allowed, m, os, mem));
  }

  // ---- With the DMA silent -----------------------------------------------------------------------------------

  predicate Silent(os: seq<Outside>) { forall o :: o in os ==> !o.dma.req }

  /** The watchdog counts for the CPU only. */
  predicate DogRests(r: Range, b: Bus, q: Request) {
    match b.port.state
    case WaitingReq => b.dog.state.DogIdle?
    case WaitingBus => b.dog.state.DogIdle?
    case WaitingAck => b.dog.state.Counting? || (b.dog.state.Notifying? && !r.Hit(b.port.mar))
    case Answered => !b.dog.state.Counting? && (q.Up() || b.dog.state.DogIdle?)
  }

  lemma SilentLines(b: Bus, d: Dma)
    requires !d.req
    ensures Granted(b, d) == b.port.busReq && !DmaGranted(b, d)
    ensures LinesOf(b, d)
            == if b.port.busReq then Lines(b.port.mar, !b.port.isWr, b.port.isWr, b.port.mask)
               else Lines(0, false, false, 0)
  {
  }

  lemma SilentDog(r: Range, allowed: nat, b: Bus, q: Request, d: Dma, s: Slave, q': Request)
    requires A.Serving(r, b, q) && DogRests(r, b, q) && !d.req && (Granted(b, d) ==> !s.fc)
    requires b.port.state.Answered? ==> !q'.Up()
    requires !b.port.state.Answered? && q.Up() ==> q' == q
    requires !(q.rd && q.wr)
    ensures DogRests(r, NextBus(r, allowed, b, q, d, s), q') && NoLeak(r, allowed, b, d)
  {
    hide NextWords, Join, WordAt, WordIndex;
    SilentLines(b, d);
  }

  lemma SilentMaster(r: Range, allowed: nat, m: Computer, o: Outside, i: Instr, mem: Memory)
    requires Configured(r, allowed) && Coupled(r, allowed, m, i, mem)
    requires R.FetchEnds(m.cpu, InOf(m.bus, o)) ==> R.Supported(R.Abs(R.Sys(m.cpu, mem)))
    ensures var q, q' := RequestOf(m.cpu), RequestOf(Clock(r, allowed, m, o).cpu);
      && A.Serving(r, m.bus, q) && !(q.rd && q.wr)
      && (if m.bus.port.state.Answered? then !q'.Up() else q.Up() ==> q' == q)
  {
    hide NextBus, NextWith, A.Serving, R.Fetched, R.Decoded, R.Flags, R.Supported, SameBytes, WiresOf, R.View, Taken;
    var s, in_, n := R.Sys(m.cpu, mem), InOf(m.bus, o), Clock(r, allowed, m, o);
    BusAnswers(r, allowed, m.bus, m.cpu, mem, o);
    R.FetchingFollows(s, in_, i);
    R.EdgeInv(s, in_, i, R.Fetching(s, in_, i));
    MasterEdge(r, allowed, m.bus, m.cpu, i, R.Fetching(s, in_, i), WiresOf(m.cpu, in_), o, mem);
  }

  /** A silent DMA is polite, once the watchdog has forgotten it. */
  lemma SilentEdge(r: Range, allowed: nat, m: Computer, o: Outside, i: Instr, mem: Memory)
    requires Configured(r, allowed) && Coupled(r, allowed, m, i, mem)
    requires DogRests(r, m.bus, RequestOf(m.cpu)) && !o.dma.req
    requires R.FetchEnds(m.cpu, InOf(m.bus, o)) ==> R.Supported(R.Abs(R.Sys(m.cpu, mem)))
    ensures Polite(r, allowed, m, o) && !A.DmaStores(r, m.bus, o.dma)
    ensures DogRests(r, Clock(r, allowed, m, o).bus, RequestOf(Clock(r, allowed, m, o).cpu))
  {
    hide Coupled, Next, NextBus, DogRests, NoLeak, R.Supported, A.Serving, R.View, R.FetchEnds, RequestOf, Granted;
    SilentMaster(r, allowed, m, o, i, mem);
    SilentDog(r, allowed, m.bus, RequestOf(m.cpu), o.dma, SlaveOf(m.bus, o), RequestOf(Clock(r, allowed, m, o).cpu));
    SilentStores(r, m.bus, o.dma);
  }

  lemma SilentStores(r: Range, b: Bus, d: Dma)
    requires !d.req
    ensures !A.DmaStores(r, b, d)
  {
  }

  predicate AllEnds(beats: seq<Beat>) { forall beat :: beat in beats ==> beat.Ends? }

  lemma SilentBeats(r: Range, allowed: nat, m: Computer, o: Outside, rest: seq<Beat>)
    requires !A.DmaStores(r, m.bus, o.dma) && AllEnds(rest)
    ensures AllEnds(Beats(r, allowed, m, o)) && AllEnds(Beats(r, allowed, m, o) + rest)
  {
    hide A.DmaStores, Clock, R.PassEnds;
  }

  /** A silent DMA is polite throughout, and the run is passes only. */
  lemma {:induction false} SilentRuns(r: Range, allowed: nat, m: Computer, os: seq<Outside>, i: Instr, mem: Memory)
    requires Configured(r, allowed) && Coupled(r, allowed, m, i, mem)
    requires DogRests(r, m.bus, RequestOf(m.cpu)) && Silent(os)
    requires FetchesSupported(r, allowed, m, os, mem)
    ensures PoliteRun(r, allowed, m, os) && AllEnds(Script(r, allowed, m, os))
    decreases os
  {
    hide Coupled, Clock, Polite, NextMem, R.Supported, R.Fetching, DogRests, A.DmaStores, R.FetchEnds, Beats, R.View;
    if os != [] {
      assert os[0] in os;
      SilentEdge(r, allowed, m, os[0], i, mem);
      ClockContinues(r, allowed, m, os[0], i, mem);
      var n := Clock(r, allowed, m, os[0]);
      var i' := R.Fetching(R.Sys(m.cpu, mem), InOf(m.bus, os[0]), i);
      SilentRuns(r, allowed, n, os[1..], i', NextMem(r, m, os[0], mem));
      SilentBeats(r, allowed, m, os[0], Script(r, allowed, n, os[1..]));
    }
  }

  lemma {:induction false} EndsAreSteps(r: Range, a: Arch, beats: seq<Beat>)
    requires AllEnds(beats)
    ensures Replay(r, a, beats) == RamSteps(r, a, |beats|) && Passes(beats) == |beats|
    decreases beats
  {
    hide RamStep;
    if beats != [] {
      assert beats[0] in beats;
      EndsAreSteps(r, RamStep(r, a), beats[1..]);
    }
  }

  /** The fetches of a machine that is left alone are decided by the program. */
  lemma {:induction false} SilentFetches(r: Range, allowed: nat, m: Computer, os: seq<Outside>, i: Instr, mem: Memory,
                                         a: Arch)
    requires Configured(r, allowed) && Coupled(r, allowed, m, i, mem)
    requires DogRests(r, m.bus, RequestOf(m.cpu)) && Silent(os)
    requires Calm(m.cpu, os) && a == R.Abs(R.Sys(m.cpu, mem)) && forall k: nat :: Fetchable(r, RamSteps(r, a, k))
    ensures FetchesSupported(r, allowed, m, os, mem)
    decreases os
  {
    hide Coupled, Clock, Polite, NextMem, RamStep, Fetchable, R.Supported, R.Fetching, R.View, DogRests, R.FetchEnds,
         Beats, A.DmaStores, WiresOf, R.Completes, Replay;
    if os != [] {
      var s, in_, n := R.Sys(m.cpu, mem), InOf(m.bus, os[0]), Clock(r, allowed, m, os[0]);
      var mem', beats := NextMem(r, m, os[0], mem), Beats(r, allowed, m, os[0]);
      var b := R.Abs(R.Sys(n.cpu, mem'));
      assert os[0] in os;
      assert Fetchable(r, RamSteps(r, a, 0));
      if R.FetchEnds(m.cpu, in_) {
        FetchesHere(r, allowed, m, os[0], i, mem);
      }
      SilentEdge(r, allowed, m, os[0], i, mem);
      ClockContinues(r, allowed, m, os[0], i, mem);
      CalmEdge(r, allowed, m, os[0], i, mem, a, b);
      SilentBeats(r, allowed, m, os[0], []);
      EndsAreSteps(r, a, beats);
      forall k: nat ensures Fetchable(r, RamSteps(r, b, k)) {
        assert Fetchable(r, RamSteps(r, a, |beats| + k));
        StepsJoin(r, a, |beats|, k);
      }
      SilentFetches(r, allowed, n, os[1..], R.Fetching(s, in_, i), mem', b);
    }
  }

  lemma {:induction false} StepsJoin(r: Range, a: Arch, j: nat, k: nat)
    ensures RamSteps(r, a, j + k) == RamSteps(r, RamSteps(r, a, j), k)
    decreases j
  {
    hide RamStep;
    if j > 0 {
      StepsJoin(r, RamStep(r, a), j - 1, k);
    }
  }

  /** A machine that is left alone runs its program: if the instruction set, started on the RAM, only ever
      fetches supported instructions, then after any number of clock edges the machine is where the instruction
      set is after as many steps as passes have ended. */
  lemma MachineRunsProgram(r: Range, allowed: nat, m: Computer, os: seq<Outside>, i: Instr, mem: Memory)
    requires Configured(r, allowed) && Coupled(r, allowed, m, i, mem)
    requires DogRests(r, m.bus, RequestOf(m.cpu)) && Silent(os)
    requires Calm(m.cpu, os) && forall k: nat :: Fetchable(r, RamSteps(r, R.Abs(R.Sys(m.cpu, mem)), k))
    ensures ArchAfter(r, allowed, m, os, mem)
            == RamSteps(r, R.Abs(R.Sys(m.cpu, mem)), Passes(Script(r, allowed, m, os)))
    ensures |os| <= PassEdges(allowed) + PassEdges(allowed) * Passes(Script(r, allowed, m, os))
  {
    hide Coupled, PoliteRun, Script, Replay, Fetchable, FetchesSupported, RamSteps, DogRests, R.View, AllEnds, Passes,
         PassEdges;
    var a, beats := R.Abs(R.Sys(m.cpu, mem)), Script(r, allowed, m, os);
    SilentFetches(r, allowed, m, os, i, mem, a);
    SilentRuns(r, allowed, m, os, i, mem);
    BusAsked(r, allowed, m, i, mem);
    FetchableEnds(r, a, beats);
    MachineComputes(r, allowed, m, os, i, mem);
    EndsAreSteps(r, a, beats);
    MachineProgresses(r, allowed, m, os, i, mem);
    NeverStarved(r, allowed, m, os);
  }

  lemma FetchableEnds(r: Range, a: Arch, beats: seq<Beat>)
    requires AllEnds(beats) && forall k: nat :: Fetchable(r, RamSteps(r, a, k))
    ensures forall k: nat :: k <= |beats| ==> FetchableAt(r, a, beats, k)
  {
    hide Fetchable, Replay, RamSteps;
    forall k: nat | k <= |beats| ensures FetchableAt(r, a, beats, k) {
      EndsAreSteps(r, a, beats[..k]);
      assert Fetchable(r, RamSteps(r, a, k));
    }
  }

  lemma {:induction false} NeverStarved(r: Range, allowed: nat, m: Computer, os: seq<Outside>)
    requires Silent(os) && (m.bus.port.state.WaitingBus? ==> m.bus.port.busReq)
    ensures StarvedEdges(r, allowed, m, os) == 0
    decreases os
  {
    hide Next, NextBus, SlaveOf, RequestOf;
    if os != [] {
      assert os[0] in os;
      BusStaysAsked(r, allowed, m.bus, RequestOf(m.cpu), os[0].dma, SlaveOf(m.bus, os[0]));
      NeverStarved(r, allowed, Clock(r, allowed, m, os[0]), os[1..]);
    }
  }

  lemma BusAsked(r: Range, allowed: nat, m: Computer, i: Instr, mem: Memory)
    requires Coupled(r, allowed, m, i, mem)
    ensures m.bus.port.state.WaitingBus? ==> m.bus.port.busReq
  {
    hide R.Inv, SameBytes;
  }

  lemma PortStaysAsked(p: Port, q: Request, grant: bool, data: Word, fc: bool, watchdog: bool)
    requires p.state.WaitingBus? ==> p.busReq
    ensures var n := NextPort(p, q, grant, data, fc, watchdog); n.state.WaitingBus? ==> n.busReq
  {
  }

  lemma BusStaysAsked(r: Range, allowed: nat, b: Bus, q: Request, d: Dma, s: Slave)
    requires b.port.state.WaitingBus? ==> b.port.busReq
    ensures var n := NextBus(r, allowed, b, q, d, s).port; n.state.WaitingBus? ==> n.busReq
  {
    hide NextPort, NextWords, DataBus, NextDog, FcBus;
    PortStaysAsked(b.port, q, Granted(b, d), DataBus(r, b, q, d, s), FcBus(r, b, d, s), b.dog.state.Notifying?);
  }

  /** The machine out of reset: the invariant holds, over a memory with the bytes of the RAM. */
  lemma MachineStarts(r: Range, allowed: nat, m: Computer, start: Word, i: Instr, mem: Memory)
    requires JustReset(m.cpu, start) && m.cpu.csr.stvec & 3 != 1 && Legal(i) && SameBytes(r, m.bus.words, mem)
    requires m.bus.port.state.WaitingReq? && !m.bus.port.busReq && !m.bus.port.done && !m.bus.port.timeout
    requires m.bus.dog == Watchdog(DogIdle, 0)
    ensures Coupled(r, allowed, m, i, mem) && R.Abs(R.Sys(m.cpu, mem)).pc == start
    ensures DogRests(r, m.bus, RequestOf(m.cpu))
  {
    hide NextWith, WiresOf;
    R.ResetStarts(R.Sys(m.cpu, mem), start, i);
  }
}
