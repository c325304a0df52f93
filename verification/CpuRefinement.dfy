/** The CPU with a memory of any latency refines the instruction set, traps included. */
module CpuRefinement {
  import opened Isa
  import opened CpuUnits
  import opened Cpu
  import Bits

  /** The CPU and the bytes its memory port reaches. */
  datatype Sys = Sys(cpu: Cpu, mem: Memory)

  function WidthOf(mask: bv4): Width {
    if mask == 1 then Byte else if mask == 3 then Half else Full
  }

  /** The port answers a pending request at most once per edge, and a read with the bytes addressed. */
  predicate Answers(s: Sys, i: In) {
    var c := s.cpu;
    && !(i.done && i.timeout)
    && (i.done && c.rdReq ==>
          LowBytes(WidthOf(MaMask(c)), i.data) == ReadBytes(s.mem, MaAddr(c), WidthOf(MaMask(c))))
  }

  /** A store reaches memory when it is acknowledged. */
  function NextMemory(s: Sys, i: In): Memory {
    var c := s.cpu;
    if c.wrReq && i.done then WriteBytes(s.mem, MaAddr(c), WidthOf(MaMask(c)), Src2(c)) else s.mem
  }

  /** One clock edge. */
  function Step(s: Sys, i: In): Sys {
    Sys(Next(s.cpu, i), NextMemory(s, i))
  }

  // ---- The instruction-set machine ----------------------------------------------------------

  datatype Event =
    | Retire(i: Instr)
    | Interrupted(i: Instr, cause: Word, value: Word)
    | FetchTrap(cause: Word)
    | AccessFault(i: Instr)

  predicate UsesMemory(i: Instr) { i.Load? || i.Store? }

  function Address(a: Arch, i: Instr): Word
    requires i.Load? || i.Store?
  {
    Plus(ReadReg(a.regs, i.rs1), SignExtend12(i.imm))
  }

  /** The instruction at pc is `i`. */
  predicate AtPc(a: Arch, i: Instr) {
    Legal(i) && ReadBytes(a.mem, a.pc, Full) == Encode(i)
  }

  ghost predicate Supported(a: Arch) { exists i :: AtPc(a, i) }

  /** The instruction at pc. */
  ghost function Here(a: Arch): Instr
    requires Supported(a)
  {
    var i :| AtPc(a, i); i
  }

  /** There is only one. */
  lemma HereIs(a: Arch, i: Instr)
    requires AtPc(a, i)
    ensures Supported(a) && Here(a) == i
  {
    EncodeInjective(i, Here(a));
  }

  /** Interrupts are taken in user mode, and in supervisor mode while SIE is set. */
  predicate TakesInterrupts(c: Csrs) { c.supervisor ==> c.sstatus & 0x2 != 0 }

  predicate IsInterrupt(cause: Word) { cause & 0x8000_0000 != 0 }

  /** An interrupt must be enabled, and follows an instruction that completes; a fault comes from
      an access within its word; a fetch is misaligned exactly when pc is. */
  predicate Sensible(a: Arch, e: Event) {
    match e
    case Retire(_) => true
    case Interrupted(i, cause, _) => Exec(a, i).Done? && TakesInterrupts(a.csrs) && IsInterrupt(cause)
    case AccessFault(i) => UsesMemory(i) && !Crosses(Address(a, i), i.width)
    case FetchTrap(cause) => cause == if Crosses(a.pc, Full) then FETCH_MISALIGNED else FETCH_FAULT
  }

  /** An exception saves the pc of its instruction, which has no other effect. An interrupt is
      taken after its instruction and saves the pc of the next one. */
  function IsaStep(a: Arch, e: Event): Arch
    requires Sensible(a, e)
  {
    match e
    case Retire(i) =>
      (match Exec(a, i)
       case Done(next) => next
       case Raise(cause, value) => EnterTrap(a, cause, a.pc, value))
    case Interrupted(i, cause, value) =>
      var next := Exec(a, i).next;
      EnterTrap(next, cause, next.pc, value)
    case FetchTrap(cause) => EnterTrap(a, cause, a.pc, a.pc)
    case AccessFault(i) => EnterTrap(a, if i.Load? then LOAD_FAULT else STORE_FAULT, a.pc, Address(a, i))
  }

  // ---- Abstraction ---------------------------------------------------------------------------

  function CsrsOf(u: CsrUnit): Csrs {
    Csrs(u.sstatus, u.stvec, u.sepc, u.scause, u.stval, u.supervisor)
  }

  /** The architectural state. In the last state of a pass the instruction has been executed,
      but the step to the next pc, or the trap, is still to be written. */
  function View(c: Cpu, mem: Memory): Arch {
    var a := Arch(c.pc, c.regs, mem, CsrsOf(c.csr));
    if !c.state.CheckExc? then a
    else if c.hasException then EnterTrap(a, c.excCause, c.excPc, c.excValue)
    else a.(pc := if c.pcChanged then c.pc else Plus(c.pc, 4))
  }

  function Abs(s: Sys): Arch { View(s.cpu, s.mem) }

  predicate Executing(c: Cpu) { c.state.ExecInst? || c.state.ExecInstMemWait? }

  /** The control registers. */
  ghost predicate Flags(c: Cpu, i: Instr) {
    && c.csr.stvec & 3 != 1
    && (c.hasException || c.pcChanged ==> c.state.CheckExc?)
    && (c.rdReq <==> c.state.RdInstWait? || (c.state.ExecInstMemWait? && i.Load?))
    && (c.wrReq <==> c.state.ExecInstMemWait? && i.Store?)
    && (c.state.RdInstWait? ==> !Crosses(c.pc, Full))
    && (c.state.ExecInstMemWait? ==> (i.Load? || i.Store?) && !Crosses(MaAddr(c), i.width))
  }

  /** The instruction register holds the word at pc, which is aligned. */
  ghost predicate Fetched(c: Cpu, mem: Memory, word: Word) {
    c.state.DecodeInst? || Executing(c) ==>
      c.ir == word && ReadBytes(mem, c.pc, Full) == word && !Crosses(c.pc, Full)
  }

  /** The decoded fields are those of the instruction. */
  ghost predicate Decoded(c: Cpu, i: Instr) {
    Executing(c) ==> Delivers(i, KindOf(c.ir), c.f)
  }

  /** What holds at every clock edge, when `i` is the instruction in the instruction register. */
  ghost predicate Inv(s: Sys, i: Instr) {
    Legal(i) && Flags(s.cpu, i) && Fetched(s.cpu, s.mem, Encode(i)) && Decoded(s.cpu, i)
  }

  /** The event, if any, that this clock edge completes. */
  function Completes(c: Cpu, w: Wires, in_: In, i: Instr): seq<Event> {
    match c.state
    case RdInstReq => if w.misaligned then [FetchTrap(FETCH_MISALIGNED)] else []
    case RdInstWait => if in_.timeout then [FetchTrap(FETCH_FAULT)] else []
    case DecodeInst => []
    case ExecInst =>
      if UsesMemory(i) && !w.misaligned then []
      else if UsesMemory(i) || i.Ecall? || !w.intr then [Retire(i)]
      else [Interrupted(i, w.intrCause, c.excValue)]
    case ExecInstMemWait =>
      if in_.timeout then [AccessFault(i)]
      else if !in_.done then []
      else if w.intr then [Interrupted(i, w.intrCause, c.excValue)]
      else [Retire(i)]
    case CheckExc => []
  }

  /** The events happened: each is a step of the instruction-set machine. */
  ghost predicate Effects(a: Arch, e: seq<Event>, a': Arch) {
    if e == [] then a' == a else |e| == 1 && Sensible(a, e[0]) && a' == IsaStep(a, e[0])
  }

  // ---- Small facts about bits ------------------------------------------------------------------

  lemma FunctLow(f7: bv7, f3: bv3)
    ensures (Funct(f7, f3) & 7) as bv3 == f3
  {
  }

  lemma StatusSaved(x: Word, supervisor: bool)
    ensures SaveStatus(x, supervisor) == SavedStatus(x, supervisor)
  {
  }

  lemma StatusRestored(x: Word)
    ensures RestoreStatus(x) == RestoredStatus(x)
  {
  }

  lemma WidthOfMask(w: Width, zeroExtend: bool)
    requires w.Full? ==> !zeroExtend
    ensures WidthOf(DataMask(WidthBits(w) | if zeroExtend then 4 else 0)) == w
  {
  }

  lemma FetchAligned(pc: Word)
    ensures Overflow((pc & 3) as bv2, 15) == Crosses(pc, Full)
  {
  }

  /** A register holds what was written to it last, and register 0 holds 0. */
  lemma RegistersHold(regs: Regs, r: Reg, v: Word, q: Reg)
    ensures ReadReg(WriteReg(regs, r, v), q) == if q == 0 then 0 else if q == r then v else ReadReg(regs, q)
  {
  }

  /** Trap entry saves the mode in bit 8 (SPP) and bit 1 (SIE) in bit 5 (SPIE), and clears bit 1. */
  lemma StatusAtTrap(x: Word, supervisor: bool)
    ensures var s := SaveStatus(x, supervisor);
      && (s & 0x100 != 0 <==> supervisor) && (s & 0x20 != 0 <==> x & 0x2 != 0) && s & 0x2 == 0
      && s & !0x122 == x & !0x122
  {
  }

  /** sret restores bit 1 from bit 5 and sets bit 5. */
  lemma StatusAtReturn(x: Word)
    ensures var s := RestoreStatus(x);
      (s & 0x2 != 0 <==> x & 0x20 != 0) && s & 0x20 != 0 && s & !0x22 == x & !0x22
  {
  }

  // ---- Fetch, decode and trap states ----------------------------------------------------------------

  lemma EntryAgrees(u: CsrUnit, cause: Word, epc: Word, value: Word)
    ensures TrapCsrs(CsrsOf(u), cause, epc, value)
            == CsrsOf(u.(sstatus := SaveStatus(u.sstatus, u.supervisor), sepc := epc, stval := value,
                         scause := cause, supervisor := true))
  {
    StatusSaved(u.sstatus, u.supervisor);
  }

  lemma CsrsKept(c: Cpu, kind: Kind, in_: In)
    requires !c.hasException && !(c.state.ExecInst? && kind.KSret?)
    ensures CsrsOf(NextCsr(c, kind, in_)) == CsrsOf(c.csr)
  {
  }

  lemma RequestFlags(c: Cpu, in_: In, i: Instr, w: Wires)
    requires Flags(c, i) && c.state.RdInstReq? && w.misaligned == AlignmentOverflow(c)
    ensures Flags(NextWith(c, w, in_), i) && !Executing(NextWith(c, w, in_))
  {
    FetchAligned(c.pc);
  }

  lemma RequestView(c: Cpu, in_: In, i: Instr, w: Wires, mem: Memory)
    requires Flags(c, i) && c.state.RdInstReq? && w.misaligned == AlignmentOverflow(c)
    ensures Effects(View(c, mem), Completes(c, w, in_, i), View(NextWith(c, w, in_), mem))
  {
    FetchAligned(c.pc);
  }

  lemma WaitFlags(c: Cpu, in_: In, i: Instr, i': Instr, w: Wires)
    requires Flags(c, i) && c.state.RdInstWait? && !(in_.done && in_.timeout)
    ensures Flags(NextWith(c, w, in_), i') && !Executing(NextWith(c, w, in_))
  {
  }

  lemma WaitView(c: Cpu, in_: In, i: Instr, w: Wires, mem: Memory)
    requires Flags(c, i) && c.state.RdInstWait? && !(in_.done && in_.timeout)
    ensures Effects(View(c, mem), Completes(c, w, in_, i), View(NextWith(c, w, in_), mem))
  {
  }

  lemma DecodeFlags(c: Cpu, in_: In, i: Instr, w: Wires)
    requires Flags(c, i) && c.state.DecodeInst?
    ensures Flags(NextWith(c, w, in_), i)
  {
    CsrsKept(c, w.kind, in_);
    var n := NextWith(c, w, in_);
    assert n.state.ExecInst? && n.csr.stvec == c.csr.stvec && !n.hasException && !n.pcChanged && !n.rdReq && !n.wrReq;
  }

  lemma DecodeView(c: Cpu, in_: In, i: Instr, w: Wires, mem: Memory)
    requires Flags(c, i) && c.state.DecodeInst?
    ensures View(NextWith(c, w, in_), mem) == View(c, mem)
  {
  }

  lemma TrapFlags(c: Cpu, in_: In, i: Instr, w: Wires)
    requires Flags(c, i) && c.state.CheckExc?
    ensures Flags(NextWith(c, w, in_), i) && NextWith(c, w, in_).state.RdInstReq?
  {
  }

  /** The last edge of a pass writes the pc, and the trap if there is one, that were recorded. */
  lemma TrapView(c: Cpu, in_: In, i: Instr, w: Wires, mem: Memory)
    requires Flags(c, i) && c.state.CheckExc?
    ensures View(NextWith(c, w, in_), mem) == View(c, mem)
  {
    EntryAgrees(c.csr, c.excCause, c.excPc, c.excValue);
  }

  // ---- Execution without memory --------------------------------------------------------------------

  predicate AtExec(c: Cpu) { c.state.ExecInst? && !c.hasException && !c.pcChanged }

  /** The registers after the edge. */
  function NextRegs(c: Cpu, w: Wires, in_: In): Regs {
    if GprWrite(c, w, in_) then WriteReg(c.regs, c.f.rd, GprIn(c, w)) else c.regs
  }

  lemma CsrsReturn(c: Cpu, in_: In)
    requires AtExec(c)
    ensures CsrsOf(NextCsr(c, KSret, in_)) == ReturnFromTrap(CsrsOf(c.csr))
  {
    StatusRestored(c.csr.sstatus);
  }

  ghost predicate Shows(a: Arch, c: Cpu) {
    a.pc == c.pc && a.regs == c.regs && a.csrs == CsrsOf(c.csr)
  }

  lemma ExecUpper(a: Arch, c: Cpu, rd: Reg, upper: bv20, w: Wires, in_: In)
    requires AtExec(c) && Shows(a, c) && c.f.rd == rd && c.f.imm == upper as bv32 << 12
    ensures w.kind.KLui? ==> Exec(a, Lui(rd, upper)) == Done(a.(pc := NextPc(c, w), regs := NextRegs(c, w, in_)))
    ensures w.kind.KAuipc? ==> Exec(a, Auipc(rd, upper)) == Done(a.(pc := NextPc(c, w), regs := NextRegs(c, w, in_)))
  {
  }

  lemma ExecJump(a: Arch, c: Cpu, rd: Reg, parcels: bv20, w: Wires, in_: In)
    requires AtExec(c) && Shows(a, c) && w.kind.KJal? && c.f.rd == rd && c.f.imm == JumpOffset(parcels)
    ensures Exec(a, Jal(rd, parcels)) == Done(a.(pc := NextPc(c, w), regs := NextRegs(c, w, in_)))
  {
  }

  lemma ExecJumpRegister(a: Arch, c: Cpu, rd: Reg, rs1: Reg, imm: bv12, w: Wires, in_: In)
    requires AtExec(c) && Shows(a, c) && w.kind.KJalr?
    requires c.f.rd == rd && c.f.rs1 == rs1 && c.f.imm == SignExtend12(imm)
    ensures Exec(a, Jalr(rd, rs1, imm)) == Done(a.(pc := NextPc(c, w), regs := NextRegs(c, w, in_)))
  {
  }

  lemma ExecBranch(a: Arch, c: Cpu, i: Instr, w: Wires, in_: In)
    requires AtExec(c) && Shows(a, c) && i.Branch? && w.kind.KBranch?
    requires c.f.imm == BranchOffset(i.distance)
    requires w.taken == Holds(i.cond, ReadReg(a.regs, i.rs1), ReadReg(a.regs, i.rs2))
    ensures Exec(a, i) == Done(a.(pc := NextPc(c, w), regs := NextRegs(c, w, in_)))
  {
  }

  lemma BranchWire(c: Cpu, i: Instr, w: Wires)
    requires i.Branch? && Delivers(i, w.kind, c.f) && w.taken == BranchTaken(F3(c.f), Src1(c), Src2(c))
    ensures w.taken == Holds(i.cond, ReadReg(c.regs, i.rs1), ReadReg(c.regs, i.rs2))
  {
    FunctLow(0, CondBits(i.cond));
    BranchDecides(i.cond, Src1(c), Src2(c));
  }

  lemma ExecFence(a: Arch, c: Cpu, operands: bv25, w: Wires, in_: In)
    requires AtExec(c) && Shows(a, c) && w.kind.KMiscMem?
    ensures Exec(a, Fence(operands)) == Done(a.(pc := NextPc(c, w), regs := NextRegs(c, w, in_)))
  {
  }

  lemma ExecSret(a: Arch, c: Cpu, w: Wires, in_: In)
    requires AtExec(c) && Shows(a, c) && w.kind.KSret?
    ensures Exec(a, Sret)
            == Done(a.(pc := NextPc(c, w), regs := NextRegs(c, w, in_), csrs := ReturnFromTrap(a.csrs)))
  {
  }

  lemma AluResult(op: RegOp, x: Word, y: Word, funct: bv10)
    requires funct == Funct(RegOpBits(op).0, RegOpBits(op).1)
    ensures Alu(funct, x, y) == Compute(op, x, y)
  {
    AluComputes(op, x, y);
  }

  function OpOfShift(op: ShiftOp): RegOp {
    match op case SLLI => SLL case SRLI => SRL case SRAI => SRA
  }

  lemma ShiftResult(op: ShiftOp, x: Word, y: Word, funct: bv10, shamt: bv5)
    requires funct == Funct(ShiftOpBits(op).0, ShiftOpBits(op).1) && (y & 0x1F) as bv5 == shamt
    ensures Alu(funct, x, y) == ShiftBy(op, x, shamt)
  {
    AluResult(OpOfShift(op), x, y, funct);
  }

  /** The value a register-writing ALU instruction should produce. */
  function AluValue(a: Arch, i: Instr): Word
    requires i.Immediate? || i.Shift? || i.Register?
  {
    match i
    case Immediate(iop, _, rs1, imm) => Compute(OpOfImm(iop), ReadReg(a.regs, rs1), SignExtend12(imm))
    case Shift(sop, _, rs1, shamt) => ShiftBy(sop, ReadReg(a.regs, rs1), shamt)
    case Register(rop, _, rs1, rs2) => Compute(rop, ReadReg(a.regs, rs1), ReadReg(a.regs, rs2))
  }

  lemma ImmediateWire(iop: ImmOp, x: Word, imm: bv12, f: Fields)
    requires f.imm == SignExtend12(imm) && f.funct == Funct(0, ImmOpBits(iop))
    ensures Alu(f.funct, x, f.imm) == Compute(OpOfImm(iop), x, SignExtend12(imm))
  {
    AluResult(OpOfImm(iop), x, f.imm, f.funct);
  }

  lemma AluWire(a: Arch, c: Cpu, i: Instr, w: Wires)
    requires Shows(a, c) && (i.Immediate? || i.Shift? || i.Register?) && Delivers(i, w.kind, c.f)
    requires w.alu == Alu(c.f.funct, Src1(c), if w.kind.KArlogImm? then c.f.imm else Src2(c))
    ensures w.alu == AluValue(a, i)
  {
    hide Alu, Compute, ShiftBy, SignExtend12;
    match i {
      case Immediate(iop, _, rs1, imm) => ImmediateWire(iop, ReadReg(a.regs, rs1), imm, c.f);
      case Shift(sop, _, rs1, shamt) => ShiftResult(sop, ReadReg(a.regs, rs1), c.f.imm, c.f.funct, shamt);
      case Register(rop, _, rs1, rs2) => AluResult(rop, ReadReg(a.regs, rs1), ReadReg(a.regs, rs2), c.f.funct);
    }
  }

  lemma ExecAlu(a: Arch, c: Cpu, i: Instr, w: Wires, in_: In)
    requires AtExec(c) && Shows(a, c) && (i.Immediate? || i.Shift? || i.Register?)
    requires (w.kind.KArlog? || w.kind.KArlogImm?) && c.f.rd == i.rd && w.alu == AluValue(a, i)
    ensures Exec(a, i) == Done(a.(pc := NextPc(c, w), regs := NextRegs(c, w, in_)))
  {
    hide Compute, ShiftBy;
  }

  /** What the units around the state machine compute for the instruction. */
  function Computed(a: Arch, c: Cpu, w: Wires, in_: In): Arch {
    a.(pc := NextPc(c, w), regs := NextRegs(c, w, in_),
       csrs := if w.kind.KSret? then ReturnFromTrap(a.csrs) else a.csrs)
  }

  /** The branch tester and the ALU show what their inputs say. */
  ghost predicate Wired(c: Cpu, w: Wires) {
    && w.taken == BranchTaken(F3(c.f), Src1(c), Src2(c))
    && w.alu == Alu(c.f.funct, Src1(c), if w.kind.KArlogImm? then c.f.imm else Src2(c))
  }

  lemma AluComputed(a: Arch, c: Cpu, i: Instr, w: Wires, in_: In)
    requires AtExec(c) && Shows(a, c) && Delivers(i, w.kind, c.f) && Wired(c, w)
    requires i.Immediate? || i.Shift? || i.Register?
    ensures Exec(a, i) == Done(a.(pc := NextPc(c, w), regs := NextRegs(c, w, in_))) && !w.kind.KSret?
  {
    AluWire(a, c, i, w);
    ExecAlu(a, c, i, w, in_);
  }

  lemma BranchComputed(a: Arch, c: Cpu, i: Instr, w: Wires, in_: In)
    requires AtExec(c) && Shows(a, c) && Delivers(i, w.kind, c.f) && Wired(c, w) && i.Branch?
    ensures Exec(a, i) == Done(a.(pc := NextPc(c, w), regs := NextRegs(c, w, in_))) && !w.kind.KSret?
  {
    BranchWire(c, i, w);
    ExecBranch(a, c, i, w, in_);
  }

  lemma JumpComputed(a: Arch, c: Cpu, i: Instr, w: Wires, in_: In)
    requires AtExec(c) && Shows(a, c) && Delivers(i, w.kind, c.f) && (i.Lui? || i.Auipc? || i.Jal? || i.Jalr?)
    ensures Exec(a, i) == Done(a.(pc := NextPc(c, w), regs := NextRegs(c, w, in_))) && !w.kind.KSret?
  {
    hide NextPc, NextRegs, Exec;
    match i {
      case Lui(rd, upper) => ExecUpper(a, c, rd, upper, w, in_);
      case Auipc(rd, upper) => ExecUpper(a, c, rd, upper, w, in_);
      case Jal(rd, parcels) => ExecJump(a, c, rd, parcels, w, in_);
      case Jalr(rd, rs1, imm) => ExecJumpRegister(a, c, rd, rs1, imm, w, in_);
    }
  }

  lemma SystemComputed(a: Arch, c: Cpu, i: Instr, w: Wires, in_: In)
    requires AtExec(c) && Shows(a, c) && Delivers(i, w.kind, c.f) && (i.Fence? || i.Sret?)
    ensures Exec(a, i) == Done(Computed(a, c, w, in_))
  {
    match i {
      case Fence(operands) => ExecFence(a, c, operands, w, in_);
      case Sret => ExecSret(a, c, w, in_);
    }
  }

  /** Every instruction that neither accesses memory nor calls the environment does, in the
      execute state, what the instruction set says. */
  lemma ExecComputes(a: Arch, c: Cpu, i: Instr, w: Wires, in_: In)
    requires AtExec(c) && Shows(a, c) && Delivers(i, w.kind, c.f) && Wired(c, w) && !UsesMemory(i) && !i.Ecall?
    ensures Exec(a, i) == Done(Computed(a, c, w, in_))
  {
    hide NextPc, NextRegs, Exec, ReturnFromTrap, Wired;
    match i {
      case Lui(_, _) => JumpComputed(a, c, i, w, in_);
      case Auipc(_, _) => JumpComputed(a, c, i, w, in_);
      case Jal(_, _) => JumpComputed(a, c, i, w, in_);
      case Jalr(_, _, _) => JumpComputed(a, c, i, w, in_);
      case Branch(_, _, _, _) => BranchComputed(a, c, i, w, in_);
      case Fence(_) => SystemComputed(a, c, i, w, in_);
      case Sret => SystemComputed(a, c, i, w, in_);
      case Immediate(_, _, _, _) => AluComputed(a, c, i, w, in_);
      case Shift(_, _, _, _) => AluComputed(a, c, i, w, in_);
      case Register(_, _, _, _) => AluComputed(a, c, i, w, in_);
    }
  }

  predicate Plain(k: Kind) { !k.KLoad? && !k.KStore? && !k.KEcall? }

  lemma KindIsPlain(i: Instr, kind: Kind, f: Fields)
    requires Delivers(i, kind, f)
    ensures Plain(kind) <==> !UsesMemory(i) && !i.Ecall?
  {
  }

  lemma DispatchKeepsUnits(c: Cpu, d: Cpu, w: Wires)
    ensures Dispatch(c, d, w).regs == d.regs && Dispatch(c, d, w).csr == d.csr
  {
    if w.kind.KLoad? || w.kind.KStore? {
    } else if w.kind.KEcall? {
    } else if w.intr {
    } else {
    }
  }

  lemma ExecKeepsUnits(c: Cpu, d: Cpu, w: Wires)
    ensures NextExec(c, d, w).regs == d.regs && NextExec(c, d, w).csr == d.csr
  {
    DispatchKeepsUnits(c, d, w);
  }

  lemma ExecUnitsWritten(c: Cpu, w: Wires, in_: In)
    requires AtExec(c)
    ensures var n := NextWith(c, w, in_); n.regs == NextRegs(c, w, in_) && n.csr == NextCsr(c, w.kind, in_)
  {
    ExecKeepsUnits(c, Datapath(c, w, in_), w);
  }

  lemma ExecStateWritten(c: Cpu, w: Wires, in_: In)
    requires AtExec(c) && Plain(w.kind)
    ensures var n := NextWith(c, w, in_);
      && n.state.CheckExc?
      && n.rdReq == c.rdReq && n.wrReq == c.wrReq && n.hasException == w.intr
      && (w.intr ==> n.excCause == w.intrCause && n.excPc == NextPc(c, w) && n.excValue == c.excValue)
      && (if n.pcChanged then n.pc == NextPc(c, w) else n.pc == c.pc && NextPc(c, w) == Plus(c.pc, 4))
  {
  }

  lemma CsrsComputed(c: Cpu, kind: Kind, in_: In)
    requires AtExec(c)
    ensures CsrsOf(NextCsr(c, kind, in_)) == if kind.KSret? then ReturnFromTrap(CsrsOf(c.csr)) else CsrsOf(c.csr)
    ensures NextCsr(c, kind, in_).stvec == c.csr.stvec
  {
    if kind.KSret? {
      CsrsReturn(c, in_);
    } else {
      CsrsKept(c, kind, in_);
    }
  }

  /** The view of a CPU in its last state. */
  lemma ViewOf(n: Cpu, mem: Memory, next: Arch)
    requires n.state.CheckExc? && n.regs == next.regs && CsrsOf(n.csr) == next.csrs && next.mem == mem
    requires if n.pcChanged then n.pc == next.pc else Plus(n.pc, 4) == next.pc
    ensures !n.hasException ==> View(n, mem) == next
    ensures n.hasException && n.excPc == next.pc ==> View(n, mem) == EnterTrap(next, n.excCause, next.pc, n.excValue)
  {
  }

  /** After the execute edge the architectural state is what was computed, or the interrupt that
      follows it: the saved pc is the computed one, even after a jump. */
  lemma ExecCommits(a: Arch, c: Cpu, w: Wires, in_: In)
    requires AtExec(c) && Plain(w.kind) && Shows(a, c)
    ensures var next := Computed(a, c, w, in_);
      View(NextWith(c, w, in_), a.mem)
      == if w.intr then EnterTrap(next, w.intrCause, next.pc, c.excValue) else next
  {
    ExecStateWritten(c, w, in_);
    ExecUnitsWritten(c, w, in_);
    CsrsComputed(c, w.kind, in_);
    ViewOf(NextWith(c, w, in_), a.mem, Computed(a, c, w, in_));
  }

  lemma EndFlags(n: Cpu, i: Instr)
    requires n.state.CheckExc? && !n.rdReq && !n.wrReq && n.csr.stvec & 3 != 1
    ensures Flags(n, i)
  {
  }

  lemma ExecFlags(c: Cpu, i: Instr, w: Wires, in_: In)
    requires AtExec(c) && Plain(w.kind) && !c.rdReq && !c.wrReq && c.csr.stvec & 3 != 1
    ensures Flags(NextWith(c, w, in_), i)
  {
    ExecStateWritten(c, w, in_);
    ExecUnitsWritten(c, w, in_);
    CsrsComputed(c, w.kind, in_);
    EndFlags(NextWith(c, w, in_), i);
  }

  /** The CPU `n` has just recorded a trap of the instruction that `c` was at. */
  ghost predicate Trapped(n: Cpu, c: Cpu, cause: Word, value: Word) {
    && n.state.CheckExc? && n.hasException && n.excCause == cause && n.excPc == c.pc && n.excValue == value
    && n.regs == c.regs && CsrsOf(n.csr) == CsrsOf(c.csr)
  }

  lemma TrappedView(a: Arch, n: Cpu, c: Cpu, cause: Word, value: Word)
    requires Trapped(n, c, cause, value) && Shows(a, c)
    ensures View(n, a.mem) == EnterTrap(a, cause, a.pc, value)
  {
  }

  lemma EcallTraps(c: Cpu, w: Wires, in_: In)
    requires AtExec(c) && w.kind.KEcall?
    ensures var n := NextWith(c, w, in_);
      && n.rdReq == c.rdReq && n.wrReq == c.wrReq
      && Trapped(n, c, if c.csr.supervisor then SUPERVISOR_ECALL else USER_ECALL, c.pc)
  {
    hide NextCsr, GprIn, NextPc;
    CsrsKept(c, w.kind, in_);
  }

  lemma EcallRaises(a: Arch)
    ensures Exec(a, Ecall) == Raise(if a.csrs.supervisor then SUPERVISOR_ECALL else USER_ECALL, a.pc)
  {
  }

  // ---- Memory instructions -------------------------------------------------------------------------

  /** The address, the width and the alignment check that the memory port shows. */
  lemma AccessShown(c: Cpu, i: Instr, kind: Kind)
    requires Executing(c) && Delivers(i, kind, c.f) && UsesMemory(i) && Legal(i)
    ensures MaAddr(c) == Plus(ReadReg(c.regs, i.rs1), SignExtend12(i.imm))
    ensures WidthOf(MaMask(c)) == i.width && AlignmentOverflow(c) == Crosses(MaAddr(c), i.width)
    ensures i.Load? <==> kind.KLoad?
    ensures i.Store? <==> kind.KStore?
  {
    var zx := i.Load? && i.zeroExtend;
    FunctLow(0, WidthBits(i.width) | if zx then 4 else 0);
    WidthOfMask(i.width, zx);
    OverflowIsCrossing(MaAddr(c), i.width, zx);
  }

  lemma AccessStarts(c: Cpu, w: Wires, in_: In)
    requires AtExec(c) && (w.kind.KLoad? || w.kind.KStore?) && !w.misaligned
    ensures var n := NextWith(c, w, in_);
      && n == c.(state := ExecInstMemWait, rdReq := c.rdReq || w.kind.KLoad?, wrReq := c.wrReq || w.kind.KStore?,
                 csr := NextCsr(c, w.kind, in_))
      && (forall mem :: View(n, mem) == View(c, mem))
  {
    hide NextCsr, GprIn, NextPc;
    CsrsKept(c, w.kind, in_);
  }

  lemma AccessRaises(c: Cpu, w: Wires, in_: In)
    requires AtExec(c) && (w.kind.KLoad? || w.kind.KStore?) && w.misaligned
    ensures var n := NextWith(c, w, in_);
      && n.rdReq == c.rdReq && n.wrReq == c.wrReq
      && Trapped(n, c, if w.kind.KLoad? then LOAD_MISALIGNED else STORE_MISALIGNED, w.addr)
  {
    hide NextCsr, GprIn, NextPc;
    CsrsKept(c, w.kind, in_);
  }

  lemma MisalignedRaise(a: Arch, i: Instr)
    requires UsesMemory(i) && Crosses(Address(a, i), i.width)
    ensures Exec(a, i) == Raise(if i.Load? then LOAD_MISALIGNED else STORE_MISALIGNED, Address(a, i))
  {
  }

  predicate AtMemory(c: Cpu) { c.state.ExecInstMemWait? && !c.hasException && !c.pcChanged }

  lemma AccessWaits(c: Cpu, w: Wires, in_: In)
    requires AtMemory(c) && !in_.done && !in_.timeout
    ensures var n := NextWith(c, w, in_);
      n == c.(csr := NextCsr(c, w.kind, in_)) && (forall mem :: View(n, mem) == View(c, mem))
  {
    CsrsKept(c, w.kind, in_);
  }

  lemma AccessFaults(c: Cpu, w: Wires, in_: In)
    requires AtMemory(c) && in_.timeout && !in_.done
    ensures var n := NextWith(c, w, in_);
      && !n.rdReq && !n.wrReq && Trapped(n, c, if w.kind.KLoad? then LOAD_FAULT else STORE_FAULT, w.addr)
  {
    CsrsKept(c, w.kind, in_);
  }

  /** An acknowledged access ends the instruction; the interrupt that may follow saves pc + 4. */
  lemma AccessEnds(c: Cpu, w: Wires, in_: In, next: Arch)
    requires AtMemory(c) && in_.done && !in_.timeout
    requires next.regs == (if c.rdReq then WriteReg(c.regs, c.f.rd, w.loaded) else c.regs)
    requires next.pc == Plus(c.pc, 4) && next.csrs == CsrsOf(c.csr)
    ensures var n := NextWith(c, w, in_);
      && n.state.CheckExc? && !n.rdReq && !n.wrReq && n.csr.stvec == c.csr.stvec
      && View(n, next.mem) == if w.intr then EnterTrap(next, w.intrCause, next.pc, c.excValue) else next
  {
    CsrsKept(c, w.kind, in_);
    ViewOf(NextWith(c, w, in_), next.mem, next);
  }

  lemma LoadResult(a: Arch, i: Instr, v: Word)
    requires i.Load? && !Crosses(Address(a, i), i.width)
    requires v == Extend(i.width, i.zeroExtend, ReadBytes(a.mem, Address(a, i), i.width))
    ensures Exec(a, i) == Done(a.(pc := Plus(a.pc, 4), regs := WriteReg(a.regs, i.rd, v)))
  {
  }

  lemma StoreResult(a: Arch, i: Instr)
    requires i.Store? && !Crosses(Address(a, i), i.width)
    ensures Exec(a, i) == Done(a.(pc := Plus(a.pc, 4),
                                  mem := WriteBytes(a.mem, Address(a, i), i.width, ReadReg(a.regs, i.rs2))))
  {
  }

  lemma LoadWire(c: Cpu, i: Instr, kind: Kind, data: Word)
    requires i.Load? && Legal(i) && Delivers(i, kind, c.f)
    ensures LoadedValue(F3(c.f), data) == Extend(i.width, i.zeroExtend, LowBytes(i.width, data))
  {
    FunctLow(0, WidthBits(i.width) | if i.zeroExtend then 4 else 0);
    LoadExtends(i.width, i.zeroExtend, data);
  }

  // ---- One clock edge ------------------------------------------------------------------------------

  /** The interrupt wires only ask for what may be taken. */
  ghost predicate Lawful(c: Cpu, w: Wires) {
    w.intr ==> TakesInterrupts(CsrsOf(c.csr)) && IsInterrupt(w.intrCause)
  }

  lemma HighBit(x: Word)
    ensures IsInterrupt(x | 0x8000_0000)
  {
  }

  lemma SelectionIsLawful(c: Cpu, w: Wires)
    requires w.intr == HasIntr(c.csr) && w.intrCause == IntrCause(c.csr)
    ensures Lawful(c, w)
  {
    HighBit(LastSet(Bits.And(c.csr.sip, c.csr.sie), 32));
  }

  lemma ExecPlain(c: Cpu, mem: Memory, i: Instr, w: Wires, in_: In)
    requires AtExec(c) && Delivers(i, w.kind, c.f) && Wired(c, w) && Lawful(c, w) && !UsesMemory(i) && !i.Ecall?
    ensures Effects(View(c, mem), Completes(c, w, in_, i), View(NextWith(c, w, in_), mem))
  {
    hide NextWith, Exec, Delivers, Wired, Computed;
    var a := View(c, mem);
    ExecComputes(a, c, i, w, in_);
    KindIsPlain(i, w.kind, c.f);
    ExecCommits(a, c, w, in_);
  }

  lemma ExecEcall(c: Cpu, mem: Memory, w: Wires, in_: In)
    requires AtExec(c) && w.kind.KEcall?
    ensures Effects(View(c, mem), Completes(c, w, in_, Ecall), View(NextWith(c, w, in_), mem))
  {
    var a, cause := View(c, mem), if c.csr.supervisor then SUPERVISOR_ECALL else USER_ECALL;
    EcallTraps(c, w, in_);
    EcallRaises(a);
    TrappedView(a, NextWith(c, w, in_), c, cause, c.pc);
  }

  lemma ExecAccess(c: Cpu, mem: Memory, i: Instr, w: Wires, in_: In)
    requires AtExec(c) && Delivers(i, w.kind, c.f) && UsesMemory(i) && Legal(i)
    requires w.addr == MaAddr(c) && w.misaligned == AlignmentOverflow(c)
    ensures Effects(View(c, mem), Completes(c, w, in_, i), View(NextWith(c, w, in_), mem))
  {
    var a := View(c, mem);
    AccessShown(c, i, w.kind);
    if w.misaligned {
      AccessRaises(c, w, in_);
      MisalignedRaise(a, i);
      TrappedView(a, NextWith(c, w, in_), c, if i.Load? then LOAD_MISALIGNED else STORE_MISALIGNED, w.addr);
    } else {
      AccessStarts(c, w, in_);
    }
  }

  lemma ExecAccessFlags(c: Cpu, i: Instr, w: Wires, in_: In)
    requires Flags(c, i) && AtExec(c) && Delivers(i, w.kind, c.f) && UsesMemory(i) && Legal(i)
    requires w.addr == MaAddr(c) && w.misaligned == AlignmentOverflow(c)
    ensures Flags(NextWith(c, w, in_), i)
  {
    hide NextWith, Delivers, View;
    AccessShown(c, i, w.kind);
    if w.misaligned {
      AccessRaises(c, w, in_);
      EndFlags(NextWith(c, w, in_), i);
    } else {
      AccessStarts(c, w, in_);
      CsrsKept(c, w.kind, in_);
      assert MaAddr(NextWith(c, w, in_)) == MaAddr(c);
    }
  }

  lemma LoadEnds(s: Sys, i: Instr, w: Wires, in_: In)
    requires AtMemory(s.cpu) && s.cpu.rdReq && !s.cpu.wrReq && Delivers(i, w.kind, s.cpu.f) && i.Load? && Legal(i)
    requires !Crosses(MaAddr(s.cpu), i.width) && Answers(s, in_) && in_.done
    requires w.loaded == LoadedValue(F3(s.cpu.f), in_.data) && Lawful(s.cpu, w)
    ensures Effects(Abs(s), Completes(s.cpu, w, in_, i), View(NextWith(s.cpu, w, in_), s.mem))
  {
    hide NextWith, Exec;
    var c, a := s.cpu, Abs(s);
    AccessShown(c, i, w.kind);
    LoadWire(c, i, w.kind, in_.data);
    LoadResult(a, i, w.loaded);
    AccessEnds(c, w, in_, a.(pc := Plus(a.pc, 4), regs := WriteReg(a.regs, i.rd, w.loaded)));
  }

  lemma StoreEnds(s: Sys, i: Instr, w: Wires, in_: In)
    requires AtMemory(s.cpu) && !s.cpu.rdReq && s.cpu.wrReq && Delivers(i, w.kind, s.cpu.f) && i.Store? && Legal(i)
    requires !Crosses(MaAddr(s.cpu), i.width) && in_.done && !in_.timeout && Lawful(s.cpu, w)
    ensures Effects(Abs(s), Completes(s.cpu, w, in_, i), View(NextWith(s.cpu, w, in_), NextMemory(s, in_)))
  {
    hide NextWith;
    var c, a := s.cpu, Abs(s);
    AccessShown(c, i, w.kind);
    StoreResult(a, i);
    AccessEnds(c, w, in_, a.(pc := Plus(a.pc, 4), mem := NextMemory(s, in_)));
  }

  lemma AccessFails(s: Sys, i: Instr, w: Wires, in_: In)
    requires AtMemory(s.cpu) && Delivers(i, w.kind, s.cpu.f) && UsesMemory(i) && Legal(i)
    requires in_.timeout && !in_.done && w.addr == MaAddr(s.cpu) && !Crosses(MaAddr(s.cpu), i.width)
    ensures Effects(Abs(s), Completes(s.cpu, w, in_, i), View(NextWith(s.cpu, w, in_), s.mem))
  {
    var c, a := s.cpu, Abs(s);
    AccessShown(c, i, w.kind);
    AccessFaults(c, w, in_);
    TrappedView(a, NextWith(c, w, in_), c, if i.Load? then LOAD_FAULT else STORE_FAULT, w.addr);
  }

  lemma MemoryEffects(s: Sys, i: Instr, w: Wires, in_: In)
    requires AtMemory(s.cpu) && Flags(s.cpu, i) && Delivers(i, w.kind, s.cpu.f) && Legal(i) && Answers(s, in_)
    requires w.addr == MaAddr(s.cpu) && w.loaded == LoadedValue(F3(s.cpu.f), in_.data) && Lawful(s.cpu, w)
    ensures Effects(Abs(s), Completes(s.cpu, w, in_, i), View(NextWith(s.cpu, w, in_), NextMemory(s, in_)))
  {
    if in_.timeout {
      AccessFails(s, i, w, in_);
    } else if !in_.done {
      AccessWaits(s.cpu, w, in_);
    } else if i.Load? {
      LoadEnds(s, i, w, in_);
    } else {
      StoreEnds(s, i, w, in_);
    }
  }

  lemma MemoryFlags(c: Cpu, i: Instr, w: Wires, in_: In)
    requires AtMemory(c) && Flags(c, i) && !(in_.done && in_.timeout)
    ensures var n := NextWith(c, w, in_);
      Flags(n, i) && (Executing(n) ==> n.f == c.f && n.ir == c.ir && n.pc == c.pc && !in_.done && !in_.timeout)
  {
    hide NextCsr, GprIn, NextPc;
    CsrsKept(c, w.kind, in_);
    var n := NextWith(c, w, in_);
    if in_.done || in_.timeout {
      assert n.csr.stvec == c.csr.stvec;
      EndFlags(n, i);
    } else {
      AccessWaits(c, w, in_);
      assert MaAddr(n) == MaAddr(c);
    }
  }

  /** The wires that the units show. */
  ghost predicate Shown(c: Cpu, w: Wires, in_: In) {
    && Wired(c, w) && Lawful(c, w) && w.addr == MaAddr(c) && w.misaligned == AlignmentOverflow(c)
    && w.loaded == LoadedValue(F3(c.f), in_.data)
  }

  /** What is delivered when the execute states are entered. */
  ghost predicate Ready(c: Cpu, i: Instr, w: Wires) {
    && (c.state.DecodeInst? ==> Delivers(i, w.kind, w.decoded))
    && (Executing(c) ==> Delivers(i, w.kind, c.f))
  }

  predicate FetchEnds(c: Cpu, in_: In) { c.state.RdInstWait? && in_.done }

  lemma EdgeFlags(c: Cpu, i: Instr, i': Instr, w: Wires, in_: In)
    requires Flags(c, i) && Legal(i) && Ready(c, i, w) && Shown(c, w, in_) && !(in_.done && in_.timeout)
    requires i' == i || FetchEnds(c, in_)
    ensures Flags(NextWith(c, w, in_), i')
  {
    match c.state {
      case RdInstReq => RequestFlags(c, in_, i, w);
      case RdInstWait => WaitFlags(c, in_, i, i', w);
      case DecodeInst => DecodeFlags(c, in_, i, w);
      case ExecInst =>
        KindIsPlain(i, w.kind, c.f);
        if UsesMemory(i) {
          ExecAccessFlags(c, i, w, in_);
        } else if i.Ecall? {
          EcallTraps(c, w, in_);
          EndFlags(NextWith(c, w, in_), i);
        } else {
          ExecFlags(c, i, w, in_);
        }
      case ExecInstMemWait => MemoryFlags(c, i, w, in_);
      case CheckExc => TrapFlags(c, in_, i, w);
    }
  }

  lemma EdgeEffects(s: Sys, i: Instr, w: Wires, in_: In)
    requires Flags(s.cpu, i) && Legal(i) && Ready(s.cpu, i, w) && Shown(s.cpu, w, in_) && Answers(s, in_)
    ensures Effects(Abs(s), Completes(s.cpu, w, in_, i), View(NextWith(s.cpu, w, in_), NextMemory(s, in_)))
  {
    hide NextWith, View, Delivers, Wired, Lawful, IsaStep, Sensible;
    var c := s.cpu;
    match c.state {
      case RdInstReq => RequestView(c, in_, i, w, s.mem);
      case RdInstWait => WaitView(c, in_, i, w, s.mem);
      case DecodeInst => DecodeView(c, in_, i, w, s.mem);
      case ExecInst =>
        if UsesMemory(i) {
          ExecAccess(c, s.mem, i, w, in_);
        } else if i.Ecall? {
          KindDelivered(w.kind, c.f);
          ExecEcall(c, s.mem, w, in_);
        } else {
          ExecPlain(c, s.mem, i, w, in_);
        }
      case ExecInstMemWait => MemoryEffects(s, i, w, in_);
      case CheckExc => TrapView(c, in_, i, w, s.mem);
    }
  }

  lemma ExecNext(c: Cpu, w: Wires, in_: In)
    requires AtExec(c)
    ensures var n := NextWith(c, w, in_);
      !n.state.DecodeInst? && (Executing(n) ==> n.ir == c.ir && n.f == c.f && n.pc == c.pc)
  {
    hide NextWith, View;
    if Plain(w.kind) {
      ExecStateWritten(c, w, in_);
    } else if w.kind.KEcall? {
      EcallTraps(c, w, in_);
    } else if w.misaligned {
      AccessRaises(c, w, in_);
    } else {
      AccessStarts(c, w, in_);
    }
  }

  lemma MemoryLeaves(c: Cpu, w: Wires, in_: In)
    requires c.state.ExecInstMemWait? && (in_.done || in_.timeout)
    ensures NextWith(c, w, in_).state.CheckExc?
  {
  }

  lemma MemoryNext(c: Cpu, w: Wires, in_: In)
    requires AtMemory(c)
    ensures var n := NextWith(c, w, in_);
      !n.state.DecodeInst? && (Executing(n) ==> n.ir == c.ir && n.f == c.f && n.pc == c.pc && !in_.done)
  {
    if in_.done || in_.timeout {
      MemoryLeaves(c, w, in_);
    } else {
      AccessWaits(c, w, in_);
    }
  }

  lemma FetchNext(c: Cpu, w: Wires, in_: In)
    requires c.state.RdInstReq? || c.state.RdInstWait? || c.state.CheckExc?
    ensures var n := NextWith(c, w, in_);
      !Executing(n) && (n.state.DecodeInst? ==> FetchEnds(c, in_) && n.ir == in_.data && n.pc == c.pc)
  {
    hide NextCsr, GprIn, GprWrite, NextPc, MaAddr;
  }

  lemma DecodeNext(c: Cpu, w: Wires, in_: In)
    requires c.state.DecodeInst?
    ensures var n := NextWith(c, w, in_); n.state.ExecInst? && n.ir == c.ir && n.pc == c.pc && n.f == w.decoded
  {
  }

  /** The instruction register and the pc stay put until the instruction has been executed. */
  lemma EdgeKeeps(c: Cpu, i: Instr, w: Wires, in_: In)
    requires Flags(c, i)
    ensures var n := NextWith(c, w, in_);
      && (Executing(n) ==>
            && (c.state.DecodeInst? || Executing(c)) && n.ir == c.ir && n.pc == c.pc
            && n.f == (if c.state.DecodeInst? then w.decoded else c.f) && !(c.wrReq && in_.done))
      && (n.state.DecodeInst? ==> FetchEnds(c, in_) && n.ir == in_.data && n.pc == c.pc && !c.wrReq)
  {
    hide NextWith;
    match c.state {
      case ExecInst => ExecNext(c, w, in_);
      case ExecInstMemWait => MemoryNext(c, w, in_);
      case RdInstReq => FetchNext(c, w, in_);
      case RdInstWait => FetchNext(c, w, in_);
      case DecodeInst => DecodeNext(c, w, in_);
      case CheckExc => FetchNext(c, w, in_);
    }
  }

  lemma EdgeFetched(s: Sys, i: Instr, w: Wires, in_: In, word: Word, word': Word)
    requires Flags(s.cpu, i) && Fetched(s.cpu, s.mem, word)
    requires if FetchEnds(s.cpu, in_) then ReadBytes(s.mem, s.cpu.pc, Full) == word' == in_.data else word' == word
    ensures Fetched(NextWith(s.cpu, w, in_), NextMemory(s, in_), word')
  {
    EdgeKeeps(s.cpu, i, w, in_);
  }

  lemma PortAnswers(s: Sys, in_: In)
    requires Answers(s, in_) && FetchEnds(s.cpu, in_) && s.cpu.rdReq
    ensures in_.data == ReadBytes(s.mem, s.cpu.pc, Full)
  {
  }

  /** The wires of an edge, as what the lemmas above ask of them. */
  lemma WiresShown(s: Sys, i: Instr, in_: In)
    requires Inv(s, i)
    ensures var w := WiresOf(s.cpu, in_); Shown(s.cpu, w, in_) && Ready(s.cpu, i, w) && w.kind == KindOf(s.cpu.ir)
  {
    SelectionIsLawful(s.cpu, WiresOf(s.cpu, in_));
    if s.cpu.state.DecodeInst? {
      DecodeEncode(i);
    }
  }

  lemma EdgeDecoded(c: Cpu, i: Instr, w: Wires, in_: In)
    requires Flags(c, i) && Ready(c, i, w) && w.kind == KindOf(c.ir)
    ensures Decoded(NextWith(c, w, in_), i)
    ensures FetchEnds(c, in_) ==> !Executing(NextWith(c, w, in_))
  {
    EdgeKeeps(c, i, w, in_);
  }

  /** `i'` is the instruction in the instruction register after the edge. */
  predicate Follows(s: Sys, in_: In, i: Instr, i': Instr) {
    Legal(i') && if FetchEnds(s.cpu, in_) then Encode(i') == ReadBytes(s.mem, s.cpu.pc, Full) else i' == i
  }

  lemma EdgeInv(s: Sys, in_: In, i: Instr, i': Instr)
    requires Inv(s, i) && Answers(s, in_) && Follows(s, in_, i, i')
    ensures Inv(Step(s, in_), i')
  {
    var w := WiresOf(s.cpu, in_);
    WiresShown(s, i, in_);
    EdgeFlags(s.cpu, i, i', w, in_);
    EdgeDecoded(s.cpu, i, w, in_);
    if FetchEnds(s.cpu, in_) {
      PortAnswers(s, in_);
    }
    EdgeFetched(s, i, w, in_, Encode(i), Encode(i'));
  }

  /** The events that the instruction set allows in this architectural state. */
  predicate Possible(a: Arch, e: Event) {
    Sensible(a, e) && (e.FetchTrap? || (AtPc(a, e.i) && !Crosses(a.pc, Full)))
  }

  ghost predicate IsaRuns(a: Arch, es: seq<Event>, a': Arch)
    decreases es
  {
    if es == [] then a' == a
    else Possible(a, es[0]) && IsaRuns(IsaStep(a, es[0]), es[1..], a')
  }

  lemma CompletesOne(c: Cpu, w: Wires, in_: In, i: Instr)
    ensures var es := Completes(c, w, in_, i);
      |es| <= 1 && (|es| == 1 && !es[0].FetchTrap? ==> es[0].i == i && Executing(c))
  {
    match c.state {
      case ExecInst =>
      case ExecInstMemWait =>
      case _ =>
    }
  }

  lemma ExecutesHere(s: Sys, i: Instr)
    requires Legal(i) && Fetched(s.cpu, s.mem, Encode(i)) && Executing(s.cpu)
    ensures AtPc(Abs(s), i) && !Crosses(Abs(s).pc, Full)
  {
  }

  /** An edge completes at most one event, of the instruction at pc. */
  lemma CompletesHere(s: Sys, w: Wires, in_: In, i: Instr)
    requires Legal(i) && Fetched(s.cpu, s.mem, Encode(i))
    ensures var es := Completes(s.cpu, w, in_, i);
      |es| <= 1 && (|es| == 1 && !es[0].FetchTrap? ==> es[0].i == i && AtPc(Abs(s), i) && !Crosses(Abs(s).pc, Full))
  {
    CompletesOne(s.cpu, w, in_, i);
    if Executing(s.cpu) {
      ExecutesHere(s, i);
    }
  }

  lemma EffectIsRun(a: Arch, es: seq<Event>, i: Instr, b: Arch)
    requires Effects(a, es, b) && |es| <= 1
    requires |es| == 1 && !es[0].FetchTrap? ==> es[0].i == i && AtPc(a, i) && !Crosses(a.pc, Full)
    ensures IsaRuns(a, es, b)
  {
    if es != [] {
      assert es[1..] == [];
    }
  }

  /** One clock edge, whatever the memory port and the interrupt lines do: the invariant holds
      again, and the architectural state makes the step of the completed event, or none. */
  lemma EdgeRefines(s: Sys, in_: In, i: Instr, i': Instr)
    requires Inv(s, i) && Answers(s, in_) && Follows(s, in_, i, i')
    ensures Inv(Step(s, in_), i')
    ensures var es := Completes(s.cpu, WiresOf(s.cpu, in_), in_, i);
      |es| <= 1 && IsaRuns(Abs(s), es, Abs(Step(s, in_)))
  {
    EdgeInv(s, in_, i, i');
    var w := WiresOf(s.cpu, in_);
    WiresShown(s, i, in_);
    CompletesHere(s, w, in_, i);
    EdgeEffects(s, i, w, in_);
    EffectIsRun(Abs(s), Completes(s.cpu, w, in_, i), i, Abs(Step(s, in_)));
  }

  // ---- Runs --------------------------------------------------------------------------------------------

  function Run(s: Sys, ins: seq<In>): Sys
    decreases ins
  {
    if ins == [] then s else Run(Step(s, ins[0]), ins[1..])
  }

  /** The memory port answers as it should, and only supported instructions are fetched. */
  ghost predicate Served(s: Sys, ins: seq<In>)
    decreases ins
  {
    ins == []
    || (Answers(s, ins[0]) && (FetchEnds(s.cpu, ins[0]) ==> Supported(Abs(s)))
        && Served(Step(s, ins[0]), ins[1..]))
  }

  /** The edge from `c` to `n` enters the last state of a pass. */
  predicate PassEnds(c: Cpu, n: Cpu) { !c.state.CheckExc? && n.state.CheckExc? }

  predicate Waits(c: Cpu, in_: In) {
    (c.state.RdInstWait? || c.state.ExecInstMemWait?) && !in_.done && !in_.timeout
  }

  function PassTick(c: Cpu, n: Cpu): nat { if PassEnds(c, n) then 1 else 0 }

  function WaitTick(c: Cpu, in_: In): nat { if Waits(c, in_) then 1 else 0 }

  function Passes(s: Sys, ins: seq<In>): nat
    decreases ins
  {
    if ins == [] then 0
    else PassTick(s.cpu, Step(s, ins[0]).cpu) + Passes(Step(s, ins[0]), ins[1..])
  }

  function WaitingEdges(s: Sys, ins: seq<In>): nat
    decreases ins
  {
    if ins == [] then 0
    else WaitTick(s.cpu, ins[0]) + WaitingEdges(Step(s, ins[0]), ins[1..])
  }

  function Rank(c: Cpu): int {
    match c.state
    case CheckExc => -1
    case RdInstReq => 0
    case RdInstWait => 1
    case DecodeInst => 2
    case ExecInst => 3
    case ExecInstMemWait => 4
  }

  /** The execute state is left for the last one, but for an access that starts. */
  lemma ExecLeaves(c: Cpu, i: Instr, w: Wires, in_: In)
    requires AtExec(c) && Delivers(i, w.kind, c.f)
    ensures var n := NextWith(c, w, in_);
      if UsesMemory(i) && !w.misaligned then n.state.ExecInstMemWait? else n.state.CheckExc?
  {
    KindIsPlain(i, w.kind, c.f);
    if Plain(w.kind) {
      ExecStateWritten(c, w, in_);
    } else if w.kind.KEcall? {
      EcallTraps(c, w, in_);
    } else if w.misaligned {
      AccessRaises(c, w, in_);
    } else {
      AccessStarts(c, w, in_);
    }
  }

  lemma ExecCompletes(c: Cpu, i: Instr, w: Wires, in_: In)
    requires c.state.ExecInst?
    ensures Completes(c, w, in_, i) == [] <==> UsesMemory(i) && !w.misaligned
  {
  }

  lemma ExecRanks(c: Cpu, i: Instr, w: Wires, in_: In)
    requires AtExec(c) && Delivers(i, w.kind, c.f)
    ensures var n := NextWith(c, w, in_);
      && (n.state.CheckExc? || n.state.ExecInstMemWait?)
      && (Completes(c, w, in_, i) != [] <==> n.state.CheckExc?)
  {
    ExecLeaves(c, i, w, in_);
    ExecCompletes(c, i, w, in_);
  }

  lemma RequestLeaves(c: Cpu, w: Wires, in_: In)
    requires c.state.RdInstReq?
    ensures NextWith(c, w, in_).state == if w.misaligned then CheckExc else RdInstWait
  {
  }

  lemma WaitLeaves(c: Cpu, w: Wires, in_: In)
    requires c.state.RdInstWait?
    ensures NextWith(c, w, in_).state
            == if in_.timeout then CheckExc else if in_.done then DecodeInst else RdInstWait
  {
  }

  lemma TrapLeaves(c: Cpu, w: Wires, in_: In)
    requires c.state.CheckExc?
    ensures NextWith(c, w, in_).state == RdInstReq
  {
  }

  lemma FetchRanks(c: Cpu, i: Instr, w: Wires, in_: In)
    requires c.state.RdInstReq? || c.state.RdInstWait? || c.state.DecodeInst? || c.state.CheckExc?
    requires !(in_.done && in_.timeout)
    ensures var n := NextWith(c, w, in_);
      && (Completes(c, w, in_, i) != [] <==> n.state.CheckExc?)
      && (!n.state.CheckExc? ==> 1 + Rank(c) <= (if Waits(c, in_) then 1 else 0) + Rank(n))
  {
    hide NextWith;
    match c.state {
      case RdInstReq => RequestLeaves(c, w, in_);
      case RdInstWait => WaitLeaves(c, w, in_);
      case DecodeInst => DecodeNext(c, w, in_);
      case CheckExc => TrapLeaves(c, w, in_);
    }
  }

  lemma MemoryRanks(c: Cpu, i: Instr, w: Wires, in_: In)
    requires AtMemory(c) && !(in_.done && in_.timeout)
    ensures var n := NextWith(c, w, in_);
      && (Completes(c, w, in_, i) != [] <==> n.state.CheckExc?)
      && (!n.state.CheckExc? ==> Waits(c, in_) && n.state.ExecInstMemWait?)
  {
    if in_.done || in_.timeout {
      MemoryLeaves(c, w, in_);
    } else {
      AccessWaits(c, w, in_);
    }
  }

  /** Exactly one event completes per pass. */
  lemma EdgeEnds(c: Cpu, i: Instr, w: Wires, in_: In)
    requires Flags(c, i) && Ready(c, i, w) && !(in_.done && in_.timeout)
    ensures Completes(c, w, in_, i) != [] <==> PassEnds(c, NextWith(c, w, in_))
  {
    hide NextWith, Delivers, Waits;
    match c.state {
      case ExecInst => ExecRanks(c, i, w, in_);
      case ExecInstMemWait => MemoryRanks(c, i, w, in_);
      case RdInstReq => FetchRanks(c, i, w, in_);
      case RdInstWait => FetchRanks(c, i, w, in_);
      case DecodeInst => FetchRanks(c, i, w, in_);
      case CheckExc => FetchRanks(c, i, w, in_);
    }
  }

  /** A pass only lingers while it waits for memory. */
  lemma EdgeRanks(c: Cpu, i: Instr, w: Wires, in_: In)
    requires Flags(c, i) && Ready(c, i, w) && !(in_.done && in_.timeout)
    ensures var n := NextWith(c, w, in_);
      PassEnds(c, n) || 1 + Rank(c) <= (if Waits(c, in_) then 1 else 0) + Rank(n)
  {
    hide NextWith, Delivers, Waits;
    match c.state {
      case ExecInst => ExecRanks(c, i, w, in_);
      case ExecInstMemWait => MemoryRanks(c, i, w, in_);
      case RdInstReq => FetchRanks(c, i, w, in_);
      case RdInstWait => FetchRanks(c, i, w, in_);
      case DecodeInst => FetchRanks(c, i, w, in_);
      case CheckExc => FetchRanks(c, i, w, in_);
    }
  }

  lemma EdgeTicks(c: Cpu, i: Instr, w: Wires, in_: In)
    requires Flags(c, i) && Ready(c, i, w) && !(in_.done && in_.timeout)
    ensures var n := NextWith(c, w, in_);
      && |Completes(c, w, in_, i)| == PassTick(c, n)
      && (PassEnds(c, n) || 1 + Rank(c) <= WaitTick(c, in_) + Rank(n))
      && 1 + Rank(c) <= WaitTick(c, in_) + 6 * PassTick(c, n) + Rank(n)
  {
    CompletesOne(c, w, in_, i);
    EdgeEnds(c, i, w, in_);
    EdgeRanks(c, i, w, in_);
  }

  lemma EdgeCounts(s: Sys, in_: In, i: Instr)
    requires Inv(s, i) && Answers(s, in_)
    ensures var c, n := s.cpu, Step(s, in_).cpu;
      && |Completes(c, WiresOf(c, in_), in_, i)| == PassTick(c, n)
      && (PassEnds(c, n) || 1 + Rank(c) <= WaitTick(c, in_) + Rank(n))
      && 1 + Rank(c) <= WaitTick(c, in_) + 6 * PassTick(c, n) + Rank(n)
  {
    WiresShown(s, i, in_);
    EdgeTicks(s.cpu, i, WiresOf(s.cpu, in_), in_);
  }

  /** The instruction in the instruction register after the edge. */
  ghost function Fetching(s: Sys, in_: In, i: Instr): Instr {
    if FetchEnds(s.cpu, in_) && Supported(Abs(s)) then Here(Abs(s)) else i
  }

  lemma FetchingFollows(s: Sys, in_: In, i: Instr)
    requires Legal(i) && (FetchEnds(s.cpu, in_) ==> Supported(Abs(s)))
    ensures Follows(s, in_, i, Fetching(s, in_, i))
  {
  }

  /** No pass takes more than six edges besides those it waits for memory. */
  lemma {:induction false} PassesAreShort(s: Sys, ins: seq<In>, i: Instr)
    requires Inv(s, i) && Served(s, ins)
    ensures |ins| + Rank(s.cpu) <= WaitingEdges(s, ins) + 6 * Passes(s, ins) + 4
    decreases ins
  {
    if ins != [] {
      EdgeCounts(s, ins[0], i);
      FetchingFollows(s, ins[0], i);
      EdgeInv(s, ins[0], i, Fetching(s, ins[0], i));
      PassesAreShort(Step(s, ins[0]), ins[1..], Fetching(s, ins[0], i));
    }
  }

  lemma RunsJoin(a: Arch, es: seq<Event>, b: Arch, fs: seq<Event>, c: Arch)
    requires IsaRuns(a, es, b) && |es| <= 1 && IsaRuns(b, fs, c)
    ensures IsaRuns(a, es + fs, c)
  {
    if es == [] {
      assert es + fs == fs;
    } else {
      assert es[1..] == [] && (es + fs)[1..] == fs;
    }
  }

  /** The events of a run: those that its edges complete, for what the port and the interrupt selection
      show at each edge, when `i` is the instruction in the instruction register at first. */
  ghost function EventsOf(s: Sys, ins: seq<In>, i: Instr): seq<Event>
    decreases ins
  {
    if ins == [] then []
    else
      Completes(s.cpu, WiresOf(s.cpu, ins[0]), ins[0], i)
      + EventsOf(Step(s, ins[0]), ins[1..], Fetching(s, ins[0], i))
  }

  /** What an edge does, with its ingredients named. */
  lemma EdgeRuns(s: Sys, in_: In, i: Instr, n: Sys, a: Arch, b: Arch, es: seq<Event>)
    requires Inv(s, i) && Answers(s, in_) && (FetchEnds(s.cpu, in_) ==> Supported(Abs(s)))
    requires n == Step(s, in_) && a == Abs(s) && b == Abs(n) && es == Completes(s.cpu, WiresOf(s.cpu, in_), in_, i)
    ensures Inv(n, Fetching(s, in_, i)) && |es| == PassTick(s.cpu, n.cpu) && IsaRuns(a, es, b)
  {
    FetchingFollows(s, in_, i);
    EdgeRefines(s, in_, i, Fetching(s, in_, i));
    EdgeCounts(s, in_, i);
  }

  /** `RunRefines`, with its ingredients named. */
  lemma {:induction false} RunSteps(s: Sys, ins: seq<In>, i: Instr, es: seq<Event>, first: Arch, last: Arch)
    requires Inv(s, i) && Served(s, ins)
    requires es == EventsOf(s, ins, i) && first == Abs(s) && last == Abs(Run(s, ins))
    ensures IsaRuns(first, es, last) && |es| == Passes(s, ins)
    decreases ins
  {
    hide Next, Completes, View, IsaStep, Possible, Inv;
    if ins != [] {
      var n, i', now := Step(s, ins[0]), Fetching(s, ins[0], i), Completes(s.cpu, WiresOf(s.cpu, ins[0]), ins[0], i);
      var rest, middle := EventsOf(n, ins[1..], i'), Abs(n);
      EdgeRuns(s, ins[0], i, n, first, middle, now);
      RunSteps(n, ins[1..], i', rest, middle, last);
      assert es == now + rest;
      RunsJoin(first, now, middle, rest, last);
    }
  }

  /** Any run, over any memory latency and with any interrupts, is the run of the instruction set through
      the events of its edges, one for each pass. */
  lemma RunRefines(s: Sys, ins: seq<In>, i: Instr)
    requires Inv(s, i) && Served(s, ins)
    ensures IsaRuns(Abs(s), EventsOf(s, ins, i), Abs(Run(s, ins)))
    ensures |EventsOf(s, ins, i)| == Passes(s, ins)
  {
    RunSteps(s, ins, i, EventsOf(s, ins, i), Abs(s), Abs(Run(s, ins)));
  }

  /** No access times out, and no interrupt is selected. */
  predicate Undisturbed(s: Sys, ins: seq<In>)
    decreases ins
  {
    ins == [] || (!ins[0].timeout && !HasIntr(s.cpu.csr) && Undisturbed(Step(s, ins[0]), ins[1..]))
  }

  lemma EdgeRetires(c: Cpu, in_: In, i: Instr, w: Wires)
    requires w.intr == HasIntr(c.csr)
    ensures forall e :: e in Completes(c, w, in_, i) ==>
              && (e.Interrupted? ==> HasIntr(c.csr))
              && (e.AccessFault? || e == FetchTrap(FETCH_FAULT) ==> in_.timeout)
              && (e.FetchTrap? ==> e.cause == FETCH_FAULT || e.cause == FETCH_MISALIGNED)
  {
    hide WiresOf, HasIntr;
    match c.state {
      case ExecInst =>
      case ExecInstMemWait =>
      case _ =>
    }
  }

  /** Faults only come from timeouts and interrupts only from the selection: without both, every pass
      retires the instruction at pc, or finds pc misaligned. */
  lemma {:induction false} UndisturbedRetires(s: Sys, ins: seq<In>, i: Instr)
    requires Undisturbed(s, ins)
    ensures forall e :: e in EventsOf(s, ins, i) ==> e.Retire? || e == FetchTrap(FETCH_MISALIGNED)
    decreases ins
  {
    if ins != [] {
      EdgeRetires(s.cpu, ins[0], i, WiresOf(s.cpu, ins[0]));
      UndisturbedRetires(Step(s, ins[0]), ins[1..], Fetching(s, ins[0], i));
    }
  }

  /** Out of reset the CPU is in supervisor mode at the start address, and the invariant holds. */
  lemma ResetStarts(s: Sys, start: Word, i: Instr)
    requires JustReset(s.cpu, start) && s.cpu.csr.stvec & 3 != 1 && Legal(i)
    ensures Inv(s, i) && Abs(s).pc == start && Abs(s).mem == s.mem && Abs(s).csrs.supervisor
  {
  }

  // ---- Traps -------------------------------------------------------------------------------------------

  predicate IsException(a: Arch, e: Event) {
    e.FetchTrap? || e.AccessFault? || (e.Retire? && Exec(a, e.i).Raise?)
  }

  /** The event ends in a trap. */
  predicate Traps(a: Arch, e: Event) { e.Interrupted? || IsException(a, e) }

  lemma PlainRecords(c: Cpu, mem: Memory, i: Instr, w: Wires, in_: In)
    requires AtExec(c) && Delivers(i, w.kind, c.f) && Wired(c, w) && !UsesMemory(i) && !i.Ecall?
    ensures forall e :: e in Completes(c, w, in_, i) ==>
              (NextWith(c, w, in_).hasException <==> Traps(View(c, mem), e))
  {
    hide NextWith, Delivers, Wired, Exec;
    KindIsPlain(i, w.kind, c.f);
    ExecComputes(View(c, mem), c, i, w, in_);
    ExecStateWritten(c, w, in_);
  }

  lemma CrossingRecords(c: Cpu, mem: Memory, i: Instr, w: Wires, in_: In)
    requires AtExec(c) && Delivers(i, w.kind, c.f) && UsesMemory(i) && Legal(i)
    requires w.addr == MaAddr(c) && w.misaligned == AlignmentOverflow(c)
    ensures forall e :: e in Completes(c, w, in_, i) ==>
              (NextWith(c, w, in_).hasException <==> Traps(View(c, mem), e))
  {
    hide NextWith, Delivers, Exec;
    AccessShown(c, i, w.kind);
    if w.misaligned {
      AccessRaises(c, w, in_);
      MisalignedRaise(View(c, mem), i);
    }
  }

  lemma EcallRecords(c: Cpu, mem: Memory, w: Wires, in_: In)
    requires AtExec(c) && w.kind.KEcall?
    ensures forall e :: e in Completes(c, w, in_, Ecall) ==>
              (NextWith(c, w, in_).hasException <==> Traps(View(c, mem), e))
  {
    hide NextWith, Exec;
    EcallTraps(c, w, in_);
    EcallRaises(View(c, mem));
  }

  lemma AccessRecords(c: Cpu, w: Wires, in_: In)
    requires AtMemory(c)
    ensures NextWith(c, w, in_).hasException <==> in_.timeout || (in_.done && w.intr)
  {
  }

  lemma AccessCompletes(a: Arch, i: Instr)
    requires UsesMemory(i) && !Crosses(Address(a, i), i.width)
    ensures Exec(a, i).Done?
  {
  }

  lemma MemoryRecords(c: Cpu, mem: Memory, i: Instr, w: Wires, in_: In)
    requires AtMemory(c) && Flags(c, i) && Delivers(i, w.kind, c.f) && Legal(i)
    ensures forall e :: e in Completes(c, w, in_, i) ==>
              (NextWith(c, w, in_).hasException <==> Traps(View(c, mem), e))
  {
    hide NextWith, Delivers, Exec;
    AccessShown(c, i, w.kind);
    AccessRecords(c, w, in_);
    AccessCompletes(View(c, mem), i);
  }

  lemma FetchRecords(c: Cpu, w: Wires, in_: In, i: Instr)
    requires c.state.RdInstReq? || c.state.RdInstWait?
    ensures Completes(c, w, in_, i) != [] ==> NextWith(c, w, in_).hasException
  {
  }

  lemma StateRecords(c: Cpu, mem: Memory, i: Instr, w: Wires, in_: In)
    requires Flags(c, i) && Legal(i) && Ready(c, i, w) && Shown(c, w, in_)
    ensures forall e :: e in Completes(c, w, in_, i) ==>
              (NextWith(c, w, in_).hasException <==> Traps(View(c, mem), e))
  {
    hide NextWith, Delivers, View, Exec, Wired;
    match c.state {
      case RdInstReq => FetchRecords(c, w, in_, i);
      case RdInstWait => FetchRecords(c, w, in_, i);
      case DecodeInst =>
      case ExecInst =>
        if UsesMemory(i) {
          CrossingRecords(c, mem, i, w, in_);
        } else if i.Ecall? {
          KindDelivered(w.kind, c.f);
          EcallRecords(c, mem, w, in_);
        } else {
          PlainRecords(c, mem, i, w, in_);
        }
      case ExecInstMemWait => MemoryRecords(c, mem, i, w, in_);
      case CheckExc =>
    }
  }

  lemma KindDelivered(kind: Kind, f: Fields)
    requires Delivers(Ecall, kind, f)
    ensures kind.KEcall?
  {
  }

  /** A trap is recorded exactly when the event that the edge completes ends in one. */
  lemma EdgeRecords(s: Sys, in_: In, i: Instr)
    requires Inv(s, i)
    ensures forall e :: e in Completes(s.cpu, WiresOf(s.cpu, in_), in_, i) ==>
              (Step(s, in_).cpu.hasException <==> Traps(Abs(s), e))
  {
    hide NextWith, WiresOf, Completes, Traps, View;
    WiresShown(s, i, in_);
    StateRecords(s.cpu, s.mem, i, WiresOf(s.cpu, in_), in_);
  }

  /** The inputs take the CPU to the last state of the pass, and no further. */
  predicate IsPass(s: Sys, ins: seq<In>)
    decreases ins
  {
    && ins != [] && !s.cpu.state.CheckExc?
    && (if |ins| == 1 then Step(s, ins[0]).cpu.state.CheckExc?
        else !Step(s, ins[0]).cpu.state.CheckExc? && IsPass(Step(s, ins[0]), ins[1..]))
  }

  /** A pass, for one event: what it has done to the architectural state, and whether it has recorded
      a trap. */
  ghost predicate PassDoes(a: Arch, e: Event, t: Sys) {
    && Possible(a, e) && Abs(t) == IsaStep(a, e)
    && t.cpu.state.CheckExc? && !t.cpu.wrReq && (t.cpu.hasException <==> Traps(a, e))
  }

  lemma LastEdge(s: Sys, in_: In, i: Instr) returns (e: Event)
    requires Inv(s, i) && Answers(s, in_) && (FetchEnds(s.cpu, in_) ==> Supported(Abs(s)))
    requires PassEnds(s.cpu, Step(s, in_).cpu)
    ensures PassDoes(Abs(s), e, Step(s, in_)) && Flags(Step(s, in_).cpu, Fetching(s, in_, i))
    ensures e in Completes(s.cpu, WiresOf(s.cpu, in_), in_, i)
  {
    hide Fetched, Decoded, Step, WiresOf, IsaStep, Answers;
    var es := Completes(s.cpu, WiresOf(s.cpu, in_), in_, i);
    EdgeRuns(s, in_, i, Step(s, in_), Abs(s), Abs(Step(s, in_)), es);
    EdgeRecords(s, in_, i);
    e := es[0];
    assert e in es && es[1..] == [];
  }

  lemma {:induction false} PassHappens(s: Sys, ins: seq<In>, i: Instr) returns (e: Event, i': Instr)
    requires Inv(s, i) && Served(s, ins) && IsPass(s, ins)
    ensures PassDoes(Abs(s), e, Run(s, ins)) && Flags(Run(s, ins).cpu, i')
    decreases ins
  {
    var n := Step(s, ins[0]);
    if |ins| == 1 {
      e := LastEdge(s, ins[0], i);
      i' := Fetching(s, ins[0], i);
      assert ins[1..] == [] && Run(s, ins) == n;
    } else {
      var es := Completes(s.cpu, WiresOf(s.cpu, ins[0]), ins[0], i);
      EdgeRuns(s, ins[0], i, n, Abs(s), Abs(n), es);
      e, i' := PassHappens(n, ins[1..], Fetching(s, ins[0], i));
    }
  }

  /** What the registers of a CPU at the start of a pass, and the memory, hold. */
  ghost predicate Holding(n: Sys, a: Arch) {
    && n.cpu.state.RdInstReq? && n.cpu.pc == a.pc && n.cpu.regs == a.regs && n.mem == a.mem
    && CsrsOf(n.cpu.csr) == a.csrs
  }

  lemma PassWritten(t: Sys, in_: In, i: Instr)
    requires t.cpu.state.CheckExc? && !t.cpu.wrReq && Flags(t.cpu, i)
    ensures Holding(Step(t, in_), Abs(t))
  {
    var w := WiresOf(t.cpu, in_);
    TrapFlags(t.cpu, in_, i, w);
    TrapView(t.cpu, in_, i, w, t.mem);
  }

  /** A whole pass of the CPU, from one fetch to the next: its registers and the memory afterwards are
      those of one event of the instruction set. */
  lemma PassIsEvent(s: Sys, ins: seq<In>, in_: In, i: Instr) returns (e: Event)
    requires Inv(s, i) && Served(s, ins) && s.cpu.state.RdInstReq? && IsPass(s, ins)
    ensures var t := Run(s, ins);
      PassDoes(Abs(s), e, t) && Holding(Step(t, in_), IsaStep(Abs(s), e)) && Holding(s, Abs(s))
  {
    var i';
    e, i' := PassHappens(s, ins, i);
    PassWritten(Run(s, ins), in_, i');
  }

  lemma RecordedCause(t: Cpu, mem: Memory)
    requires t.state.CheckExc? && t.hasException
    ensures View(t, mem).csrs.scause == t.excCause
  {
  }

  lemma PlainCause(a: Arch, i: Instr)
    requires Exec(a, i).Raise?
    ensures !IsInterrupt(Exec(a, i).cause)
  {
  }

  lemma EventCause(a: Arch, e: Event)
    requires Possible(a, e) && Traps(a, e)
    ensures IsInterrupt(IsaStep(a, e).csrs.scause) <==> e.Interrupted?
  {
    if e.Retire? {
      PlainCause(a, e.i);
    }
  }

  lemma ExceptionSteps(a: Arch, e: Event)
    requires Possible(a, e) && IsException(a, e)
    ensures var t := IsaStep(a, e);
      && t.csrs.sepc == a.pc && t.regs == a.regs && t.mem == a.mem && t.pc == a.csrs.stvec && t.csrs.supervisor
      && t.csrs.sstatus == SavedStatus(a.csrs.sstatus, a.csrs.supervisor)
  {
  }

  /** An exception, of a fetch, a load, a store or an environment call, on the registers of the CPU over
      a whole pass: sepc is the pc of the instruction, and no register and no memory is written. */
  lemma ExceptionsArePrecise(s: Sys, ins: seq<In>, in_: In, i: Instr)
    requires Inv(s, i) && Served(s, ins) && s.cpu.state.RdInstReq? && IsPass(s, ins)
    requires Run(s, ins).cpu.hasException && !IsInterrupt(Run(s, ins).cpu.excCause)
    ensures var c, n := s.cpu, Step(Run(s, ins), in_);
      && n.cpu.state.RdInstReq? && n.cpu.csr.sepc == c.pc && n.cpu.regs == c.regs && n.mem == s.mem
      && n.cpu.pc == c.csr.stvec && n.cpu.csr.supervisor && n.cpu.csr.scause == Run(s, ins).cpu.excCause
      && n.cpu.csr.sstatus == SavedStatus(c.csr.sstatus, c.csr.supervisor)
  {
    hide Inv, Served, Run, Step, View, IsaStep, Possible, IsException;
    var e := PassIsEvent(s, ins, in_, i);
    RecordedCause(Run(s, ins).cpu, Run(s, ins).mem);
    EventCause(Abs(s), e);
    ExceptionSteps(Abs(s), e);
  }

  /** Where the instruction set continues after a completed instruction. */
  function Continuation(a: Arch, i: Instr): Word {
    match i
    case Jal(_, parcels) => Plus(a.pc, JumpOffset(parcels))
    case Jalr(_, rs1, imm) => Plus(ReadReg(a.regs, rs1), SignExtend12(imm)) & !1
    case Branch(cond, rs1, rs2, distance) =>
      if Holds(cond, ReadReg(a.regs, rs1), ReadReg(a.regs, rs2)) then Plus(a.pc, BranchOffset(distance))
      else Plus(a.pc, 4)
    case Sret => a.csrs.sepc
    case _ => Plus(a.pc, 4)
  }

  lemma ContinuesAt(a: Arch, i: Instr)
    requires Exec(a, i).Done?
    ensures Exec(a, i).next.pc == Continuation(a, i) && Exec(a, i).next.csrs.stvec == a.csrs.stvec
  {
  }

  /** An interrupt, over a whole pass of the CPU: the instruction at pc has completed, and sepc is the
      next one to run, which is the target of a jump or of a taken branch. */
  lemma InterruptsFollowInstructions(s: Sys, ins: seq<In>, in_: In, i: Instr)
    requires Inv(s, i) && Served(s, ins) && s.cpu.state.RdInstReq? && IsPass(s, ins)
    requires Run(s, ins).cpu.hasException && IsInterrupt(Run(s, ins).cpu.excCause)
    ensures Supported(Abs(s)) && Exec(Abs(s), Here(Abs(s))).Done?
    ensures var a, n := Abs(s), Step(Run(s, ins), in_);
      var next := Exec(a, Here(a)).next;
      && n.cpu.state.RdInstReq? && n.cpu.csr.sepc == Continuation(a, Here(a))
      && n.cpu.regs == next.regs && n.mem == next.mem && n.cpu.pc == s.cpu.csr.stvec && n.cpu.csr.supervisor
      && n.cpu.csr.scause == Run(s, ins).cpu.excCause
      && n.cpu.csr.sstatus == SavedStatus(next.csrs.sstatus, next.csrs.supervisor)
  {
    hide Inv, Served, Run, Step, View, Exec, IsException, AtPc;
    var e := PassIsEvent(s, ins, in_, i);
    RecordedCause(Run(s, ins).cpu, Run(s, ins).mem);
    EventCause(Abs(s), e);
    HereIs(Abs(s), e.i);
    ContinuesAt(Abs(s), e.i);
  }

  /** Without a trap, over a whole pass of the CPU: the registers and the memory are those that the
      instruction at pc leaves. */
  lemma PassesComplete(s: Sys, ins: seq<In>, in_: In, i: Instr)
    requires Inv(s, i) && Served(s, ins) && s.cpu.state.RdInstReq? && IsPass(s, ins)
    requires !Run(s, ins).cpu.hasException
    ensures Supported(Abs(s)) && Exec(Abs(s), Here(Abs(s))).Done?
    ensures Holding(Step(Run(s, ins), in_), Exec(Abs(s), Here(Abs(s))).next)
  {
    hide Inv, Served, Run, Step, View, Exec, AtPc;
    var e := PassIsEvent(s, ins, in_, i);
    HereIs(Abs(s), e.i);
  }

  lemma SavedBits(x: Word, mode: Word, enable: Word)
    requires (mode == 0 || mode == 0x100) && (enable == 0 || enable == 0x20)
    ensures var saved := (x & !0x122) | mode | enable;
      saved & 0x100 == mode && saved & 0x20 == enable && saved & !0x122 == x & !0x122
  {
  }

  lemma SavedFields(x: Word, supervisor: bool)
    ensures SavedStatus(x, supervisor) & 0x100 == if supervisor then 0x100 else 0
    ensures SavedStatus(x, supervisor) & 0x20 == if x & 0x2 != 0 then 0x20 else 0
    ensures SavedStatus(x, supervisor) & !0x122 == x & !0x122
  {
    SavedBits(x, if supervisor then 0x100 else 0, if x & 0x2 != 0 then 0x20 else 0);
  }

  lemma EnableSet(y: Word)
    ensures ((y | 0x2) | 0x20) & 0x2 == 0x2
  {
  }

  lemma EnableCleared(y: Word)
    ensures ((y & !0x2) | 0x20) & 0x2 == 0
  {
  }

  lemma OthersAfterSet(y: Word)
    ensures ((y | 0x2) | 0x20) & !0x122 == y & !0x122
  {
  }

  lemma OthersAfterClear(y: Word)
    ensures ((y & !0x2) | 0x20) & !0x122 == y & !0x122
  {
  }

  lemma RestoredFields(y: Word)
    ensures RestoredStatus(y) & 0x2 == if y & 0x20 != 0 then 0x2 else 0
    ensures RestoredStatus(y) & !0x122 == y & !0x122
  {
    if y & 0x20 != 0 {
      EnableSet(y);
      OthersAfterSet(y);
    } else {
      EnableCleared(y);
      OthersAfterClear(y);
    }
  }

  lemma EnableBit(x: Word)
    ensures x & 0x2 == 0 || x & 0x2 == 0x2
  {
  }

  lemma StatusComesBack(x: Word, supervisor: bool)
    ensures var y := SavedStatus(x, supervisor);
      && (y & 0x100 != 0 <==> supervisor) && RestoredStatus(y) & 0x2 == x & 0x2
      && RestoredStatus(y) & !0x122 == x & !0x122
  {
    SavedFields(x, supervisor);
    RestoredFields(SavedStatus(x, supervisor));
    EnableBit(x);
  }

  lemma SretResumes(t: Arch)
    ensures Exec(t, Sret) == Done(t.(pc := t.csrs.sepc, csrs := ReturnFromTrap(t.csrs)))
  {
  }

  lemma CsrsRestored(c: Csrs, t: Csrs, cause: Word, epc: Word, value: Word)
    requires t.sstatus == TrapCsrs(c, cause, epc, value).sstatus
    ensures var r := ReturnFromTrap(t);
      && r.supervisor == c.supervisor && r.sstatus & 0x2 == c.sstatus & 0x2
      && r.sstatus & !0x122 == c.sstatus & !0x122
  {
    StatusComesBack(c.sstatus, c.supervisor);
  }

  /** A handler that leaves sepc and sstatus alone and ends in sret resumes at the saved pc, in the
      mode and with the interrupt enable (SIE) from before the trap. */
  lemma SretUndoesTrap(a: Arch, t: Arch, cause: Word, epc: Word, value: Word)
    requires t.csrs.sepc == EnterTrap(a, cause, epc, value).csrs.sepc
    requires t.csrs.sstatus == EnterTrap(a, cause, epc, value).csrs.sstatus
    ensures Exec(t, Sret).Done?
    ensures var r := Exec(t, Sret).next;
      && r.pc == epc && r.csrs.supervisor == a.csrs.supervisor && r.csrs.sstatus & 0x2 == a.csrs.sstatus & 0x2
      && r.csrs.sstatus & !0x122 == a.csrs.sstatus & !0x122 && r.regs == t.regs && r.mem == t.mem
  {
    SretResumes(t);
    CsrsRestored(a.csrs, t.csrs, cause, epc, value);
  }
}
