/** The multi-cycle CPU: one call of `Next` is one clock edge. All right-hand sides are taken from
    the old state, as non-blocking assignments take them. */
module Cpu {
  import opened Isa
  import opened CpuUnits
  import opened Bits

  datatype State = RdInstReq | RdInstWait | DecodeInst | ExecInst | ExecInstMemWait | CheckExc

  /** CSRs.v without the counters and sscratch. */
  datatype CsrUnit = CsrUnit(
    sstatus: Word, sie: Word, stvec: Word, sepc: Word, scause: Word, stval: Word, sip: Word, supervisor: bool)

  datatype Cpu = Cpu(
    state: State, pc: Word, regs: Regs, ir: Word, f: Fields,
    rdReq: bool, wrReq: bool, pcChanged: bool,
    hasException: bool, excCause: Word, excPc: Word, excValue: Word, csr: CsrUnit)

  /** What the memory port and the interrupt lines show at a clock edge. */
  datatype In = In(data: Word, done: bool, timeout: bool, timer: bool, ext: bool)

  // ---- Combinational signals -----------------------------------------------------------------

  function F3(f: Fields): bv3 { (f.funct & 7) as bv3 }

  function Src1(c: Cpu): Word { ReadReg(c.regs, c.f.rs1) }

  function Src2(c: Cpu): Word { ReadReg(c.regs, c.f.rs2) }

  function MaAddr(c: Cpu): Word {
    if c.state.RdInstReq? || c.state.RdInstWait? then c.pc else Plus(Src1(c), c.f.imm)
  }

  function MaMask(c: Cpu): bv4 {
    if c.state.ExecInst? || c.state.ExecInstMemWait? then DataMask(F3(c.f)) else 15
  }

  function AlignmentOverflow(c: Cpu): bool {
    Overflow((MaAddr(c) & 3) as bv2, MaMask(c))
  }

  /** What the combinational units show: decoder, branch tester, ALU, load formatter, memory
      address and alignment checker, interrupt selection. */
  datatype Wires = Wires(
    kind: Kind, decoded: Fields, taken: bool, alu: Word, loaded: Word, addr: Word, misaligned: bool,
    intr: bool, intrCause: Word)

  predicate PcWrite(c: Cpu, w: Wires) {
    match c.state
    case ExecInst => w.kind.KJal? || w.kind.KJalr? || w.kind.KBranch? || w.kind.KSret?
    case CheckExc => !c.pcChanged || c.hasException
    case _ => false
  }

  function NextPc(c: Cpu, w: Wires): Word {
    match c.state
    case ExecInst =>
      if w.kind.KJal? then Plus(c.pc, c.f.imm)
      else if w.kind.KJalr? then Plus(Src1(c), c.f.imm) & !1
      else if w.kind.KBranch? && w.taken then Plus(c.pc, c.f.imm)
      else if w.kind.KSret? then c.csr.sepc
      else Plus(c.pc, 4)
    case CheckExc =>
      if !c.hasException then Plus(c.pc, 4)
      else if c.csr.stvec & 3 == 1 && c.excCause & 0x8000_0000 != 0 then (c.csr.stvec + c.excCause) << 2
      else c.csr.stvec
    case _ => Plus(c.pc, 4)
  }

  predicate GprWrite(c: Cpu, w: Wires, i: In) {
    var kind := w.kind;
    match c.state
    case ExecInst =>
      kind.KLui? || kind.KAuipc? || kind.KJal? || kind.KJalr? || kind.KArlogImm? || kind.KArlog? || kind.KCsr?
    case ExecInstMemWait => c.rdReq && i.done
    case _ => false
  }

  function GprIn(c: Cpu, w: Wires): Word {
    if c.state.ExecInst? then
      match w.kind
      case KLui => c.f.imm
      case KAuipc => Plus(c.pc, c.f.imm)
      case KJal => Plus(c.pc, 4)
      case KJalr => Plus(c.pc, 4)
      case KArlogImm => w.alu
      case KArlog => w.alu
      case _ => 0
    else w.loaded
  }

  // ---- CSRs.v -----------------------------------------------------------------------------------

  predicate HasIntr(u: CsrUnit) {
    And(u.sip, u.sie) != 0 && (u.supervisor ==> u.sstatus & 0x2 != 0)
  }

  /** The last set bit that a scan from bit 0 to bit n - 1 meets. */
  function LastSet(x: Word, n: nat): Word
    requires n <= 32
  {
    if n == 0 then 0 else if Bit(x, n - 1) then Place(n - 1) else LastSet(x, n - 1)
  }

  function IntrCause(u: CsrUnit): Word {
    LastSet(And(u.sip, u.sie), 32) | 0x8000_0000
  }

  /** Trap entry writes the three saved fields of sstatus bit by bit. */
  function SaveStatus(sstatus: Word, supervisor: bool): Word {
    var s8 := if supervisor then sstatus | 0x100 else sstatus & !0x100;
    var s5 := if sstatus & 0x2 != 0 then s8 | 0x20 else s8 & !0x20;
    s5 & !0x2
  }

  function RestoreStatus(sstatus: Word): Word {
    var s1 := if sstatus & 0x20 != 0 then sstatus | 0x2 else sstatus & !0x2;
    s1 | 0x20
  }

  function NextCsr(c: Cpu, kind: Kind, i: In): CsrUnit {
    var u := c.csr;
    var v :=
      if c.hasException then
        u.(sepc := c.excPc, stval := c.excValue, scause := c.excCause, supervisor := true,
           sstatus := SaveStatus(u.sstatus, u.supervisor))
      else if c.state.ExecInst? && kind.KSret? then
        u.(supervisor := u.sstatus & 0x100 != 0, sstatus := RestoreStatus(u.sstatus))
      else u;
    v.(sip := Or(Or(v.sip, if i.timer then 0x20 else 0), if i.ext then 0x200 else 0))
  }

  // ---- The state machine ---------------------------------------------------------------------------

  function RaiseException(c: Cpu, was: Cpu, cause: Word, value: Word): Cpu {
    c.(state := CheckExc, hasException := true, excCause := cause, excPc := was.pc, excValue := value)
  }

  function RaiseInterrupt(c: Cpu, was: Cpu, w: Wires): Cpu {
    c.(state := CheckExc, hasException := true, excCause := w.intrCause,
       excPc := if was.pcChanged then was.pc else NextPc(was, w))
  }

  /** Registers written by the units around the state machine. */
  function Datapath(c: Cpu, w: Wires, i: In): Cpu {
    c.(pc := if PcWrite(c, w) then NextPc(c, w) else c.pc,
       regs := if GprWrite(c, w, i) then WriteReg(c.regs, c.f.rd, GprIn(c, w)) else c.regs,
       ir := if c.state.RdInstWait? && i.done then i.data else c.ir,
       csr := NextCsr(c, w.kind, i))
  }

  function Dispatch(c: Cpu, d: Cpu, w: Wires): Cpu {
    if w.kind.KLoad? then
      if !w.misaligned then d.(state := ExecInstMemWait, rdReq := true)
      else RaiseException(d, c, LOAD_MISALIGNED, w.addr)
    else if w.kind.KStore? then
      if !w.misaligned then d.(state := ExecInstMemWait, wrReq := true)
      else RaiseException(d, c, STORE_MISALIGNED, w.addr)
    else if w.kind.KEcall? then
      RaiseException(d, c, if c.csr.supervisor then SUPERVISOR_ECALL else USER_ECALL, c.pc)
    else if w.intr then RaiseInterrupt(d, c, w)
    else d.(state := CheckExc)
  }

  function NextExec(c: Cpu, d: Cpu, w: Wires): Cpu {
    var n := Dispatch(c, d, w);
    if PcWrite(c, w) then n.(pcChanged := true) else n
  }

  function NextMemWait(c: Cpu, d: Cpu, w: Wires, i: In): Cpu {
    if !i.timeout && !i.done then d
    else
      var n := d.(rdReq := false, wrReq := false);
      if i.timeout then RaiseException(n, c, if w.kind.KLoad? then LOAD_FAULT else STORE_FAULT, w.addr)
      else if w.intr then RaiseInterrupt(n, c, w)
      else n.(state := CheckExc)
  }

  function WiresOf(c: Cpu, i: In): Wires {
    var kind := KindOf(c.ir);
    Wires(kind, Decode(c.ir), BranchTaken(F3(c.f), Src1(c), Src2(c)),
          Alu(c.f.funct, Src1(c), if kind.KArlogImm? then c.f.imm else Src2(c)), LoadedValue(F3(c.f), i.data),
          MaAddr(c), AlignmentOverflow(c), HasIntr(c.csr), IntrCause(c.csr))
  }

  function NextRequest(c: Cpu, d: Cpu, w: Wires): Cpu {
    if !w.misaligned then d.(state := RdInstWait, rdReq := true)
    else RaiseException(d, c, FETCH_MISALIGNED, c.pc)
  }

  function NextFetch(c: Cpu, d: Cpu, i: In): Cpu {
    if i.timeout then RaiseException(d.(rdReq := false), c, FETCH_FAULT, c.pc)
    else if i.done then d.(state := DecodeInst, rdReq := false)
    else d
  }

  /** The state machine, when `d` holds what the other units write at the same edge. */
  function NextState(c: Cpu, d: Cpu, w: Wires, i: In): Cpu {
    match c.state
    case RdInstReq => NextRequest(c, d, w)
    case RdInstWait => NextFetch(c, d, i)
    case DecodeInst => d.(state := ExecInst, f := w.decoded)
    case ExecInst => NextExec(c, d, w)
    case ExecInstMemWait => NextMemWait(c, d, w, i)
    case CheckExc => d.(state := RdInstReq, hasException := false, pcChanged := false)
  }

  /** One clock edge, for what the combinational units show. */
  function NextWith(c: Cpu, w: Wires, i: In): Cpu {
    NextState(c, Datapath(c, w, i), w, i)
  }

  function Next(c: Cpu, i: In): Cpu {
    NextWith(c, WiresOf(c, i), i)
  }

  /** reset: fetching starts at the given address in supervisor mode. */
  predicate JustReset(c: Cpu, start: Word) {
    && c.state.RdInstReq? && c.pc == start && !c.rdReq && !c.wrReq && !c.pcChanged && !c.hasException
    && c.csr.supervisor && c.csr.sip == 0
  }

  /** The CPU as registers that a clock edge updates in place. */
  class Core {
    var state: State
    var pc: Word
    var regs: Regs
    var ir: Word
    var f: Fields
    var rdReq: bool
    var wrReq: bool
    var pcChanged: bool
    var hasException: bool
    var excCause: Word
    var excPc: Word
    var excValue: Word
    var csr: CsrUnit

    function Value(): Cpu
      reads this
    {
      Cpu(state, pc, regs, ir, f, rdReq, wrReq, pcChanged, hasException, excCause, excPc, excValue, csr)
    }

    method Raise(was: Cpu, cause: Word, value: Word)
      modifies `state, `hasException, `excCause, `excPc, `excValue
      ensures Value() == RaiseException(old(Value()), was, cause, value)
    {
      state := CheckExc;
      hasException := true;
      excCause := cause;
      excPc := was.pc;
      excValue := value;
    }

    method Interrupt(was: Cpu, w: Wires)
      modifies `state, `hasException, `excCause, `excPc
      ensures Value() == RaiseInterrupt(old(Value()), was, w)
    {
      state := CheckExc;
      hasException := true;
      excCause := w.intrCause;
      excPc := if was.pcChanged then was.pc else NextPc(was, w);
    }

    /** The pc, the register file, the instruction register and the CSRs take their new values. */
    method WriteUnits(was: Cpu, w: Wires, i: In)
      requires was == Value()
      modifies `pc, `regs, `ir, `csr
      ensures Value() == Datapath(was, w, i)
    {
      var d := Datapath(was, w, i);
      pc, regs, ir, csr := d.pc, d.regs, d.ir, d.csr;
    }

    method Request(was: Cpu, w: Wires)
      modifies this
      ensures Value() == NextRequest(was, old(Value()), w)
    {
      if !w.misaligned {
        state, rdReq := RdInstWait, true;
      } else {
        Raise(was, FETCH_MISALIGNED, was.pc);
      }
    }

    method Fetch(was: Cpu, i: In)
      modifies this
      ensures Value() == NextFetch(was, old(Value()), i)
    {
      if i.timeout {
        Raise(was, FETCH_FAULT, was.pc);
        rdReq := false;
      } else if i.done {
        state, rdReq := DecodeInst, false;
      }
    }

    method Execute(was: Cpu, w: Wires)
      modifies this
      ensures Value() == NextExec(was, old(Value()), w)
    {
      if w.kind.KLoad? {
        if !w.misaligned {
          state, rdReq := ExecInstMemWait, true;
        } else {
          Raise(was, LOAD_MISALIGNED, w.addr);
        }
      } else if w.kind.KStore? {
        if !w.misaligned {
          state, wrReq := ExecInstMemWait, true;
        } else {
          Raise(was, STORE_MISALIGNED, w.addr);
        }
      } else if w.kind.KEcall? {
        Raise(was, if was.csr.supervisor then SUPERVISOR_ECALL else USER_ECALL, was.pc);
      } else if w.intr {
        Interrupt(was, w);
      } else {
        state := CheckExc;
      }
      if PcWrite(was, w) {
        pcChanged := true;
      }
    }

    method FinishAccess(was: Cpu, w: Wires, i: In)
      modifies this
      ensures Value() == NextMemWait(was, old(Value()), w, i)
    {
      if i.timeout || i.done {
        rdReq, wrReq := false, false;
        if i.timeout {
          Raise(was, if w.kind.KLoad? then LOAD_FAULT else STORE_FAULT, w.addr);
        } else {
          state := CheckExc;
          if w.intr {
            Interrupt(was, w);
          }
        }
      }
    }

    method StepState(was: Cpu, w: Wires, i: In)
      modifies this
      ensures Value() == NextState(was, old(Value()), w, i)
    {
      match was.state {
        case RdInstReq => Request(was, w);
        case RdInstWait => Fetch(was, i);
        case DecodeInst => state, f := ExecInst, w.decoded;
        case ExecInst => Execute(was, w);
        case ExecInstMemWait => FinishAccess(was, w, i);
        case CheckExc => state, hasException, pcChanged := RdInstReq, false, false;
      }
    }

    /** One clock edge: every unit reads only what the registers held before it. */
    method OnClock(i: In)
      modifies this
      ensures Value() == Next(old(Value()), i)
    {
      var was := Value();
      var w := WiresOf(was, i);
      WriteUnits(was, w, i);
      StepState(was, w, i);
    }
  }
}
