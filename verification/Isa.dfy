/** The instruction set the CPU implements: RV32 with MUL, MULH and MULHU, after sections 2.2 to
    2.7 and 7.1 of the RISC-V Unprivileged ISA (20191213), and traps after section 4.1 of the
    Privileged ISA. An instruction is given by its fields; `Encode` is the standard's encoding. */
module Isa {

  type Word = bv32
  type Reg = bv5

  datatype Width = Byte | Half | Full

  datatype Cond = EQ | NE | LT | GE | LTU | GEU

  datatype ImmOp = ADDI | SLTI | SLTIU | XORI | ORI | ANDI

  datatype ShiftOp = SLLI | SRLI | SRAI

  datatype RegOp = ADD | SUB | SLL | SLT | SLTU | XOR | SRL | SRA | OR | AND | MUL | MULH | MULHU

  /** Offsets of branches and jumps count 2-byte parcels. */
  datatype Instr =
    | Lui(rd: Reg, upper: bv20)
    | Auipc(rd: Reg, upper: bv20)
    | Jal(rd: Reg, parcels: bv20)
    | Jalr(rd: Reg, rs1: Reg, imm: bv12)
    | Branch(cond: Cond, rs1: Reg, rs2: Reg, distance: bv12)
    | Load(width: Width, zeroExtend: bool, rd: Reg, rs1: Reg, imm: bv12)
    | Store(width: Width, rs1: Reg, rs2: Reg, imm: bv12)
    | Immediate(iop: ImmOp, rd: Reg, rs1: Reg, imm: bv12)
    | Shift(sop: ShiftOp, rd: Reg, rs1: Reg, shamt: bv5)
    | Register(rop: RegOp, rd: Reg, rs1: Reg, rs2: Reg)
    | Fence(operands: bv25)
    | Ecall
    | Sret

  /** LW has no zero-extending variant. */
  predicate Legal(i: Instr) {
    i.Load? && i.width.Full? ==> !i.zeroExtend
  }

  // ---- Encoding -------------------------------------------------------------------------

  function RType(funct7: bv7, rs2: Reg, rs1: Reg, funct3: bv3, rd: Reg, opcode: bv7): Word {
    (funct7 as bv32 << 25) | (rs2 as bv32 << 20) | (rs1 as bv32 << 15) | (funct3 as bv32 << 12)
    | (rd as bv32 << 7) | opcode as bv32
  }

  function IType(imm: bv12, rs1: Reg, funct3: bv3, rd: Reg, opcode: bv7): Word {
    (imm as bv32 << 20) | (rs1 as bv32 << 15) | (funct3 as bv32 << 12) | (rd as bv32 << 7) | opcode as bv32
  }

  /** imm[11:5] and imm[4:0] */
  function SType(imm: bv12, rs2: Reg, rs1: Reg, funct3: bv3, opcode: bv7): Word {
    RType((imm >> 5) as bv7, rs2, rs1, funct3, (imm & 0x1F) as bv5, opcode)
  }

  /** imm[12], imm[10:5], imm[4:1], imm[11], where `distance` is imm[12:1] */
  function BType(distance: bv12, rs2: Reg, rs1: Reg, funct3: bv3, opcode: bv7): Word {
    var d := distance as bv32;
    (((d >> 11) & 1) << 31) | (((d >> 4) & 0x3F) << 25) | (rs2 as bv32 << 20) | (rs1 as bv32 << 15)
    | (funct3 as bv32 << 12) | ((d & 0xF) << 8) | (((d >> 10) & 1) << 7) | opcode as bv32
  }

  function UType(upper: bv20, rd: Reg, opcode: bv7): Word {
    (upper as bv32 << 12) | (rd as bv32 << 7) | opcode as bv32
  }

  /** imm[20], imm[10:1], imm[11], imm[19:12], where `parcels` is imm[20:1] */
  function JType(parcels: bv20, rd: Reg, opcode: bv7): Word {
    var p := parcels as bv32;
    (((p >> 19) & 1) << 31) | ((p & 0x3FF) << 21) | (((p >> 10) & 1) << 20) | (((p >> 11) & 0xFF) << 12)
    | (rd as bv32 << 7) | opcode as bv32
  }

  function CondBits(c: Cond): bv3 {
    match c
    case EQ => 0 case NE => 1 case LT => 4 case GE => 5 case LTU => 6 case GEU => 7
  }

  function WidthBits(w: Width): bv3 {
    match w
    case Byte => 0 case Half => 1 case Full => 2
  }

  function ImmOpBits(op: ImmOp): bv3 {
    match op
    case ADDI => 0 case SLTI => 2 case SLTIU => 3 case XORI => 4 case ORI => 6 case ANDI => 7
  }

  /** funct7 and funct3 */
  function RegOpBits(op: RegOp): (bv7, bv3) {
    match op
    case ADD => (0, 0) case SUB => (0x20, 0) case SLL => (0, 1) case SLT => (0, 2) case SLTU => (0, 3)
    case XOR => (0, 4) case SRL => (0, 5) case SRA => (0x20, 5) case OR => (0, 6) case AND => (0, 7)
    case MUL => (1, 0) case MULH => (1, 1) case MULHU => (1, 3)
  }

  function ShiftOpBits(op: ShiftOp): (bv7, bv3) {
    match op
    case SLLI => (0, 1) case SRLI => (0, 5) case SRAI => (0x20, 5)
  }

  function Encode(i: Instr): Word {
    match i
    case Lui(rd, upper) => UType(upper, rd, 0x37)
    case Auipc(rd, upper) => UType(upper, rd, 0x17)
    case Jal(rd, parcels) => JType(parcels, rd, 0x6F)
    case Jalr(rd, rs1, imm) => IType(imm, rs1, 0, rd, 0x67)
    case Branch(cond, rs1, rs2, distance) => BType(distance, rs2, rs1, CondBits(cond), 0x63)
    case Load(width, zeroExtend, rd, rs1, imm) =>
      IType(imm, rs1, WidthBits(width) | if zeroExtend then 4 else 0, rd, 0x03)
    case Store(width, rs1, rs2, imm) => SType(imm, rs2, rs1, WidthBits(width), 0x23)
    case Immediate(iop, rd, rs1, imm) => IType(imm, rs1, ImmOpBits(iop), rd, 0x13)
    case Shift(sop, rd, rs1, shamt) => RType(ShiftOpBits(sop).0, shamt, rs1, ShiftOpBits(sop).1, rd, 0x13)
    case Register(rop, rd, rs1, rs2) => RType(RegOpBits(rop).0, rs2, rs1, RegOpBits(rop).1, rd, 0x33)
    case Fence(operands) => (operands as bv32 << 7) | 0x0F
    case Ecall => 0x0000_0073
    case Sret => 0x1020_0073
  }

  // ---- Values -----------------------------------------------------------------------------

  function SignExtend12(x: bv12): Word {
    var w := x as bv32;
    if w & 0x800 != 0 then w | 0xFFFF_F000 else w
  }

  /** The byte offset of a branch: 12 signed parcels. */
  function BranchOffset(distance: bv12): Word {
    var w := distance as bv32;
    if w & 0x800 != 0 then (w | 0xFFFF_F000) << 1 else w << 1
  }

  /** The byte offset of a jump: 20 signed parcels. */
  function JumpOffset(parcels: bv20): Word {
    var w := parcels as bv32;
    if w & 0x8_0000 != 0 then (w | 0xFFF0_0000) << 1 else w << 1
  }

  /** The two's complement value of a word. */
  function Signed(x: Word): int {
    if x >= 0x8000_0000 then x as int - 0x1_0000_0000 else x as int
  }

  predicate LessSigned(x: Word, y: Word) {
    Signed(x) < Signed(y)
  }

  function ShiftRightArithmetic(x: Word, n: bv5): Word {
    if x >= 0x8000_0000 then !((!x) >> n) else x >> n
  }

  function ShiftBy(op: ShiftOp, x: Word, n: bv5): Word {
    match op
    case SLLI => x << n
    case SRLI => x >> n
    case SRAI => ShiftRightArithmetic(x, n)
  }

  /** The value of an integer modulo 2^32. */
  function ToWord(x: int): Word {
    (x % 0x1_0000_0000) as bv32
  }

  function Compute(op: RegOp, x: Word, y: Word): Word {
    var n := (y & 0x1F) as bv5;
    match op
    case ADD => x + y
    case SUB => x - y
    case SLL => ShiftBy(SLLI, x, n)
    case SLT => if LessSigned(x, y) then 1 else 0
    case SLTU => if x < y then 1 else 0
    case XOR => x ^ y
    case SRL => ShiftBy(SRLI, x, n)
    case SRA => ShiftBy(SRAI, x, n)
    case OR => x | y
    case AND => x & y
    case MUL => ToWord(x as int * y as int)
    case MULH => ToWord(Signed(x) * Signed(y) / 0x1_0000_0000)
    case MULHU => ToWord(x as int * y as int / 0x1_0000_0000)
  }

  function Holds(c: Cond, x: Word, y: Word): bool {
    match c
    case EQ => x == y
    case NE => x != y
    case LT => LessSigned(x, y)
    case GE => !LessSigned(x, y)
    case LTU => x < y
    case GEU => x >= y
  }

  // ---- Architectural state ------------------------------------------------------------------

  /** Maps are keyed by wrapped numbers. */
  datatype Gpr = X(n: Reg)
  datatype Cell = At(addr: Word)

  type Regs = map<Gpr, Word>
  type Memory = map<Cell, bv8>

  /** Supervisor mode, and the fields of sstatus, that traps save and restore. */
  datatype Csrs = Csrs(sstatus: Word, stvec: Word, sepc: Word, scause: Word, stval: Word, supervisor: bool)

  datatype Arch = Arch(pc: Word, regs: Regs, mem: Memory, csrs: Csrs)

  function ReadReg(regs: Regs, r: Reg): Word {
    if r == 0 || X(r) !in regs then 0 else regs[X(r)]
  }

  function WriteReg(regs: Regs, r: Reg, v: Word): Regs {
    if r == 0 then regs else regs[X(r) := v]
  }

  function ReadByte(mem: Memory, a: Word): bv8 {
    if At(a) in mem then mem[At(a)] else 0
  }

  /** Address arithmetic wraps around. */
  function Plus(x: Word, y: Word): Word { x + y }

  function Minus(x: Word, y: Word): Word { x - y }

  /** The first byte is the low one. */
  function Pack2(b0: bv8, b1: bv8): Word {
    b0 as bv32 | (b1 as bv32 << 8)
  }

  function Pack4(b0: bv8, b1: bv8, b2: bv8, b3: bv8): Word {
    b0 as bv32 | (b1 as bv32 << 8) | (b2 as bv32 << 16) | (b3 as bv32 << 24)
  }

  function ReadBytes(mem: Memory, a: Word, w: Width): Word {
    match w
    case Byte => ReadByte(mem, a) as bv32
    case Half => Pack2(ReadByte(mem, a), ReadByte(mem, Plus(a, 1)))
    case Full =>
      Pack4(ReadByte(mem, a), ReadByte(mem, Plus(a, 1)), ReadByte(mem, Plus(a, 2)), ReadByte(mem, Plus(a, 3)))
  }

  function WriteBytes(mem: Memory, a: Word, w: Width, v: Word): Memory {
    var b0, b1 := (v & 0xFF) as bv8, ((v >> 8) & 0xFF) as bv8;
    var b2, b3 := ((v >> 16) & 0xFF) as bv8, ((v >> 24) & 0xFF) as bv8;
    match w
    case Byte => mem[At(a) := b0]
    case Half => mem[At(a) := b0][At(Plus(a, 1)) := b1]
    case Full => mem[At(a) := b0][At(Plus(a, 1)) := b1][At(Plus(a, 2)) := b2][At(Plus(a, 3)) := b3]
  }

  function Extend(w: Width, zeroExtend: bool, v: Word): Word {
    match w
    case Byte => if !zeroExtend && v & 0x80 != 0 then v | 0xFFFF_FF00 else v
    case Half => if !zeroExtend && v & 0x8000 != 0 then v | 0xFFFF_0000 else v
    case Full => v
  }

  /** The access spills out of its aligned word. */
  predicate Crosses(a: Word, w: Width) {
    match w
    case Byte => false
    case Half => a & 3 == 3
    case Full => a & 3 != 0
  }

  // ---- Execution ------------------------------------------------------------------------------

  datatype Outcome = Done(next: Arch) | Raise(cause: Word, value: Word)

  const FETCH_MISALIGNED: Word := 0
  const FETCH_FAULT: Word := 1
  const LOAD_MISALIGNED: Word := 4
  const LOAD_FAULT: Word := 5
  const STORE_MISALIGNED: Word := 6
  const STORE_FAULT: Word := 7
  const USER_ECALL: Word := 8
  const SUPERVISOR_ECALL: Word := 9

  function SetRegAndStep(s: Arch, rd: Reg, v: Word): Outcome {
    Done(s.(pc := Plus(s.pc, 4), regs := WriteReg(s.regs, rd, v)))
  }

  /** SIE (bit 1) comes back from SPIE (bit 5), which is set. */
  function RestoredStatus(x: Word): Word {
    (if x & 0x20 != 0 then x | 0x2 else x & !0x2) | 0x20
  }

  /** The mode goes to SPP (bit 8) and SIE to SPIE; SIE is cleared. */
  function SavedStatus(x: Word, supervisor: bool): Word {
    (x & !0x122) | (if supervisor then 0x100 else 0) | (if x & 0x2 != 0 then 0x20 else 0)
  }

  /** sret */
  function ReturnFromTrap(c: Csrs): Csrs {
    c.(supervisor := c.sstatus & 0x100 != 0, sstatus := RestoredStatus(c.sstatus))
  }

  /** Trap entry */
  function TrapCsrs(c: Csrs, cause: Word, epc: Word, value: Word): Csrs {
    c.(sstatus := SavedStatus(c.sstatus, c.supervisor), sepc := epc, scause := cause, stval := value,
       supervisor := true)
  }

  function EnterTrap(s: Arch, cause: Word, epc: Word, value: Word): Arch {
    s.(pc := s.csrs.stvec, csrs := TrapCsrs(s.csrs, cause, epc, value))
  }

  function OpOfImm(op: ImmOp): RegOp {
    match op
    case ADDI => ADD case SLTI => SLT case SLTIU => SLTU case XORI => XOR case ORI => OR case ANDI => AND
  }

  function Exec(s: Arch, i: Instr): Outcome {
    match i
    case Lui(rd, upper) => SetRegAndStep(s, rd, upper as bv32 << 12)
    case Auipc(rd, upper) => SetRegAndStep(s, rd, Plus(s.pc, upper as bv32 << 12))
    case Jal(rd, parcels) =>
      Done(s.(pc := Plus(s.pc, JumpOffset(parcels)), regs := WriteReg(s.regs, rd, Plus(s.pc, 4))))
    case Jalr(rd, rs1, imm) =>
      Done(s.(pc := Plus(ReadReg(s.regs, rs1), SignExtend12(imm)) & !1, regs := WriteReg(s.regs, rd, Plus(s.pc, 4))))
    case Branch(cond, rs1, rs2, distance) =>
      var taken := Holds(cond, ReadReg(s.regs, rs1), ReadReg(s.regs, rs2));
      Done(s.(pc := if taken then Plus(s.pc, BranchOffset(distance)) else Plus(s.pc, 4)))
    case Load(width, zeroExtend, rd, rs1, imm) =>
      var a := Plus(ReadReg(s.regs, rs1), SignExtend12(imm));
      if Crosses(a, width) then Raise(LOAD_MISALIGNED, a)
      else SetRegAndStep(s, rd, Extend(width, zeroExtend, ReadBytes(s.mem, a, width)))
    case Store(width, rs1, rs2, imm) =>
      var a := Plus(ReadReg(s.regs, rs1), SignExtend12(imm));
      if Crosses(a, width) then Raise(STORE_MISALIGNED, a)
      else Done(s.(pc := Plus(s.pc, 4), mem := WriteBytes(s.mem, a, width, ReadReg(s.regs, rs2))))
    case Immediate(iop, rd, rs1, imm) =>
      SetRegAndStep(s, rd, Compute(OpOfImm(iop), ReadReg(s.regs, rs1), SignExtend12(imm)))
    case Shift(sop, rd, rs1, shamt) =>
      SetRegAndStep(s, rd, ShiftBy(sop, ReadReg(s.regs, rs1), shamt))
    case Register(rop, rd, rs1, rs2) =>
      SetRegAndStep(s, rd, Compute(rop, ReadReg(s.regs, rs1), ReadReg(s.regs, rs2)))
    case Fence(_) => Done(s.(pc := Plus(s.pc, 4)))
    case Ecall => Raise(if s.csrs.supervisor then SUPERVISOR_ECALL else USER_ECALL, s.pc)
    case Sret => Done(s.(pc := s.csrs.sepc, csrs := ReturnFromTrap(s.csrs)))
  }
}
