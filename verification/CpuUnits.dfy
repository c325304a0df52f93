/** The combinational units of the CPU: instruction decoder, ALU, branch tester, alignment checker. */
module CpuUnits {
  import opened Isa

  // ---- IR.v -------------------------------------------------------------------------------

  datatype Kind =
    | KLui | KAuipc | KJal | KJalr | KBranch | KLoad | KStore | KArlogImm | KArlog | KMiscMem
    | KEcall | KSret | KCsr | KSystem | KNone

  datatype Fields = Fields(funct: bv10, rd: bv5, rs1: bv5, rs2: bv5, imm: Word)

  function Opcode(ir: Word): bv7 { (ir & 0x7F) as bv7 }

  function Funct3(ir: Word): bv3 { ((ir >> 12) & 7) as bv3 }

  function Funct7(ir: Word): bv7 { (ir >> 25) as bv7 }

  /** The bits above `low` repeat the sign bit of the instruction. */
  function Filled(ir: Word, high: Word, low: Word): Word {
    if ir & 0x8000_0000 != 0 then high | low else low
  }

  function ImmI(ir: Word): Word {
    Filled(ir, 0xFFFF_F000, ir >> 20)
  }

  function ImmS(ir: Word): Word {
    Filled(ir, 0xFFFF_F000, ((ir >> 25) << 5) | ((ir >> 7) & 0x1F))
  }

  function ImmB(ir: Word): Word {
    Filled(ir, 0xFFFF_E000,
           ((ir >> 31) << 12) | (((ir >> 7) & 1) << 11) | (((ir >> 25) & 0x3F) << 5) | (((ir >> 8) & 0xF) << 1))
  }

  function ImmU(ir: Word): Word {
    (ir >> 12) << 12
  }

  function ImmJ(ir: Word): Word {
    Filled(ir, 0xFFE0_0000,
           ((ir >> 31) << 20) | (((ir >> 12) & 0xFF) << 12) | (((ir >> 20) & 1) << 11) | (((ir >> 21) & 0x3FF) << 1))
  }

  /** The one instruction flag that is set. */
  function KindOf(ir: Word): Kind {
    var op := Opcode(ir);
    if op == 0x37 then KLui
    else if op == 0x17 then KAuipc
    else if op == 0x6F then KJal
    else if op == 0x67 then KJalr
    else if op == 0x63 then KBranch
    else if op == 0x03 then KLoad
    else if op == 0x23 then KStore
    else if op == 0x13 then KArlogImm
    else if op == 0x33 then KArlog
    else if op == 0x0F then KMiscMem
    else if op == 0x73 then
      if Funct3(ir) != 0 then KCsr
      else if ImmI(ir) == 0 then KEcall
      else if ImmI(ir) == 0x102 then KSret
      else KSystem
    else KNone
  }

  function Decode(ir: Word): Fields {
    var kind, f3 := KindOf(ir), Funct3(ir);
    var high: bv7 :=
      if kind.KArlog? || (kind.KArlogImm? && (f3 == 1 || f3 == 5)) then Funct7(ir) else 0;
    var imm :=
      if kind.KLui? || kind.KAuipc? then ImmU(ir)
      else if kind.KJal? then ImmJ(ir)
      else if kind.KJalr? || kind.KLoad? || kind.KArlogImm? || kind.KEcall? || kind.KSret?
              || kind.KCsr? || kind.KSystem?
        then ImmI(ir)
      else if kind.KBranch? then ImmB(ir)
      else if kind.KStore? then ImmS(ir)
      else 0;
    Fields(Funct(high, f3), RdOf(ir), Rs1Of(ir), Rs2Of(ir), imm)
  }

  // ---- ALU.v --------------------------------------------------------------------------------

  const TWO_32 := 0x1_0000_0000
  const TWO_64 := 0x1_0000_0000_0000_0000

  /** A word as a signed or unsigned operand of a 64-bit context. */
  function Widen(x: Word, signed: bool): int {
    if signed && x >= 0x8000_0000 then x as int + TWO_64 - TWO_32 else x as int
  }

  /** The 64-bit product wire: both operands are widened, the product is cut to 64 bits. */
  function Product(x: Word, y: Word, signed: bool): int {
    Widen(x, signed) * Widen(y, signed) % TWO_64
  }

  function Upper(p: int): Word
    requires 0 <= p < TWO_64
  {
    (p / TWO_32) as bv32
  }

  /** The vacated bits are filled with the sign bit. */
  function ShiftRightSigned(a: Word, n: bv5): Word {
    if a & 0x8000_0000 != 0 then (a >> n) | !(0xFFFF_FFFF >> n) else a >> n
  }

  function Alu(funct: bv10, a: Word, b: Word): Word {
    var n := (b & 0x1F) as bv5;
    if funct == 0x000 then a + b
    else if funct == 0x100 then a - b
    else if funct == 0x001 then a << n
    else if funct == 0x002 then if Signed(a) < Signed(b) then 1 else 0
    else if funct == 0x003 then if a < b then 1 else 0
    else if funct == 0x004 then a ^ b
    else if funct == 0x005 then a >> n
    else if funct == 0x105 then ShiftRightSigned(a, n)
    else if funct == 0x006 then a | b
    else if funct == 0x007 then a & b
    else if funct == 0x008 then (Product(a, b, true) % TWO_32) as bv32
    else if funct == 0x009 then Upper(Product(a, b, true))
    else if funct == 0x00A then Upper(Product(a, b, false))
    else if funct == 0x00B then Upper(Product(a, b, false))
    else 0
  }

  // ---- BranchTester.sv ------------------------------------------------------------------------

  function BranchTaken(funct3: bv3, a: Word, b: Word): bool {
    if funct3 == 0 then a == b
    else if funct3 == 1 then a != b
    else if funct3 == 4 then Signed(a) < Signed(b)
    else if funct3 == 5 then Signed(a) >= Signed(b)
    else if funct3 == 6 then a < b
    else if funct3 == 7 then a >= b
    else false
  }

  // ---- AlignmentChecker.sv ----------------------------------------------------------------------

  function Overflow(offset: bv2, mask: bv4): bool {
    if offset == 0 then false
    else if offset == 1 then mask & 8 != 0
    else if offset == 2 then mask & 12 != 0
    else mask & 14 != 0
  }

  /** ma_data_mask in the execute states, from the low bits of funct3. */
  function DataMask(funct3: bv3): bv4 {
    if funct3 & 3 == 0 then 1 else if funct3 & 3 == 1 then 3 else 15
  }

  /** gpr_dst_in for a load. */
  function LoadedValue(funct3: bv3, data: Word): Word {
    if funct3 == 0 then if data & 0x80 != 0 then 0xFFFF_FF00 | (data & 0xFF) else data & 0xFF
    else if funct3 == 1 then if data & 0x8000 != 0 then 0xFFFF_0000 | (data & 0xFFFF) else data & 0xFFFF
    else if funct3 == 2 then data
    else if funct3 == 4 then data & 0xFF
    else if funct3 == 5 then data & 0xFFFF
    else 0
  }

  // ---- The decoder inverts the encoding ---------------------------------------------------------------

  function RdOf(ir: Word): bv5 { ((ir >> 7) & 0x1F) as bv5 }

  function Rs1Of(ir: Word): bv5 { ((ir >> 15) & 0x1F) as bv5 }

  function Rs2Of(ir: Word): bv5 { ((ir >> 20) & 0x1F) as bv5 }

  lemma RFields(f7: bv7, rs2: Reg, rs1: Reg, f3: bv3, rd: Reg, op: bv7)
    ensures var w := RType(f7, rs2, rs1, f3, rd, op);
      && Opcode(w) == op && Funct3(w) == f3 && Funct7(w) == f7
      && RdOf(w) == rd && Rs1Of(w) == rs1 && Rs2Of(w) == rs2
  {
  }

  lemma IFields(imm: bv12, rs1: Reg, f3: bv3, rd: Reg, op: bv7)
    ensures var w := IType(imm, rs1, f3, rd, op);
      && Opcode(w) == op && Funct3(w) == f3 && RdOf(w) == rd && Rs1Of(w) == rs1
      && ImmI(w) == SignExtend12(imm)
  {
  }

  lemma ShiftAmount(f7: bv7, shamt: bv5, rs1: Reg, f3: bv3, rd: Reg, op: bv7)
    ensures (ImmI(RType(f7, shamt, rs1, f3, rd, op)) & 0x1F) as bv5 == shamt
  {
  }

  lemma SFields(imm: bv12, rs2: Reg, rs1: Reg, f3: bv3, op: bv7)
    ensures var w := SType(imm, rs2, rs1, f3, op);
      && Opcode(w) == op && Funct3(w) == f3 && Rs1Of(w) == rs1 && Rs2Of(w) == rs2
  {
    RFields((imm >> 5) as bv7, rs2, rs1, f3, (imm & 0x1F) as bv5, op);
  }

  /** The bits of a store offset where the S format puts them. */
  ghost predicate StoreBits(w: Word, q: Word) {
    && w >> 25 == q >> 5 && (w >> 7) & 0x1F == q & 0x1F
    && (w & 0x8000_0000 != 0 <==> q & 0x800 != 0) && q <= 0xFFF
  }

  lemma StoreEncoded(imm: bv12, rs2: Reg, rs1: Reg, f3: bv3, op: bv7)
    ensures StoreBits(SType(imm, rs2, rs1, f3, op), imm as bv32)
  {
  }

  lemma StoreDecoded(w: Word, imm: bv12)
    requires StoreBits(w, imm as bv32)
    ensures ImmS(w) == SignExtend12(imm)
  {
    var q := imm as bv32;
    assert ((q >> 5) << 5) | (q & 0x1F) == q;
  }

  lemma BFields(d: bv12, rs2: Reg, rs1: Reg, f3: bv3, op: bv7)
    ensures var w := BType(d, rs2, rs1, f3, op);
      && Opcode(w) == op && Funct3(w) == f3 && Rs1Of(w) == rs1 && Rs2Of(w) == rs2
  {
  }

  /** The bits of a branch offset where the B format puts them. */
  ghost predicate BranchBits(w: Word, q: Word) {
    && w >> 31 == (q >> 11) & 1 && (w >> 7) & 1 == (q >> 10) & 1
    && (w >> 25) & 0x3F == (q >> 4) & 0x3F && (w >> 8) & 0xF == q & 0xF
    && (w & 0x8000_0000 != 0 <==> q & 0x800 != 0) && q <= 0xFFF
  }

  lemma BranchEncoded(d: bv12, rs2: Reg, rs1: Reg, f3: bv3, op: bv7)
    ensures BranchBits(BType(d, rs2, rs1, f3, op), d as bv32)
  {
  }

  lemma BranchNegative(w: Word, q: Word)
    requires BranchBits(w, q) && q & 0x800 != 0
    ensures ImmB(w) == (q | 0xFFFF_F000) << 1
  {
  }

  lemma BranchPositive(w: Word, q: Word)
    requires BranchBits(w, q) && q & 0x800 == 0
    ensures ImmB(w) == q << 1
  {
  }

  lemma BranchDecoded(w: Word, d: bv12)
    requires BranchBits(w, d as bv32)
    ensures ImmB(w) == BranchOffset(d)
  {
    var q := d as bv32;
    if q & 0x800 != 0 {
      BranchNegative(w, q);
    } else {
      BranchPositive(w, q);
    }
  }

  lemma UFields(upper: bv20, rd: Reg, op: bv7)
    ensures var w := UType(upper, rd, op);
      Opcode(w) == op && RdOf(w) == rd && ImmU(w) == upper as bv32 << 12
  {
  }

  lemma JFields(p: bv20, rd: Reg, op: bv7)
    ensures var w := JType(p, rd, op);
      Opcode(w) == op && RdOf(w) == rd
  {
  }

  /** The bits of a jump offset where the J format puts them. */
  ghost predicate JumpBits(w: Word, q: Word) {
    && (w >> 12) & 0xFF == (q >> 11) & 0xFF && (w >> 20) & 1 == (q >> 10) & 1
    && (w >> 21) & 0x3FF == q & 0x3FF && w >> 31 == (q >> 19) & 1
    && (w & 0x8000_0000 != 0 <==> q & 0x8_0000 != 0) && q <= 0xF_FFFF
  }

  lemma JumpEncoded(p: bv20, rd: Reg, op: bv7)
    ensures JumpBits(JType(p, rd, op), p as bv32)
  {
  }

  lemma JumpNegative(w: Word, q: Word)
    requires JumpBits(w, q) && q & 0x8_0000 != 0
    ensures ImmJ(w) == (q | 0xFFF0_0000) << 1
  {
  }

  lemma JumpPositive(w: Word, q: Word)
    requires JumpBits(w, q) && q & 0x8_0000 == 0
    ensures ImmJ(w) == q << 1
  {
  }

  lemma JumpDecoded(w: Word, p: bv20)
    requires JumpBits(w, p as bv32)
    ensures ImmJ(w) == JumpOffset(p)
  {
    var q := p as bv32;
    if q & 0x8_0000 != 0 {
      JumpNegative(w, q);
    } else {
      JumpPositive(w, q);
    }
  }

  function Funct(f7: bv7, f3: bv3): bv10 {
    (f7 as bv10 << 3) | f3 as bv10
  }

  /** What the decoder delivers for an instruction, as far as the instruction uses it. */
  ghost predicate Delivers(i: Instr, kind: Kind, f: Fields) {
    match i
    case Lui(rd, upper) => kind == KLui && f.rd == rd && f.imm == upper as bv32 << 12
    case Auipc(rd, upper) => kind == KAuipc && f.rd == rd && f.imm == upper as bv32 << 12
    case Jal(rd, parcels) => kind == KJal && f.rd == rd && f.imm == JumpOffset(parcels)
    case Jalr(rd, rs1, imm) => kind == KJalr && f.rd == rd && f.rs1 == rs1 && f.imm == SignExtend12(imm)
    case Branch(cond, rs1, rs2, distance) =>
      && kind == KBranch && f.rs1 == rs1 && f.rs2 == rs2
      && f.funct == Funct(0, CondBits(cond)) && f.imm == BranchOffset(distance)
    case Load(width, zeroExtend, rd, rs1, imm) =>
      && kind == KLoad && f.rd == rd && f.rs1 == rs1 && f.imm == SignExtend12(imm)
      && f.funct == Funct(0, WidthBits(width) | if zeroExtend then 4 else 0)
    case Store(width, rs1, rs2, imm) =>
      && kind == KStore && f.rs1 == rs1 && f.rs2 == rs2 && f.imm == SignExtend12(imm)
      && f.funct == Funct(0, WidthBits(width))
    case Immediate(iop, rd, rs1, imm) =>
      && kind == KArlogImm && f.rd == rd && f.rs1 == rs1 && f.imm == SignExtend12(imm)
      && f.funct == Funct(0, ImmOpBits(iop))
    case Shift(sop, rd, rs1, shamt) =>
      && kind == KArlogImm && f.rd == rd && f.rs1 == rs1 && (f.imm & 0x1F) as bv5 == shamt
      && f.funct == Funct(ShiftOpBits(sop).0, ShiftOpBits(sop).1)
    case Register(rop, rd, rs1, rs2) =>
      && kind == KArlog && f.rd == rd && f.rs1 == rs1 && f.rs2 == rs2
      && f.funct == Funct(RegOpBits(rop).0, RegOpBits(rop).1)
    case Fence(_) => kind == KMiscMem
    case Ecall => kind == KEcall
    case Sret => kind == KSret
  }

  lemma FenceOpcode(operands: bv25)
    ensures Opcode((operands as bv32 << 7) | 0x0F) == 0x0F
  {
  }

  lemma SystemFields()
    ensures Opcode(0x0000_0073) == 0x73 && Funct3(0x0000_0073) == 0 && ImmI(0x0000_0073) == 0
    ensures Opcode(0x1020_0073) == 0x73 && Funct3(0x1020_0073) == 0 && ImmI(0x1020_0073) == 0x102
  {
  }

  /** The fields that the formats share, read back from a word. */
  ghost predicate Formatted(w: Word, op: bv7, f3: bv3, rs1: Reg) {
    Opcode(w) == op && Funct3(w) == f3 && Rs1Of(w) == rs1
  }

  lemma DeliverU(w: Word, i: Instr)
    requires i.Lui? || i.Auipc?
    requires Opcode(w) == (if i.Lui? then 0x37 else 0x17) && RdOf(w) == i.rd && ImmU(w) == i.upper as bv32 << 12
    ensures Delivers(i, KindOf(w), Decode(w))
  {
  }

  lemma DeliverJ(w: Word, i: Instr)
    requires i.Jal? && Opcode(w) == 0x6F && RdOf(w) == i.rd && ImmJ(w) == JumpOffset(i.parcels)
    ensures Delivers(i, KindOf(w), Decode(w))
  {
  }

  lemma DeliverI(w: Word, i: Instr)
    requires match i
      case Jalr(_, rs1, _) => Formatted(w, 0x67, 0, rs1)
      case Load(width, zeroExtend, _, rs1, _) => Formatted(w, 0x03, WidthBits(width) | if zeroExtend then 4 else 0, rs1)
      case Immediate(iop, _, rs1, _) => Formatted(w, 0x13, ImmOpBits(iop), rs1)
      case _ => false
    requires RdOf(w) == i.rd && ImmI(w) == SignExtend12(i.imm)
    ensures Delivers(i, KindOf(w), Decode(w))
  {
  }

  lemma DeliverB(w: Word, i: Instr)
    requires i.Branch? && Formatted(w, 0x63, CondBits(i.cond), i.rs1) && Rs2Of(w) == i.rs2
    requires ImmB(w) == BranchOffset(i.distance)
    ensures Delivers(i, KindOf(w), Decode(w))
  {
  }

  lemma DeliverS(w: Word, i: Instr)
    requires i.Store? && Formatted(w, 0x23, WidthBits(i.width), i.rs1) && Rs2Of(w) == i.rs2
    requires ImmS(w) == SignExtend12(i.imm)
    ensures Delivers(i, KindOf(w), Decode(w))
  {
  }

  lemma DeliverR(w: Word, i: Instr)
    requires match i
      case Shift(sop, _, rs1, shamt) =>
        && Formatted(w, 0x13, ShiftOpBits(sop).1, rs1) && Funct7(w) == ShiftOpBits(sop).0
        && (ImmI(w) & 0x1F) as bv5 == shamt
      case Register(rop, _, rs1, rs2) =>
        Formatted(w, 0x33, RegOpBits(rop).1, rs1) && Funct7(w) == RegOpBits(rop).0 && Rs2Of(w) == rs2
      case _ => false
    requires RdOf(w) == i.rd
    ensures Delivers(i, KindOf(w), Decode(w))
  {
  }

  lemma DeliverOther(w: Word, i: Instr)
    requires match i
      case Fence(_) => Opcode(w) == 0x0F
      case Ecall => Opcode(w) == 0x73 && Funct3(w) == 0 && ImmI(w) == 0
      case Sret => Opcode(w) == 0x73 && Funct3(w) == 0 && ImmI(w) == 0x102
      case _ => false
    ensures Delivers(i, KindOf(w), Decode(w))
  {
  }

  /** For every instruction, the decoder recovers from the encoded word what went into it. */
  lemma DecodeEncode(i: Instr)
    requires Legal(i)
    ensures Delivers(i, KindOf(Encode(i)), Decode(Encode(i)))
  {
    hide KindOf, Decode, Delivers;
    var w := Encode(i);
    match i {
      case Lui(rd, upper) =>
        UFields(upper, rd, 0x37);
        DeliverU(w, i);
      case Auipc(rd, upper) =>
        UFields(upper, rd, 0x17);
        DeliverU(w, i);
      case Jal(rd, parcels) =>
        JFields(parcels, rd, 0x6F);
        JumpEncoded(parcels, rd, 0x6F);
        JumpDecoded(w, parcels);
        DeliverJ(w, i);
      case Jalr(rd, rs1, imm) =>
        IFields(imm, rs1, 0, rd, 0x67);
        DeliverI(w, i);
      case Branch(cond, rs1, rs2, distance) =>
        BFields(distance, rs2, rs1, CondBits(cond), 0x63);
        BranchEncoded(distance, rs2, rs1, CondBits(cond), 0x63);
        BranchDecoded(w, distance);
        DeliverB(w, i);
      case Load(width, zeroExtend, rd, rs1, imm) =>
        IFields(imm, rs1, WidthBits(width) | if zeroExtend then 4 else 0, rd, 0x03);
        DeliverI(w, i);
      case Store(width, rs1, rs2, imm) =>
        SFields(imm, rs2, rs1, WidthBits(width), 0x23);
        StoreEncoded(imm, rs2, rs1, WidthBits(width), 0x23);
        StoreDecoded(w, imm);
        DeliverS(w, i);
      case Immediate(iop, rd, rs1, imm) =>
        IFields(imm, rs1, ImmOpBits(iop), rd, 0x13);
        DeliverI(w, i);
      case Shift(sop, rd, rs1, shamt) =>
        RFields(ShiftOpBits(sop).0, shamt, rs1, ShiftOpBits(sop).1, rd, 0x13);
        ShiftAmount(ShiftOpBits(sop).0, shamt, rs1, ShiftOpBits(sop).1, rd, 0x13);
        DeliverR(w, i);
      case Register(rop, rd, rs1, rs2) =>
        RFields(RegOpBits(rop).0, rs2, rs1, RegOpBits(rop).1, rd, 0x33);
        DeliverR(w, i);
      case Fence(operands) =>
        FenceOpcode(operands);
        DeliverOther(w, i);
      case Ecall =>
        SystemFields();
        DeliverOther(w, i);
      case Sret =>
        SystemFields();
        DeliverOther(w, i);
    }
  }

  // ---- The encoding is injective --------------------------------------------------------------------------

  lemma ImmediateShown(x: bv12)
    ensures SignExtend12(x) & 0xFFF == x as bv32
  {
  }

  lemma DistanceShown(x: bv12)
    ensures (BranchOffset(x) >> 1) & 0xFFF == x as bv32
  {
  }

  lemma BackwardShown(w: Word)
    requires w <= 0xF_FFFF
    ensures (((w | 0xFFF0_0000) << 1) >> 1) & 0xF_FFFF == w
  {
  }

  lemma ForwardShown(w: Word)
    requires w <= 0xF_FFFF
    ensures ((w << 1) >> 1) & 0xF_FFFF == w
  {
  }

  lemma ParcelsShown(x: bv20, w: Word)
    requires w == x as bv32
    ensures (JumpOffset(x) >> 1) & 0xF_FFFF == w
  {
    if w & 0x8_0000 != 0 {
      BackwardShown(w);
    } else {
      ForwardShown(w);
    }
  }

  lemma UpperShown(x: bv20)
    ensures (x as bv32 << 12) >> 12 == x as bv32
  {
  }

  lemma ImmediatesDiffer(x: bv12, y: bv12)
    requires SignExtend12(x) == SignExtend12(y)
    ensures x == y
  {
    ImmediateShown(x);
    ImmediateShown(y);
  }

  lemma DistancesDiffer(x: bv12, y: bv12)
    requires BranchOffset(x) == BranchOffset(y)
    ensures x == y
  {
    DistanceShown(x);
    DistanceShown(y);
  }

  lemma ParcelsDiffer(x: bv20, y: bv20)
    requires JumpOffset(x) == JumpOffset(y)
    ensures x == y
  {
    ParcelsShown(x, x as bv32);
    ParcelsShown(y, y as bv32);
  }

  lemma UppersDiffer(x: bv20, y: bv20)
    requires x as bv32 << 12 == y as bv32 << 12
    ensures x == y
  {
    UpperShown(x);
    UpperShown(y);
  }

  lemma FunctsDiffer(f7: bv7, f3: bv3, g7: bv7, g3: bv3)
    ensures Funct(f7, f3) == Funct(g7, g3) ==> f7 == g7 && f3 == g3
  {
  }

  lemma OperandsDiffer(x: bv25, y: bv25)
    ensures (x as bv32 << 7) | 0x0F == (y as bv32 << 7) | 0x0F ==> x == y
  {
  }

  lemma WidthsDiffer(w: Width, zx: bool, v: Width, zy: bool)
    ensures WidthBits(w) | (if zx then 4 else 0) == WidthBits(v) | (if zy then 4 else 0) ==> w == v && zx == zy
  {
  }

  lemma ShiftsAreNoImmediates(sop: ShiftOp, iop: ImmOp)
    ensures Funct(ShiftOpBits(sop).0, ShiftOpBits(sop).1) != Funct(0, ImmOpBits(iop))
  {
    FunctsDiffer(ShiftOpBits(sop).0, ShiftOpBits(sop).1, 0, ImmOpBits(iop));
  }

  /** Two instructions of one shape. */
  predicate Alike(i: Instr, j: Instr) {
    match i
    case Lui(_, _) => j.Lui?
    case Auipc(_, _) => j.Auipc?
    case Jal(_, _) => j.Jal?
    case Jalr(_, _, _) => j.Jalr?
    case Branch(_, _, _, _) => j.Branch?
    case Load(_, _, _, _, _) => j.Load?
    case Store(_, _, _, _) => j.Store?
    case Immediate(_, _, _, _) => j.Immediate?
    case Shift(_, _, _, _) => j.Shift?
    case Register(_, _, _, _) => j.Register?
    case Fence(_) => j.Fence?
    case Ecall => j.Ecall?
    case Sret => j.Sret?
  }

  lemma DeliveredAlike(i: Instr, j: Instr, kind: Kind, f: Fields)
    requires Delivers(i, kind, f) && Delivers(j, kind, f)
    ensures Alike(i, j)
  {
    if i.Shift? && j.Immediate? {
      ShiftsAreNoImmediates(i.sop, j.iop);
    } else if i.Immediate? && j.Shift? {
      ShiftsAreNoImmediates(j.sop, i.iop);
    }
  }

  lemma AddressingOnce(i: Instr, j: Instr, kind: Kind, f: Fields)
    requires Delivers(i, kind, f) && Delivers(j, kind, f) && Alike(i, j) && (i.Branch? || i.Load? || i.Store?)
    ensures i == j
  {
    match i {
      case Branch(cond, _, _, distance) =>
        DistancesDiffer(distance, j.distance);
        FunctsDiffer(0, CondBits(cond), 0, CondBits(j.cond));
      case Load(width, zx, _, _, imm) =>
        ImmediatesDiffer(imm, j.imm);
        FunctsDiffer(0, WidthBits(width) | if zx then 4 else 0, 0, WidthBits(j.width) | if j.zeroExtend then 4 else 0);
        WidthsDiffer(width, zx, j.width, j.zeroExtend);
      case Store(width, _, _, imm) =>
        ImmediatesDiffer(imm, j.imm);
        FunctsDiffer(0, WidthBits(width), 0, WidthBits(j.width));
    }
  }

  lemma ImmediateOnce(i: Instr, j: Instr, kind: Kind, f: Fields)
    requires Delivers(i, kind, f) && Delivers(j, kind, f) && i.Immediate? && j.Immediate?
    ensures i == j
  {
    ImmediatesDiffer(i.imm, j.imm);
    FunctsDiffer(0, ImmOpBits(i.iop), 0, ImmOpBits(j.iop));
  }

  lemma ShiftOnce(i: Instr, j: Instr, kind: Kind, f: Fields)
    requires Delivers(i, kind, f) && Delivers(j, kind, f) && i.Shift? && j.Shift?
    ensures i == j
  {
    FunctsDiffer(ShiftOpBits(i.sop).0, ShiftOpBits(i.sop).1, ShiftOpBits(j.sop).0, ShiftOpBits(j.sop).1);
  }

  lemma RegisterOnce(i: Instr, j: Instr, kind: Kind, f: Fields)
    requires Delivers(i, kind, f) && Delivers(j, kind, f) && i.Register? && j.Register?
    ensures i == j
  {
    FunctsDiffer(RegOpBits(i.rop).0, RegOpBits(i.rop).1, RegOpBits(j.rop).0, RegOpBits(j.rop).1);
  }

  lemma UpperOnce(i: Instr, j: Instr, kind: Kind, f: Fields)
    requires Delivers(i, kind, f) && Delivers(j, kind, f) && Alike(i, j) && (i.Lui? || i.Auipc?)
    ensures i == j
  {
    UppersDiffer(i.upper, j.upper);
  }

  lemma JumpOnce(i: Instr, j: Instr, kind: Kind, f: Fields)
    requires Delivers(i, kind, f) && Delivers(j, kind, f) && Alike(i, j) && (i.Jal? || i.Jalr?)
    ensures i == j
  {
    if i.Jal? {
      ParcelsDiffer(i.parcels, j.parcels);
    } else {
      ImmediatesDiffer(i.imm, j.imm);
    }
  }

  lemma FenceOnce(i: Instr, j: Instr)
    requires i.Fence? && j.Fence? && Encode(i) == Encode(j)
    ensures i == j
  {
    OperandsDiffer(i.operands, j.operands);
  }

  lemma DeliveredOnce(i: Instr, j: Instr, kind: Kind, f: Fields)
    requires Delivers(i, kind, f) && Delivers(j, kind, f) && Alike(i, j) && !i.Fence?
    ensures i == j
  {
    hide Delivers;
    if i.Branch? || i.Load? || i.Store? {
      AddressingOnce(i, j, kind, f);
    } else if i.Immediate? {
      ImmediateOnce(i, j, kind, f);
    } else if i.Shift? {
      ShiftOnce(i, j, kind, f);
    } else if i.Register? {
      RegisterOnce(i, j, kind, f);
    } else if i.Lui? || i.Auipc? {
      UpperOnce(i, j, kind, f);
    } else if i.Jal? || i.Jalr? {
      JumpOnce(i, j, kind, f);
    }
  }

  /** A word encodes at most one supported instruction. */
  lemma EncodeInjective(i: Instr, j: Instr)
    requires Legal(i) && Legal(j) && Encode(i) == Encode(j)
    ensures i == j
  {
    hide Encode, Decode, KindOf, Delivers;
    DecodeEncode(i);
    DecodeEncode(j);
    DeliveredAlike(i, j, KindOf(Encode(i)), Decode(Encode(i)));
    if i.Fence? {
      FenceOnce(i, j);
    } else {
      DeliveredOnce(i, j, KindOf(Encode(i)), Decode(Encode(i)));
    }
  }

  // ---- The ALU computes the standard's operations ------------------------------------------------------

  lemma ShiftFill(x: Word, n: bv5)
    ensures (x >> n) | !(0xFFFF_FFFF >> n) == !((!x) >> n)
  {
  }

  lemma SignBit(x: Word)
    ensures x & 0x8000_0000 != 0 <==> x >= 0x8000_0000
  {
  }

  /** Adding multiples of the modulus to both factors does not change the product's residue. */
  lemma ProductResidue(x: int, y: int, j: int, k: int)
    ensures (x + j * TWO_64) * (y + k * TWO_64) % TWO_64 == x * y % TWO_64
  {
    var q := x * k + j * y + j * k * TWO_64;
    assert (x + j * TWO_64) * (y + k * TWO_64) == x * y + q * TWO_64 by {
      assert (j * TWO_64) * (k * TWO_64) == j * k * TWO_64 * TWO_64;
    }
    MultiplesVanish(x * y, q);
  }

  lemma MultiplesVanish(t: int, q: int)
    ensures (t + q * TWO_64) % TWO_64 == t % TWO_64
  {
  }

  lemma WidenIsSigned(x: Word)
    ensures Widen(x, true) == Signed(x) + (if x >= 0x8000_0000 then 1 else 0) * TWO_64
  {
  }

  /** The signed product wire holds the product of the signed values modulo 2^64. */
  lemma SignedProduct(x: Word, y: Word)
    ensures Product(x, y, true) == Signed(x) * Signed(y) % TWO_64
  {
    WidenIsSigned(x);
    WidenIsSigned(y);
    ProductResidue(Signed(x), Signed(y), if x >= 0x8000_0000 then 1 else 0, if y >= 0x8000_0000 then 1 else 0);
  }

  lemma HalvesOfResidue(p: int)
    ensures p % TWO_64 / TWO_32 == p / TWO_32 % TWO_32
    ensures p % TWO_64 % TWO_32 == p % TWO_32
  {
    var q, r := p / TWO_64, p % TWO_64;
    assert p == q * TWO_64 + r;
    assert p / TWO_32 == q * TWO_32 + r / TWO_32;
  }

  lemma LowPart(a: int, b: int, i: int, j: int)
    ensures (a - i * TWO_32) * (b - j * TWO_32) % TWO_32 == a * b % TWO_32
  {
    var q := i * j * TWO_32 - a * j - i * b;
    assert (a - i * TWO_32) * (b - j * TWO_32) == a * b + q * TWO_32 by {
      assert (i * TWO_32) * (j * TWO_32) == i * j * TWO_32 * TWO_32;
    }
    LowMultiplesVanish(a * b, q);
  }

  lemma LowMultiplesVanish(t: int, q: int)
    ensures (t + q * TWO_32) % TWO_32 == t % TWO_32
  {
  }

  /** The low word of a product does not depend on the signs. */
  lemma LowWord(a: int, b: int, negA: bool, negB: bool)
    ensures (if negA then a - TWO_32 else a) * (if negB then b - TWO_32 else b) % TWO_32 == a * b % TWO_32
  {
    LowPart(a, b, if negA then 1 else 0, if negB then 1 else 0);
  }

  lemma TimesGrows(a: nat, m: nat, b: nat)
    requires a <= m
    ensures a * b <= m * b
  {
    assert (m - a) * b >= 0;
  }

  lemma ProductBound(a: nat, b: nat)
    requires a < TWO_32 && b < TWO_32
    ensures 0 <= a * b < TWO_64
  {
    TimesGrows(a, 0xFFFF_FFFF, b);
  }

  lemma SignedLow(x: Word, y: Word)
    ensures Signed(x) * Signed(y) % TWO_32 == x as int * y as int % TWO_32
  {
    LowWord(x as int, y as int, x >= 0x8000_0000, y >= 0x8000_0000);
  }

  lemma LowOfProduct(p: int, s: int, t: int)
    requires p == s % TWO_64 && s % TWO_32 == t % TWO_32
    ensures p % TWO_32 == t % TWO_32
  {
    HalvesOfResidue(s);
  }

  lemma MulLow(x: Word, y: Word)
    ensures Alu(Funct(1, 0), x, y) == Compute(MUL, x, y)
  {
    SignedProduct(x, y);
    SignedLow(x, y);
    LowOfProduct(Product(x, y, true), Signed(x) * Signed(y), x as int * y as int);
  }

  lemma MulHigh(x: Word, y: Word)
    ensures Alu(Funct(1, 1), x, y) == Compute(MULH, x, y)
  {
    SignedProduct(x, y);
    HalvesOfResidue(Signed(x) * Signed(y));
  }

  lemma MulHighUnsigned(x: Word, y: Word)
    ensures Alu(Funct(1, 3), x, y) == Compute(MULHU, x, y)
  {
    ProductBound(x as int, y as int);
    HalvesOfResidue(x as int * y as int);
  }

  lemma ShiftsAgree(x: Word, n: bv5)
    ensures ShiftRightSigned(x, n) == ShiftRightArithmetic(x, n)
  {
    ShiftFill(x, n);
    SignBit(x);
  }

  lemma ShiftArithmetic(x: Word, y: Word)
    ensures Alu(Funct(0x20, 5), x, y) == Compute(SRA, x, y)
  {
    ShiftsAgree(x, (y & 0x1F) as bv5);
  }

  lemma Sums(x: Word, y: Word)
    ensures Alu(Funct(0, 0), x, y) == Compute(ADD, x, y)
    ensures Alu(Funct(0x20, 0), x, y) == Compute(SUB, x, y)
  {
  }

  lemma LeftShift(x: Word, y: Word)
    ensures Alu(Funct(0, 1), x, y) == Compute(SLL, x, y)
  {
  }

  lemma RightShift(x: Word, y: Word)
    ensures Alu(Funct(0, 5), x, y) == Compute(SRL, x, y)
  {
  }

  lemma Comparisons(x: Word, y: Word)
    ensures Alu(Funct(0, 2), x, y) == Compute(SLT, x, y)
    ensures Alu(Funct(0, 3), x, y) == Compute(SLTU, x, y)
  {
  }

  lemma BitwiseOps(x: Word, y: Word)
    ensures Alu(Funct(0, 4), x, y) == Compute(XOR, x, y)
    ensures Alu(Funct(0, 6), x, y) == Compute(OR, x, y)
    ensures Alu(Funct(0, 7), x, y) == Compute(AND, x, y)
  {
  }

  /** The ALU computes every supported register operation. */
  lemma AluComputes(op: RegOp, x: Word, y: Word)
    ensures Alu(Funct(RegOpBits(op).0, RegOpBits(op).1), x, y) == Compute(op, x, y)
  {
    match op {
      case MUL => MulLow(x, y);
      case MULH => MulHigh(x, y);
      case MULHU => MulHighUnsigned(x, y);
      case SRA => ShiftArithmetic(x, y);
      case ADD => Sums(x, y);
      case SUB => Sums(x, y);
      case SLL => LeftShift(x, y);
      case SRL => RightShift(x, y);
      case SLT => Comparisons(x, y);
      case SLTU => Comparisons(x, y);
      case XOR => BitwiseOps(x, y);
      case OR => BitwiseOps(x, y);
      case AND => BitwiseOps(x, y);
    }
  }

  lemma SubtractedHigh(a: int, b: int)
    requires 0 <= b < TWO_32
    ensures (a - b * TWO_32) / TWO_32 == a / TWO_32 - b
  {
  }

  lemma ResidueShifts(h: int, b: int)
    requires 0 <= b < TWO_32 && 0 <= h < TWO_32
    ensures (h - b) % TWO_32 == h <==> b == 0
  {
  }

  lemma HighMixed(p: int, b: nat)
    requires 0 <= p < TWO_64 && b < TWO_32
    ensures p / TWO_32 == (p - b * TWO_32) / TWO_32 % TWO_32 <==> b == 0
    ensures p / TWO_32 == p / TWO_32 % TWO_32
  {
    SubtractedHigh(p, b);
    ResidueShifts(p / TWO_32, b);
  }

  lemma SignedFactor(a: nat, b: nat)
    ensures (a - TWO_32) * b == a * b - b * TWO_32
  {
  }

  lemma MixedHigh(a: nat, b: nat)
    requires a < TWO_32 && b < TWO_32
    ensures a * b / TWO_32 == (a - TWO_32) * b / TWO_32 % TWO_32 <==> b == 0
    ensures a * b / TWO_32 == a * b / TWO_32 % TWO_32
  {
    ProductBound(a, b);
    SignedFactor(a, b);
    HighMixed(a * b, b);
  }

  lemma ProductHigh(x: Word, y: Word)
    ensures Product(x, y, false) / TWO_32 == Signed(x) * y as int / TWO_32 % TWO_32
            <==> x < 0x8000_0000 || y as int == 0
  {
    MixedHigh(x as int, y as int);
    ProductBound(x as int, y as int);
  }

  lemma Nibble(m: nat) returns (x: bv4)
    requires m < 16
    ensures x as int == m
  {
    x := m as bv4;
  }

  lemma ByteGlued(a: bv4, b: bv4)
    ensures ((a as bv8 << 4) | b as bv8) as int == a as int * 16 + b as int
  {
  }

  lemma HalfGlued(a: bv8, b: bv8)
    ensures ((a as bv16 << 8) | b as bv16) as int == a as int * 256 + b as int
  {
  }

  lemma WordGlued(a: bv16, b: bv16)
    ensures ((a as bv32 << 16) | b as bv32) as int == a as int * 65536 + b as int
  {
  }

  lemma ByteOf(m: nat) returns (x: bv8)
    requires m < 256
    ensures x as int == m
  {
    var a := Nibble(m / 16);
    var b := Nibble(m % 16);
    ByteGlued(a, b);
    x := (a as bv8 << 4) | b as bv8;
  }

  lemma HalfOf(m: nat) returns (x: bv16)
    requires m < 65536
    ensures x as int == m
  {
    var a := ByteOf(m / 256);
    var b := ByteOf(m % 256);
    HalfGlued(a, b);
    x := (a as bv16 << 8) | b as bv16;
  }

  /** Every number below 2^32 is the value of a word. */
  lemma WordOf(m: nat) returns (x: Word)
    requires m < TWO_32
    ensures x as int == m
  {
    var a := HalfOf(m / 65536);
    var b := HalfOf(m % 65536);
    WordGlued(a, b);
    x := (a as bv32 << 16) | b as bv32;
  }

  lemma WordBack(x: Word)
    ensures (x as int) as bv32 == x
  {
  }

  lemma ValueBack(m: nat, x: Word)
    requires m < TWO_32 && x as int == m
    ensures (m as bv32) as int == m
  {
    WordBack(x);
  }

  /** A number below 2^32 comes back from its word. */
  lemma NumberBack(m: nat)
    requires m < TWO_32
    ensures (m as bv32) as int == m
  {
    var x := WordOf(m);
    ValueBack(m, x);
  }

  /** MULHSU (section 7.1 of the Unprivileged ISA) wants the upper word of a signed times an
      unsigned factor. The mixed-sign product multiplies both as unsigned, so the ALU meets the
      standard exactly when the signed factor is non-negative or the other one is zero. */
  lemma MulhsuExactly(x: Word, y: Word)
    ensures Alu(Funct(1, 2), x, y) == ToWord(Signed(x) * y as int / TWO_32) <==> x < 0x8000_0000 || y as int == 0
  {
    var p, q := Product(x, y, false) / TWO_32, Signed(x) * y as int / TWO_32 % TWO_32;
    ProductHigh(x, y);
    NumberBack(p);
    NumberBack(q);
    assert Alu(Funct(1, 2), x, y) == p as bv32;
  }

  // ---- Branches and data -------------------------------------------------------------------------------

  lemma BranchDecides(c: Cond, x: Word, y: Word)
    ensures BranchTaken(CondBits(c), x, y) == Holds(c, x, y)
  {
  }

  lemma OverflowIsCrossing(a: Word, w: Width, zeroExtend: bool)
    requires w.Full? ==> !zeroExtend
    ensures var f3: bv3 := WidthBits(w) | if zeroExtend then 4 else 0;
      Overflow((a & 3) as bv2, DataMask(f3)) == Crosses(a, w)
    ensures Overflow((a & 3) as bv2, 15) == Crosses(a, Full)
  {
  }

  /** The low bytes of `data` that an access of width `w` looks at. */
  function LowBytes(w: Width, data: Word): Word {
    match w
    case Byte => data & 0xFF
    case Half => data & 0xFFFF
    case Full => data
  }

  lemma ByteExtends(data: Word)
    ensures LoadedValue(0, data) == Extend(Byte, false, data & 0xFF)
    ensures LoadedValue(4, data) == Extend(Byte, true, data & 0xFF)
  {
  }

  lemma HalfExtends(data: Word)
    ensures LoadedValue(1, data) == Extend(Half, false, data & 0xFFFF)
    ensures LoadedValue(5, data) == Extend(Half, true, data & 0xFFFF)
  {
  }

  lemma LoadExtends(w: Width, zeroExtend: bool, data: Word)
    requires w.Full? ==> !zeroExtend
    ensures LoadedValue(WidthBits(w) | if zeroExtend then 4 else 0, data) == Extend(w, zeroExtend, LowBytes(w, data))
  {
    match w {
      case Byte => ByteExtends(data);
      case Half => HalfExtends(data);
      case Full =>
    }
  }
}
