/**
 Opcode selection: the nested switch over the bits of the instruction word.

 The source switches on raw bit patterns; here each switch is on the named
 fields those patterns are made of, and a field that selects only a size, a
 width or a format (0, 1 and 3 for single, double and quad; 2 is reserved) is
 decoded once instead of once per row.
*/
module OpcodeDecoder {
  import opened Opcodes

  // ----- fields of the instruction word

  function Major(inst: bv64): bv5 { ((inst >> 2) & 0x1F) as bv5 }

  function Rd(inst: bv64): bv5 { ((inst >> 7) & 0x1F) as bv5 }

  function Funct3(inst: bv64): bv3 { ((inst >> 12) & 0x7) as bv3 }

  function Rs1(inst: bv64): bv5 { ((inst >> 15) & 0x1F) as bv5 }

  function Rs2(inst: bv64): bv5 { ((inst >> 20) & 0x1F) as bv5 }

  function Funct2(inst: bv64): bv2 { ((inst >> 25) & 0x3) as bv2 }

  function Funct7(inst: bv64): bv7 { ((inst >> 25) & 0x7F) as bv7 }

  function Funct6(inst: bv64): bv6 { ((inst >> 26) & 0x3F) as bv6 }

  function Funct5(inst: bv64): bv5 { ((inst >> 27) & 0x1F) as bv5 }

  // ----- compressed quadrants

  function Quadrant0(inst: bv64, isa: Isa): Option<CompressedOp> {
    match (inst >> 13) & 0x7
    case 0 => Some(CAddi4spn)
    case 1 => Some(if isa == Rv128 then CLq else CFld)
    case 2 => Some(CLw)
    case 3 => Some(if isa == Rv32 then CFlw else CLd)
    case 5 => Some(if isa == Rv128 then CSq else CFsd)
    case 6 => Some(CSw)
    case 7 => Some(if isa == Rv32 then CFsw else CSd)
    case _ => None
  }

  function CompressedArithmetic(inst: bv64): Option<CompressedOp> {
    match (inst >> 10) & 0x3
    case 0 => Some(CSrli)
    case 1 => Some(CSrai)
    case 2 => Some(CAndi)
    case _ =>
      match ((inst >> 10) & 0x4) | ((inst >> 5) & 0x3)
      case 0 => Some(CSub)
      case 1 => Some(CXor)
      case 2 => Some(COr)
      case 3 => Some(CAnd)
      case 4 => Some(CSubw)
      case 5 => Some(CAddw)
      case _ => None
  }

  function Quadrant1(inst: bv64, isa: Isa): Option<CompressedOp> {
    match (inst >> 13) & 0x7
    case 0 => Some(if (inst >> 2) & 0x7FF == 0 then CNop else CAddi)
    case 1 => Some(if isa == Rv32 then CJal else CAddiw)
    case 2 => Some(CLi)
    case 3 => Some(if (inst >> 7) & 0x1F == 2 then CAddi16sp else CLui)
    case 4 => CompressedArithmetic(inst)
    case 5 => Some(CJ)
    case 6 => Some(CBeqz)
    case _ => Some(CBnez)
  }

  function Quadrant2(inst: bv64, isa: Isa): Option<CompressedOp> {
    match (inst >> 13) & 0x7
    case 0 => Some(CSlli)
    case 1 => Some(if isa == Rv128 then CLqsp else CFldsp)
    case 2 => Some(CLwsp)
    case 3 => Some(if isa == Rv32 then CFlwsp else CLdsp)
    case 4 =>
      if (inst >> 12) & 0x1 == 0 then
        Some(if (inst >> 2) & 0x1F == 0 then CJr else CMv)
      else if (inst >> 2) & 0x1F != 0 then
        Some(CAdd)
      else
        Some(if (inst >> 7) & 0x1F == 0 then CEbreak else CJalr)
    case 5 => Some(if isa == Rv128 then CSqsp else CFsdsp)
    case 6 => Some(CSwsp)
    case _ => Some(if isa == Rv32 then CFswsp else CSdsp)
  }

  function CompressedOpOf(inst: bv64, isa: Isa): Option<CompressedOp> {
    match inst & 0x3
    case 0 => Quadrant0(inst, isa)
    case 1 => Quadrant1(inst, isa)
    case _ => Quadrant2(inst, isa)
  }

  // ----- 32-bit instructions, by major opcode

  function LoadAt(funct3: bv3): LoadKind {
    match funct3
    case 0 => Lb case 1 => Lh case 2 => Lw case 3 => Ld
    case 4 => Lbu case 5 => Lhu case 6 => Lwu case _ => Ldu
  }

  function StoreAt(funct3: bv3): Option<StoreKind> {
    match funct3
    case 0 => Some(Sb) case 1 => Some(Sh) case 2 => Some(Sw) case 3 => Some(Sd) case 4 => Some(Sq)
    case _ => None
  }

  function FloatWidthAt(funct3: bv3): Option<Fmt> {
    match funct3 case 2 => Some(Single) case 3 => Some(Double) case 4 => Some(Quad) case _ => None
  }

  function MiscMem(funct3: bv3): Option<WideOp> {
    match funct3 case 0 => Some(Fence) case 1 => Some(FenceI) case 2 => Some(Load(Lq)) case _ => None
  }

  /** Shifts by an immediate; the shift amount leaves 5, 7 or 6 high bits to the opcode, by operand size. */
  function ShiftAt(inst: bv64, size: Size, right: bool): Option<WideOp> {
    var logical := match size case Full => Funct5(inst) == 0 case Low32 => Funct7(inst) == 0
      case Low64 => Funct6(inst) == 0;
    var arithmetic := match size case Full => Funct5(inst) == 8 case Low32 => Funct7(inst) == 32
      case Low64 => Funct6(inst) == 16;
    if logical then Some(ShiftImm(if right then Srli else Slli, size))
    else if right && arithmetic then Some(ShiftImm(Srai, size))
    else None
  }

  function OpImm(inst: bv64, size: Size): Option<WideOp> {
    match Funct3(inst)
    case 0 => Some(AddImm(size))
    case 1 => ShiftAt(inst, size, false)
    case 5 => ShiftAt(inst, size, true)
    case 2 => if size == Full then Some(LogicImm(Slti)) else None
    case 3 => if size == Full then Some(LogicImm(Sltiu)) else None
    case 4 => if size == Full then Some(LogicImm(Xori)) else None
    case 6 => if size == Full then Some(LogicImm(Ori)) else None
    case _ => if size == Full then Some(LogicImm(Andi)) else None
  }

  /** The register operations of every operand size. */
  function AluAt(funct7: bv7, funct3: bv3): Option<AluKind> {
    match funct7
    case 0 => (match funct3 case 0 => Some(Add) case 1 => Some(Sll) case 5 => Some(Srl) case _ => None)
    case 1 =>
      (match funct3
       case 0 => Some(Mul) case 4 => Some(Div) case 5 => Some(Divu) case 6 => Some(Rem) case 7 => Some(Remu)
       case _ => None)
    case 32 => (match funct3 case 0 => Some(Sub) case 5 => Some(Sra) case _ => None)
    case _ => None
  }

  /** The register operations of the whole register only. */
  function LogicAt(funct7: bv7, funct3: bv3): Option<LogicKind> {
    match funct7
    case 0 =>
      (match funct3
       case 2 => Some(Slt) case 3 => Some(Sltu) case 4 => Some(Xor) case 6 => Some(Or) case 7 => Some(And)
       case _ => None)
    case 1 => (match funct3 case 1 => Some(Mulh) case 2 => Some(Mulhsu) case 3 => Some(Mulhu) case _ => None)
    case _ => None
  }

  function OpReg(funct7: bv7, funct3: bv3, size: Size): Option<WideOp> {
    match AluAt(funct7, funct3)
    case Some(alu) => Some(Arith(alu, size))
    case None =>
      match LogicAt(funct7, funct3)
      case Some(logic) => if size == Full then Some(Logic(logic)) else None
      case None => None
  }

  function AmoAt(funct5: bv5, rs2: bv5): Option<AmoKind> {
    match funct5
    case 0 => Some(AmoAdd)
    case 1 => Some(AmoSwap)
    case 2 => if rs2 == 0 then Some(LoadReserved) else None
    case 3 => Some(StoreConditional)
    case 4 => Some(AmoXor)
    case 8 => Some(AmoOr)
    case 12 => Some(AmoAnd)
    case 16 => Some(AmoMin)
    case 20 => Some(AmoMax)
    case 24 => Some(AmoMinu)
    case 28 => Some(AmoMaxu)
    case _ => None
  }

  function WidthAt(funct3: bv3): Option<Width> {
    match funct3 case 2 => Some(Word) case 3 => Some(Dword) case 4 => Some(Qword) case _ => None
  }

  function OpAmo(funct5: bv5, rs2: bv5, funct3: bv3): Option<WideOp> {
    match AmoAt(funct5, rs2)
    case None => None
    case Some(amo) =>
      match WidthAt(funct3)
      case None => None
      case Some(width) => Some(Amo(amo, width))
  }

  function FmtAt(funct2: bv2): Option<Fmt> {
    match funct2 case 0 => Some(Single) case 1 => Some(Double) case 3 => Some(Quad) case _ => None
  }

  function OpFma(kind: FmaKind, funct2: bv2): Option<WideOp> {
    match FmtAt(funct2) case Some(fmt) => Some(Fma(kind, fmt)) case None => None
  }

  function IntFormatAt(rs2: bv5): Option<IntFormat> {
    match rs2 case 0 => Some(CvtW) case 1 => Some(CvtWu) case 2 => Some(CvtL) case 3 => Some(CvtLu) case _ => None
  }

  function FConvertAt(fmt: Fmt, rs2: bv5): Option<FConvertKind> {
    match fmt
    case Single => (match rs2 case 1 => Some(FcvtSD) case 3 => Some(FcvtSQ) case _ => None)
    case Double => (match rs2 case 0 => Some(FcvtDS) case 3 => Some(FcvtDQ) case _ => None)
    case Quad => (match rs2 case 0 => Some(FcvtQS) case 1 => Some(FcvtQD) case _ => None)
  }

  function FpAt(funct5: bv5, rs2: bv5, funct3: bv3): Option<FpOp> {
    match funct5
    case 0 => Some(FAdd)
    case 1 => Some(FSub)
    case 2 => Some(FMul)
    case 3 => Some(FDiv)
    case 4 => (match funct3 case 0 => Some(FSgnj) case 1 => Some(FSgnjn) case 2 => Some(FSgnjx) case _ => None)
    case 5 => (match funct3 case 0 => Some(FMin) case 1 => Some(FMax) case _ => None)
    case 11 => if rs2 == 0 then Some(FSqrt) else None
    case 20 => (match funct3 case 0 => Some(FLe) case 1 => Some(FLt) case 2 => Some(FEq) case _ => None)
    case 24 => (match IntFormatAt(rs2) case Some(ity) => Some(FToInt(ity)) case None => None)
    case 26 => (match IntFormatAt(rs2) case Some(ity) => Some(FFromInt(ity)) case None => None)
    case 28 =>
      if rs2 != 0 then None
      else (match funct3 case 0 => Some(FMoveToInt) case 1 => Some(FClass) case _ => None)
    case 30 => if rs2 == 0 && funct3 == 0 then Some(FMoveFromInt) else None
    case _ => None
  }

  function OpFp(funct5: bv5, funct2: bv2, rs2: bv5, funct3: bv3): Option<WideOp> {
    match FmtAt(funct2)
    case None => None
    case Some(fmt) =>
      if funct5 == 8 then
        match FConvertAt(fmt, rs2) case Some(convert) => Some(FConvert(convert)) case None => None
      else
        match FpAt(funct5, rs2, funct3) case Some(fp) => Some(Fp(fp, fmt)) case None => None
  }

  function BranchAt(funct3: bv3): Option<BranchKind> {
    match funct3
    case 0 => Some(Beq) case 1 => Some(Bne) case 4 => Some(Blt)
    case 5 => Some(Bge) case 6 => Some(Bltu) case 7 => Some(Bgeu)
    case _ => None
  }

  /** The system instructions without operands. */
  function SystemAt(funct7: bv7, rs2: bv5): Option<SystemKind> {
    match funct7
    case 0 => (match rs2 case 0 => Some(Ecall) case 1 => Some(Ebreak) case 2 => Some(Uret) case _ => None)
    case 8 => (match rs2 case 2 => Some(Sret) case 5 => Some(Wfi) case _ => None)
    case 16 => if rs2 == 2 then Some(Hret) else None
    case 24 => if rs2 == 2 then Some(Mret) else None
    case 61 => if rs2 == 18 then Some(Dret) else None
    case _ => None
  }

  function Privileged(funct7: bv7, rs2: bv5, rs1: bv5, rd: bv5): Option<WideOp> {
    if rd != 0 then None
    else if funct7 == 8 && rs2 == 4 then Some(SfenceVm)
    else if funct7 == 9 then Some(SfenceVma)
    else if rs1 != 0 then None
    else match SystemAt(funct7, rs2) case Some(system) => Some(System(system)) case None => None
  }

  function OpCsr(funct3: bv3): Option<WideOp> {
    match funct3
    case 1 => Some(Csr(ReadWrite)) case 2 => Some(Csr(ReadSet)) case 3 => Some(Csr(ReadClear))
    case 5 => Some(CsrImm(ReadWrite)) case 6 => Some(CsrImm(ReadSet)) case 7 => Some(CsrImm(ReadClear))
    case _ => None
  }

  function OpSystem(inst: bv64): Option<WideOp> {
    if Funct3(inst) == 0 then Privileged(Funct7(inst), Rs2(inst), Rs1(inst), Rd(inst)) else OpCsr(Funct3(inst))
  }

  function FloatAccess(inst: bv64, store: bool): Option<WideOp> {
    match FloatWidthAt(Funct3(inst))
    case Some(fmt) => Some(if store then FStore(fmt) else FLoad(fmt))
    case None => None
  }

  function StoreOp(inst: bv64): Option<WideOp> {
    match StoreAt(Funct3(inst)) case Some(store) => Some(Store(store)) case None => None
  }

  function BranchOp(inst: bv64): Option<WideOp> {
    match BranchAt(Funct3(inst)) case Some(branch) => Some(Branch(branch)) case None => None
  }

  function WideOpOf(inst: bv64): Option<WideOp> {
    match Major(inst)
    case 0 => Some(Load(LoadAt(Funct3(inst))))
    case 1 => FloatAccess(inst, false)
    case 3 => MiscMem(Funct3(inst))
    case 4 => OpImm(inst, Full)
    case 5 => Some(Auipc)
    case 6 => OpImm(inst, Low32)
    case 8 => StoreOp(inst)
    case 9 => FloatAccess(inst, true)
    case 11 => OpAmo(Funct5(inst), Rs2(inst), Funct3(inst))
    case 12 => OpReg(Funct7(inst), Funct3(inst), Full)
    case 13 => Some(Lui)
    case 14 => OpReg(Funct7(inst), Funct3(inst), Low32)
    case 16 => OpFma(FMadd, Funct2(inst))
    case 17 => OpFma(FMsub, Funct2(inst))
    case 18 => OpFma(FNmsub, Funct2(inst))
    case 19 => OpFma(FNmadd, Funct2(inst))
    case 20 => OpFp(Funct5(inst), Funct2(inst), Rs2(inst), Funct3(inst))
    case 22 => OpImm(inst, Low64)
    case 24 => BranchOp(inst)
    case 25 => if Funct3(inst) == 0 then Some(Jalr) else None
    case 27 => Some(Jal)
    case 28 => OpSystem(inst)
    case 30 => OpReg(Funct7(inst), Funct3(inst), Low64)
    case _ => None
  }

  /** decode_inst_opcode: the opcode of an instruction word. */
  function OpcodeOf(inst: bv64, isa: Isa): Op {
    if inst & 0x3 == 3 then
      match WideOpOf(inst) case Some(wide) => Wide(wide) case None => Illegal
    else
      match CompressedOpOf(inst, isa) case Some(short) => Compressed(short) case None => Illegal
  }
}
