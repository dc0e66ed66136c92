/**
 The fixed fields of every 32-bit instruction, as the instruction listings of
 the RISC-V manual give them, and the proof that opcode selection is exactly
 the recognition of those fields.
*/
module Encodings {
  import opened Opcodes
  import opened OpcodeDecoder

  /** Which fields a floating-point operation fixes besides its format, and to what. */
  datatype FpFixed =
    | FpRounded(funct5: bv5)
    | FpRoundedRs2(funct5: bv5, rs2: bv5)
    | FpF3(funct5: bv5, funct3: bv3)
    | FpF3Rs2(funct5: bv5, rs2: bv5, funct3: bv3)

  /** Which fields an opcode fixes, and to what. */
  datatype Fixed =
    | FixMajor(major: bv5)
    | FixF3(major: bv5, funct3: bv3)
    | FixF5(major: bv5, funct5: bv5, funct3: bv3)
    | FixF6(major: bv5, funct6: bv6, funct3: bv3)
    | FixF7(major: bv5, funct7: bv7, funct3: bv3)
    | FixF5Rs2(major: bv5, funct5: bv5, rs2: bv5, funct3: bv3)
    | FixFma(major: bv5, funct2: bv2)
    | FixFp(fp: FpFixed, funct2: bv2)
    | FixConvert(funct2: bv2, rs2: bv5)
    | FixSystem(funct7: bv7, rs2: bv5)
    | FixSfenceVm
    | FixSfenceVma

  predicate CarriesFp(funct5: bv5, rs2: bv5, funct3: bv3, fixed: FpFixed) {
    match fixed
    case FpRounded(f5) => funct5 == f5
    case FpRoundedRs2(f5, r2) => funct5 == f5 && rs2 == r2
    case FpF3(f5, f3) => funct5 == f5 && funct3 == f3
    case FpF3Rs2(f5, r2, f3) => funct5 == f5 && rs2 == r2 && funct3 == f3
  }

  /** The word carries the fixed fields. */
  predicate Carries(inst: bv64, fixed: Fixed) {
    match fixed
    case FixMajor(major) => Major(inst) == major
    case FixF3(major, funct3) => Major(inst) == major && Funct3(inst) == funct3
    case FixF5(major, funct5, funct3) => Major(inst) == major && Funct5(inst) == funct5 && Funct3(inst) == funct3
    case FixF6(major, funct6, funct3) => Major(inst) == major && Funct6(inst) == funct6 && Funct3(inst) == funct3
    case FixF7(major, funct7, funct3) => Major(inst) == major && Funct7(inst) == funct7 && Funct3(inst) == funct3
    case FixF5Rs2(major, funct5, rs2, funct3) =>
      Major(inst) == major && Funct5(inst) == funct5 && Rs2(inst) == rs2 && Funct3(inst) == funct3
    case FixFma(major, funct2) => Major(inst) == major && Funct2(inst) == funct2
    case FixFp(fp, funct2) =>
      Major(inst) == 20 && Funct2(inst) == funct2 && CarriesFp(Funct5(inst), Rs2(inst), Funct3(inst), fp)
    case FixConvert(funct2, rs2) =>
      Major(inst) == 20 && Funct5(inst) == 8 && Funct2(inst) == funct2 && Rs2(inst) == rs2
    case FixSystem(funct7, rs2) =>
      && Major(inst) == 28 && Funct7(inst) == funct7 && Rs2(inst) == rs2
      && Rs1(inst) == 0 && Funct3(inst) == 0 && Rd(inst) == 0
    case FixSfenceVm =>
      Major(inst) == 28 && Funct7(inst) == 8 && Rs2(inst) == 4 && Funct3(inst) == 0 && Rd(inst) == 0
    case FixSfenceVma => Major(inst) == 28 && Funct7(inst) == 9 && Funct3(inst) == 0 && Rd(inst) == 0
  }

  // ----- field values of the instruction listings

  function BranchBits(branch: BranchKind): bv3 {
    match branch case Beq => 0 case Bne => 1 case Blt => 4 case Bge => 5 case Bltu => 6 case Bgeu => 7
  }

  function StoreBits(store: StoreKind): bv3 {
    match store case Sb => 0 case Sh => 1 case Sw => 2 case Sd => 3 case Sq => 4
  }

  function ImmBits(imm: ImmKind): bv3 {
    match imm case Slti => 2 case Sltiu => 3 case Xori => 4 case Ori => 6 case Andi => 7
  }

  function AluFunct7(alu: AluKind): bv7 {
    match alu
    case Add | Sll | Srl => 0
    case Mul | Div | Divu | Rem | Remu => 1
    case Sub | Sra => 32
  }

  function AluFunct3(alu: AluKind): bv3 {
    match alu
    case Add | Sub | Mul => 0
    case Sll => 1
    case Div => 4
    case Srl | Sra | Divu => 5
    case Rem => 6
    case Remu => 7
  }

  function LogicFunct7(logic: LogicKind): bv7 {
    match logic
    case Slt | Sltu | Xor | Or | And => 0
    case Mulh | Mulhsu | Mulhu => 1
  }

  function LogicFunct3(logic: LogicKind): bv3 {
    match logic
    case Mulh => 1
    case Slt | Mulhsu => 2
    case Sltu | Mulhu => 3
    case Xor => 4
    case Or => 6
    case And => 7
  }

  function AmoBits(amo: AmoKind): bv5 {
    match amo
    case AmoAdd => 0x00 case AmoSwap => 0x01 case LoadReserved => 0x02 case StoreConditional => 0x03
    case AmoXor => 0x04 case AmoOr => 0x08 case AmoAnd => 0x0C case AmoMin => 0x10
    case AmoMax => 0x14 case AmoMinu => 0x18 case AmoMaxu => 0x1C
  }

  function WidthBits(width: Width): bv3 {
    match width case Word => 2 case Dword => 3 case Qword => 4
  }

  function FloatWidthBits(fmt: Fmt): bv3 {
    match fmt case Single => 2 case Double => 3 case Quad => 4
  }

  function FmtBits(fmt: Fmt): bv2 {
    match fmt case Single => 0 case Double => 1 case Quad => 3
  }

  function FmaMajor(fma: FmaKind): bv5 {
    match fma case FMadd => 16 case FMsub => 17 case FNmsub => 18 case FNmadd => 19
  }

  function IntFormatBits(ity: IntFormat): bv5 {
    match ity case CvtW => 0 case CvtWu => 1 case CvtL => 2 case CvtLu => 3
  }

  function CsrBits(csr: CsrKind): bv3 {
    match csr case ReadWrite => 1 case ReadSet => 2 case ReadClear => 3
  }

  function RegMajor(size: Size): bv5 {
    match size case Full => 12 case Low32 => 14 case Low64 => 30
  }

  function ImmMajor(size: Size): bv5 {
    match size case Full => 4 case Low32 => 6 case Low64 => 22
  }

  function ShiftFixed(shift: ShiftKind, size: Size): Fixed {
    var funct3: bv3 := if shift == Slli then 1 else 5;
    match size
    case Full => FixF5(4, if shift == Srai then 8 else 0, funct3)
    case Low32 => FixF7(6, if shift == Srai then 32 else 0, funct3)
    case Low64 => FixF6(22, if shift == Srai then 16 else 0, funct3)
  }

  function SystemFixed(system: SystemKind): Fixed {
    match system
    case Ecall => FixSystem(0, 0) case Ebreak => FixSystem(0, 1) case Uret => FixSystem(0, 2)
    case Sret => FixSystem(8, 2) case Wfi => FixSystem(8, 5)
    case Hret => FixSystem(16, 2) case Mret => FixSystem(24, 2) case Dret => FixSystem(61, 18)
  }

  function FpFixedOf(fp: FpOp): FpFixed {
    match fp
    case FAdd => FpRounded(0) case FSub => FpRounded(1) case FMul => FpRounded(2) case FDiv => FpRounded(3)
    case FSqrt => FpRoundedRs2(11, 0)
    case FSgnj => FpF3(4, 0) case FSgnjn => FpF3(4, 1) case FSgnjx => FpF3(4, 2)
    case FMin => FpF3(5, 0) case FMax => FpF3(5, 1)
    case FLe => FpF3(20, 0) case FLt => FpF3(20, 1) case FEq => FpF3(20, 2)
    case FToInt(ity) => FpRoundedRs2(24, IntFormatBits(ity))
    case FFromInt(ity) => FpRoundedRs2(26, IntFormatBits(ity))
    case FMoveToInt => FpF3Rs2(28, 0, 0) case FClass => FpF3Rs2(28, 0, 1)
    case FMoveFromInt => FpF3Rs2(30, 0, 0)
  }

  function ConvertFixed(convert: FConvertKind): Fixed {
    match convert
    case FcvtSD => FixConvert(0, 1) case FcvtSQ => FixConvert(0, 3) case FcvtDS => FixConvert(1, 0)
    case FcvtDQ => FixConvert(1, 3) case FcvtQS => FixConvert(3, 0) case FcvtQD => FixConvert(3, 1)
  }

  function LoadFixed(load: LoadKind): Fixed {
    match load
    case Lb => FixF3(0, 0) case Lh => FixF3(0, 1) case Lw => FixF3(0, 2) case Ld => FixF3(0, 3)
    case Lbu => FixF3(0, 4) case Lhu => FixF3(0, 5) case Lwu => FixF3(0, 6) case Ldu => FixF3(0, 7)
    case Lq => FixF3(3, 2)
  }

  /** The fixed fields of each 32-bit instruction. */
  function FixedOf(op: WideOp): Fixed {
    match op
    case Lui => FixMajor(13)
    case Auipc => FixMajor(5)
    case Jal => FixMajor(27)
    case Jalr => FixF3(25, 0)
    case Branch(branch) => FixF3(24, BranchBits(branch))
    case Load(load) => LoadFixed(load)
    case Store(store) => FixF3(8, StoreBits(store))
    case AddImm(size) => FixF3(ImmMajor(size), 0)
    case ShiftImm(shift, size) => ShiftFixed(shift, size)
    case LogicImm(imm) => FixF3(4, ImmBits(imm))
    case Arith(alu, size) => FixF7(RegMajor(size), AluFunct7(alu), AluFunct3(alu))
    case Logic(logic) => FixF7(12, LogicFunct7(logic), LogicFunct3(logic))
    case Fence => FixF3(3, 0)
    case FenceI => FixF3(3, 1)
    case Amo(amo, width) =>
      if amo == LoadReserved then FixF5Rs2(11, 2, 0, WidthBits(width)) else FixF5(11, AmoBits(amo), WidthBits(width))
    case System(system) => SystemFixed(system)
    case SfenceVm => FixSfenceVm
    case SfenceVma => FixSfenceVma
    case Csr(csr) => FixF3(28, CsrBits(csr))
    case CsrImm(csr) => FixF3(28, CsrBits(csr) | 0x4)
    case FLoad(fmt) => FixF3(1, FloatWidthBits(fmt))
    case FStore(fmt) => FixF3(9, FloatWidthBits(fmt))
    case Fma(fma, fmt) => FixFma(FmaMajor(fma), FmtBits(fmt))
    case Fp(fp, fmt) => FixFp(FpFixedOf(fp), FmtBits(fmt))
    case FConvert(convert) => ConvertFixed(convert)
  }

  // ----- each field decoder inverts its table of field values

  lemma AluDecoded(funct7: bv7, funct3: bv3, alu: AluKind)
    ensures AluAt(funct7, funct3) == Some(alu) <==> funct7 == AluFunct7(alu) && funct3 == AluFunct3(alu)
  {}

  lemma LogicDecoded(funct7: bv7, funct3: bv3, logic: LogicKind)
    ensures LogicAt(funct7, funct3) == Some(logic) <==> funct7 == LogicFunct7(logic) && funct3 == LogicFunct3(logic)
    ensures LogicAt(funct7, funct3) == Some(logic) ==> AluAt(funct7, funct3) == None
  {}

  lemma AmoDecoded(funct5: bv5, rs2: bv5, amo: AmoKind)
    ensures AmoAt(funct5, rs2) == Some(amo) <==> funct5 == AmoBits(amo) && (amo == LoadReserved ==> rs2 == 0)
  {}

  lemma FpDecoded(funct5: bv5, rs2: bv5, funct3: bv3, fp: FpOp)
    ensures FpAt(funct5, rs2, funct3) == Some(fp) <==> CarriesFp(funct5, rs2, funct3, FpFixedOf(fp))
    ensures FpAt(8, rs2, funct3) == None
  {}

  // ----- each major opcode recognises exactly the fixed fields of its instructions

  lemma RegDecoded(inst: bv64, size: Size, op: WideOp)
    requires Major(inst) == RegMajor(size)
    ensures OpReg(Funct7(inst), Funct3(inst), size) == Some(op) <==> Carries(inst, FixedOf(op))
  {
    hide Funct7, Funct3, Funct5, Funct6, Funct2, Rs1, Rs2, Rd, Major;
    hide AluAt, LogicAt, AluFunct7, AluFunct3, LogicFunct7, LogicFunct3, CarriesFp, FpFixedOf, BranchBits, ImmBits;
    if op.Arith? {
      AluDecoded(Funct7(inst), Funct3(inst), op.alu);
    } else if op.Logic? {
      LogicDecoded(Funct7(inst), Funct3(inst), op.logic);
    }
  }

  lemma ImmDecoded(inst: bv64, size: Size, op: WideOp)
    requires Major(inst) == ImmMajor(size)
    ensures OpImm(inst, size) == Some(op) <==> Carries(inst, FixedOf(op))
  {
    hide Funct7, Funct3, Funct5, Funct6, Funct2, Rs1, Rs2, Rd, Major;
    hide AluFunct7, AluFunct3, LogicFunct7, LogicFunct3, CarriesFp, FpFixedOf;
  }

  lemma AmoGroupDecoded(inst: bv64, op: WideOp)
    requires Major(inst) == 11
    ensures OpAmo(Funct5(inst), Rs2(inst), Funct3(inst)) == Some(op) <==> Carries(inst, FixedOf(op))
  {
    hide Funct7, Funct3, Funct5, Funct6, Funct2, Rs1, Rs2, Rd, Major;
    hide AluFunct7, AluFunct3, LogicFunct7, LogicFunct3, CarriesFp, FpFixedOf, AmoAt;
    if op.Amo? {
      AmoDecoded(Funct5(inst), Rs2(inst), op.amo);
    }
  }

  lemma FpGroupDecoded(inst: bv64, op: WideOp)
    requires Major(inst) == 20
    ensures OpFp(Funct5(inst), Funct2(inst), Rs2(inst), Funct3(inst)) == Some(op) <==> Carries(inst, FixedOf(op))
  {
    hide Funct7, Funct3, Funct5, Funct6, Funct2, Rs1, Rs2, Rd, Major;
    hide AluFunct7, AluFunct3, LogicFunct7, LogicFunct3, CarriesFp, FpFixedOf, FpAt, AmoBits;
    if op.Fp? {
      FpDecoded(Funct5(inst), Rs2(inst), Funct3(inst), op.fp);
    }
  }

  lemma SystemGroupDecoded(inst: bv64, op: WideOp)
    requires Major(inst) == 28
    ensures OpSystem(inst) == Some(op) <==> Carries(inst, FixedOf(op))
  {
    hide Funct7, Funct3, Funct5, Funct6, Funct2, Rs1, Rs2, Rd, Major;
    hide AluFunct7, AluFunct3, LogicFunct7, LogicFunct3, CarriesFp, FpFixedOf, AmoBits;
  }

  /** The fused multiply-add groups. */
  lemma FmaGroupsDecoded(inst: bv64, op: WideOp)
    requires Major(inst) in {16, 17, 18, 19}
    ensures WideOpOf(inst) == Some(op) <==> Carries(inst, FixedOf(op))
  {
    hide Funct7, Funct3, Funct5, Funct6, Funct2, Rs1, Rs2, Rd, Major;
    hide AluFunct7, AluFunct3, LogicFunct7, LogicFunct3, CarriesFp, FpFixedOf, AmoBits;
    hide OpImm, OpAmo, OpReg, OpFp, OpSystem;
  }

  /** The other major opcodes, which select by funct3 at most. */
  lemma PlainGroupsDecoded(inst: bv64, op: WideOp)
    requires Major(inst) !in {4, 6, 11, 12, 14, 16, 17, 18, 19, 20, 22, 28, 30}
    ensures WideOpOf(inst) == Some(op) <==> Carries(inst, FixedOf(op))
  {
    hide Funct7, Funct3, Funct5, Funct6, Funct2, Rs1, Rs2, Rd, Major;
    hide AluFunct7, AluFunct3, LogicFunct7, LogicFunct3, CarriesFp, FpFixedOf, AmoBits;
    hide OpImm, OpAmo, OpReg, OpFp, OpSystem;
  }

  /** A word whose low bits are 11 decodes to an instruction exactly when it carries that instruction's fixed fields. */
  lemma DecodedByFixedFields(inst: bv64, op: WideOp)
    ensures WideOpOf(inst) == Some(op) <==> Carries(inst, FixedOf(op))
  {
    hide Funct7, Funct3, Funct5, Funct6, Funct2, Rs1, Rs2, Rd, Major, FixedOf, Carries;
    hide OpImm, OpAmo, OpReg, OpFp, OpSystem, OpFma, FloatAccess, MiscMem, StoreOp, BranchOp, LoadAt;
    match Major(inst) {
      case 4 => ImmDecoded(inst, Full, op);
      case 6 => ImmDecoded(inst, Low32, op);
      case 22 => ImmDecoded(inst, Low64, op);
      case 12 => RegDecoded(inst, Full, op);
      case 14 => RegDecoded(inst, Low32, op);
      case 30 => RegDecoded(inst, Low64, op);
      case 11 => AmoGroupDecoded(inst, op);
      case 20 => FpGroupDecoded(inst, op);
      case 28 => SystemGroupDecoded(inst, op);
      case 16 | 17 | 18 | 19 => FmaGroupsDecoded(inst, op);
      case _ => PlainGroupsDecoded(inst, op);
    }
  }

  // ----- the fixed fields as bits of the word

  function F3Bits(major: bv5, funct3: bv3): bv64 { 0x3 | ((major as bv64) << 2) | ((funct3 as bv64) << 12) }

  /** The bits that hold the fixed fields. */
  function FixedBits(fixed: Fixed): bv64 {
    match fixed
    case FixMajor(major) => 0x3 | ((major as bv64) << 2)
    case FixF3(major, funct3) => F3Bits(major, funct3)
    case FixF5(major, funct5, funct3) => F3Bits(major, funct3) | ((funct5 as bv64) << 27)
    case FixF6(major, funct6, funct3) => F3Bits(major, funct3) | ((funct6 as bv64) << 26)
    case FixF7(major, funct7, funct3) => F3Bits(major, funct3) | ((funct7 as bv64) << 25)
    case FixF5Rs2(major, funct5, rs2, funct3) =>
      F3Bits(major, funct3) | ((rs2 as bv64) << 20) | ((funct5 as bv64) << 27)
    case FixFma(major, funct2) => 0x3 | ((major as bv64) << 2) | ((funct2 as bv64) << 25)
    case FixFp(fp, funct2) => 0x53 | ((funct2 as bv64) << 25) | FpBits(fp)
    case FixConvert(funct2, rs2) => 0x4000_0053 | ((funct2 as bv64) << 25) | ((rs2 as bv64) << 20)
    case FixSystem(funct7, rs2) => 0x73 | ((rs2 as bv64) << 20) | ((funct7 as bv64) << 25)
    case FixSfenceVm => 0x1040_0073
    case FixSfenceVma => 0x1200_0073
  }

  function FpBits(fp: FpFixed): bv64 {
    match fp
    case FpRounded(funct5) => (funct5 as bv64) << 27
    case FpRoundedRs2(funct5, rs2) => ((rs2 as bv64) << 20) | ((funct5 as bv64) << 27)
    case FpF3(funct5, funct3) => ((funct3 as bv64) << 12) | ((funct5 as bv64) << 27)
    case FpF3Rs2(funct5, rs2, funct3) => ((funct3 as bv64) << 12) | ((rs2 as bv64) << 20) | ((funct5 as bv64) << 27)
  }

  function FpMask(fp: FpFixed): bv64 {
    match fp
    case FpRounded(_) => 0xF800_0000
    case FpRoundedRs2(_, _) => 0xF9F0_0000
    case FpF3(_, _) => 0xF800_7000
    case FpF3Rs2(_, _, _) => 0xF9F0_7000
  }

  function FixedMask(fixed: Fixed): bv64 {
    match fixed
    case FixMajor(_) => 0x7F
    case FixF3(_, _) => 0x707F
    case FixF5(_, _, _) => 0xF800_707F
    case FixF6(_, _, _) => 0xFC00_707F
    case FixF7(_, _, _) => 0xFE00_707F
    case FixF5Rs2(_, _, _, _) => 0xF9F0_707F
    case FixFma(_, _) => 0x0600_007F
    case FixFp(fp, _) => 0x0600_007F | FpMask(fp)
    case FixConvert(_, _) => 0xFFF0_007F
    case FixSystem(_, _) => 0xFFFF_FFFF
    case FixSfenceVm => 0xFFF0_7FFF
    case FixSfenceVma => 0xFE00_7FFF
  }

  predicate Selects(inst: bv64, mask: bv64, bits: bv64) {
    inst & mask == bits
  }

  /** The word has the fixed bits: mask and compare. */
  predicate HasFixedBits(inst: bv64, fixed: Fixed) {
    Selects(inst, FixedMask(fixed), FixedBits(fixed))
  }

  // ----- fields to bits, one shape at a time

  lemma PlacedMajor(inst: bv64)
    requires inst & 3 == 3
    ensures HasFixedBits(inst, FixMajor(Major(inst)))
  {}

  lemma PlacedF3(inst: bv64)
    requires inst & 3 == 3
    ensures HasFixedBits(inst, FixF3(Major(inst), Funct3(inst)))
  {}

  lemma PlacedF5(inst: bv64)
    requires inst & 3 == 3
    ensures HasFixedBits(inst, FixF5(Major(inst), Funct5(inst), Funct3(inst)))
  {}

  lemma PlacedF6(inst: bv64)
    requires inst & 3 == 3
    ensures HasFixedBits(inst, FixF6(Major(inst), Funct6(inst), Funct3(inst)))
  {}

  lemma PlacedF7(inst: bv64)
    requires inst & 3 == 3
    ensures HasFixedBits(inst, FixF7(Major(inst), Funct7(inst), Funct3(inst)))
  {}

  lemma PlacedF5Rs2(inst: bv64)
    requires inst & 3 == 3
    ensures HasFixedBits(inst, FixF5Rs2(Major(inst), Funct5(inst), Rs2(inst), Funct3(inst)))
  {}

  lemma PlacedFma(inst: bv64)
    requires inst & 3 == 3
    ensures HasFixedBits(inst, FixFma(Major(inst), Funct2(inst)))
  {}

  lemma PlacedConvert(inst: bv64)
    requires inst & 3 == 3 && Major(inst) == 20 && Funct5(inst) == 8
    ensures HasFixedBits(inst, FixConvert(Funct2(inst), Rs2(inst)))
  {}

  lemma PlacedFpRounded(inst: bv64)
    requires inst & 3 == 3 && Major(inst) == 20
    ensures HasFixedBits(inst, FixFp(FpRounded(Funct5(inst)), Funct2(inst)))
  {}

  lemma PlacedFpRoundedRs2(inst: bv64)
    requires inst & 3 == 3 && Major(inst) == 20
    ensures HasFixedBits(inst, FixFp(FpRoundedRs2(Funct5(inst), Rs2(inst)), Funct2(inst)))
  {}

  lemma PlacedFpF3(inst: bv64)
    requires inst & 3 == 3 && Major(inst) == 20
    ensures HasFixedBits(inst, FixFp(FpF3(Funct5(inst), Funct3(inst)), Funct2(inst)))
  {}

  lemma PlacedFpF3Rs2(inst: bv64)
    requires inst & 3 == 3 && Major(inst) == 20
    ensures HasFixedBits(inst, FixFp(FpF3Rs2(Funct5(inst), Rs2(inst), Funct3(inst)), Funct2(inst)))
  {}

  lemma PlacedSystem(inst: bv64)
    requires inst & 3 == 3 && Major(inst) == 28 && Funct3(inst) == 0 && Rd(inst) == 0
    ensures Rs1(inst) == 0 ==> HasFixedBits(inst, FixSystem(Funct7(inst), Rs2(inst)))
    ensures Funct7(inst) == 8 && Rs2(inst) == 4 ==> HasFixedBits(inst, FixSfenceVm)
    ensures Funct7(inst) == 9 ==> HasFixedBits(inst, FixSfenceVma)
  {}

  lemma CarriedFieldsAreBits(inst: bv64, fixed: Fixed)
    requires inst & 3 == 3 && Carries(inst, fixed)
    ensures HasFixedBits(inst, fixed)
  {
    hide HasFixedBits, Major, Funct2, Funct3, Funct5, Funct6, Funct7, Rd, Rs1, Rs2;
    match fixed {
      case FixMajor(_) => PlacedMajor(inst);
      case FixF3(_, _) => PlacedF3(inst);
      case FixF5(_, _, _) => PlacedF5(inst);
      case FixF6(_, _, _) => PlacedF6(inst);
      case FixF7(_, _, _) => PlacedF7(inst);
      case FixF5Rs2(_, _, _, _) => PlacedF5Rs2(inst);
      case FixFma(_, _) => PlacedFma(inst);
      case FixConvert(_, _) => PlacedConvert(inst);
      case FixFp(FpRounded(_), _) => PlacedFpRounded(inst);
      case FixFp(FpRoundedRs2(_, _), _) => PlacedFpRoundedRs2(inst);
      case FixFp(FpF3(_, _), _) => PlacedFpF3(inst);
      case FixFp(FpF3Rs2(_, _, _), _) => PlacedFpF3Rs2(inst);
      case _ => PlacedSystem(inst);
    }
  }

  // ----- bits to fields, one shape at a time

  lemma ReadMajor(inst: bv64, major: bv5)
    requires HasFixedBits(inst, FixMajor(major))
    ensures inst & 3 == 3 && Carries(inst, FixMajor(major))
  {}

  lemma ReadF3(inst: bv64, major: bv5, funct3: bv3)
    requires HasFixedBits(inst, FixF3(major, funct3))
    ensures inst & 3 == 3 && Carries(inst, FixF3(major, funct3))
  {}

  lemma ReadF5(inst: bv64, major: bv5, funct5: bv5, funct3: bv3)
    requires HasFixedBits(inst, FixF5(major, funct5, funct3))
    ensures inst & 3 == 3 && Carries(inst, FixF5(major, funct5, funct3))
  {}

  lemma ReadF6(inst: bv64, major: bv5, funct6: bv6, funct3: bv3)
    requires HasFixedBits(inst, FixF6(major, funct6, funct3))
    ensures inst & 3 == 3 && Carries(inst, FixF6(major, funct6, funct3))
  {}

  lemma ReadF7(inst: bv64, major: bv5, funct7: bv7, funct3: bv3)
    requires HasFixedBits(inst, FixF7(major, funct7, funct3))
    ensures inst & 3 == 3 && Carries(inst, FixF7(major, funct7, funct3))
  {}

  lemma ReadF5Rs2(inst: bv64, major: bv5, funct5: bv5, rs2: bv5, funct3: bv3)
    requires HasFixedBits(inst, FixF5Rs2(major, funct5, rs2, funct3))
    ensures inst & 3 == 3 && Carries(inst, FixF5Rs2(major, funct5, rs2, funct3))
  {}

  lemma ReadFma(inst: bv64, major: bv5, funct2: bv2)
    requires HasFixedBits(inst, FixFma(major, funct2))
    ensures inst & 3 == 3 && Carries(inst, FixFma(major, funct2))
  {}

  lemma ReadConvert(inst: bv64, funct2: bv2, rs2: bv5)
    requires HasFixedBits(inst, FixConvert(funct2, rs2))
    ensures inst & 3 == 3 && Carries(inst, FixConvert(funct2, rs2))
  {}

  lemma ReadSystem(inst: bv64, funct7: bv7, rs2: bv5)
    requires HasFixedBits(inst, FixSystem(funct7, rs2))
    ensures inst & 3 == 3 && Carries(inst, FixSystem(funct7, rs2))
  {}

  lemma ReadSfenceVm(inst: bv64)
    requires HasFixedBits(inst, FixSfenceVm)
    ensures inst & 3 == 3 && Carries(inst, FixSfenceVm)
  {}

  lemma ReadSfenceVma(inst: bv64)
    requires HasFixedBits(inst, FixSfenceVma)
    ensures inst & 3 == 3 && Carries(inst, FixSfenceVma)
  {}

  lemma ReadFpRounded(inst: bv64, funct5: bv5, funct2: bv2)
    requires HasFixedBits(inst, FixFp(FpRounded(funct5), funct2))
    ensures inst & 3 == 3 && Carries(inst, FixFp(FpRounded(funct5), funct2))
  {}

  lemma ReadFpRoundedRs2(inst: bv64, funct5: bv5, rs2: bv5, funct2: bv2)
    requires HasFixedBits(inst, FixFp(FpRoundedRs2(funct5, rs2), funct2))
    ensures inst & 3 == 3 && Carries(inst, FixFp(FpRoundedRs2(funct5, rs2), funct2))
  {}

  lemma ReadFpF3(inst: bv64, funct5: bv5, funct3: bv3, funct2: bv2)
    requires HasFixedBits(inst, FixFp(FpF3(funct5, funct3), funct2))
    ensures inst & 3 == 3 && Carries(inst, FixFp(FpF3(funct5, funct3), funct2))
  {}

  lemma ReadFpF3Rs2(inst: bv64, funct5: bv5, rs2: bv5, funct3: bv3, funct2: bv2)
    requires HasFixedBits(inst, FixFp(FpF3Rs2(funct5, rs2, funct3), funct2))
    ensures inst & 3 == 3 && Carries(inst, FixFp(FpF3Rs2(funct5, rs2, funct3), funct2))
  {}

  lemma FixedBitsAreCarried(inst: bv64, fixed: Fixed)
    requires HasFixedBits(inst, fixed)
    ensures inst & 3 == 3 && Carries(inst, fixed)
  {
    hide HasFixedBits, Carries;
    match fixed {
      case FixMajor(major) => ReadMajor(inst, major);
      case FixF3(major, funct3) => ReadF3(inst, major, funct3);
      case FixF5(major, funct5, funct3) => ReadF5(inst, major, funct5, funct3);
      case FixF6(major, funct6, funct3) => ReadF6(inst, major, funct6, funct3);
      case FixF7(major, funct7, funct3) => ReadF7(inst, major, funct7, funct3);
      case FixF5Rs2(major, funct5, rs2, funct3) => ReadF5Rs2(inst, major, funct5, rs2, funct3);
      case FixFma(major, funct2) => ReadFma(inst, major, funct2);
      case FixConvert(funct2, rs2) => ReadConvert(inst, funct2, rs2);
      case FixSystem(funct7, rs2) => ReadSystem(inst, funct7, rs2);
      case FixSfenceVm => ReadSfenceVm(inst);
      case FixSfenceVma => ReadSfenceVma(inst);
      case FixFp(FpRounded(funct5), funct2) => ReadFpRounded(inst, funct5, funct2);
      case FixFp(FpRoundedRs2(funct5, rs2), funct2) => ReadFpRoundedRs2(inst, funct5, rs2, funct2);
      case FixFp(FpF3(funct5, funct3), funct2) => ReadFpF3(inst, funct5, funct3, funct2);
      case FixFp(FpF3Rs2(funct5, rs2, funct3), funct2) => ReadFpF3Rs2(inst, funct5, rs2, funct3, funct2);
    }
  }

  /** Opcode selection is recognition of the fixed bits, for every instruction, word and instruction set. */
  lemma DecodedByFixedBits(inst: bv64, isa: Isa, op: WideOp)
    ensures OpcodeOf(inst, isa) == Wide(op) <==> HasFixedBits(inst, FixedOf(op))
  {
    hide WideOpOf, CompressedOpOf, FixedOf, Carries, HasFixedBits;
    DecodedByFixedFields(inst, op);
    if inst & 3 == 3 && Carries(inst, FixedOf(op)) {
      CarriedFieldsAreBits(inst, FixedOf(op));
    }
    if HasFixedBits(inst, FixedOf(op)) {
      FixedBitsAreCarried(inst, FixedOf(op));
    }
  }
}
