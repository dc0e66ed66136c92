/**
 Operand extraction per codec, as the instruction formats of the manual define
 it, and the encoder of the 32-bit formats that undoes it.
*/
module Operands {
  import opened Opcodes
  import opened OpcodeDecoder
  import opened Encodings
  import opened Immediates

  /** The operand fields of a decoded instruction. */
  datatype Operands = Operands(
    rd: bv8, rs1: bv8, rs2: bv8, rs3: bv8, rm: bv8, pred: bv8, succ: bv8, aq: bv8, rl: bv8, imm: bv32)

  const NO_OPERANDS := Operands(0, 0, 0, 0, 0, 0, 0, 0, 0, 0)

  // ----- register and flag fields

  function RdAt(inst: bv64): bv8 { ((inst >> 7) & 0x1F) as bv8 }

  function Rs1At(inst: bv64): bv8 { ((inst >> 15) & 0x1F) as bv8 }

  function Rs2At(inst: bv64): bv8 { ((inst >> 20) & 0x1F) as bv8 }

  function Rs3At(inst: bv64): bv8 { ((inst >> 27) & 0x1F) as bv8 }

  function RmAt(inst: bv64): bv8 { ((inst >> 12) & 0x7) as bv8 }

  function AqAt(inst: bv64): bv8 { ((inst >> 26) & 0x1) as bv8 }

  function RlAt(inst: bv64): bv8 { ((inst >> 25) & 0x1) as bv8 }

  function PredAt(inst: bv64): bv8 { ((inst >> 24) & 0xF) as bv8 }

  function SuccAt(inst: bv64): bv8 { ((inst >> 20) & 0xF) as bv8 }

  /** The second source register of a compressed instruction. */
  function CRs2At(inst: bv64): bv8 { ((inst >> 2) & 0x1F) as bv8 }

  /** The three-bit register fields of compressed instructions name x8 to x15. */
  function ShortLowAt(inst: bv64): bv8 { ((inst >> 2) & 0x7) as bv8 + 8 }

  function ShortHighAt(inst: bv64): bv8 { ((inst >> 7) & 0x7) as bv8 + 8 }

  predicate IsWideCodec(codec: Codec) {
    match codec
    case CodecNone | CodecU | CodecUJ | CodecI | CodecISh5 | CodecISh6 | CodecISh7 | CodecICsr | CodecS | CodecSB
    | CodecR | CodecRM | CodecR4M | CodecRA | CodecRL | CodecRF => true
    case _ => false
  }

  /** The operands a 32-bit codec reads from a word; the fields it does not name keep their value. */
  function WideOperandsOf(codec: Codec, inst: bv64, before: Operands): Operands {
    match codec
    case CodecNone => before.(rd := 0, rs1 := 0, rs2 := 0, imm := 0)
    case CodecU => before.(rd := RdAt(inst), rs1 := 0, rs2 := 0, imm := ImmU(inst))
    case CodecUJ => before.(rd := RdAt(inst), rs1 := 0, rs2 := 0, imm := ImmJ(inst))
    case CodecI => before.(rd := RdAt(inst), rs1 := Rs1At(inst), rs2 := 0, imm := ImmI(inst))
    case CodecISh5 => before.(rd := RdAt(inst), rs1 := Rs1At(inst), rs2 := 0, imm := ImmShamt5(inst))
    case CodecISh6 => before.(rd := RdAt(inst), rs1 := Rs1At(inst), rs2 := 0, imm := ImmShamt6(inst))
    case CodecISh7 => before.(rd := RdAt(inst), rs1 := Rs1At(inst), rs2 := 0, imm := ImmShamt7(inst))
    case CodecICsr => before.(rd := RdAt(inst), rs1 := Rs1At(inst), rs2 := 0, imm := ImmCsr(inst))
    case CodecS => before.(rd := 0, rs1 := Rs1At(inst), rs2 := Rs2At(inst), imm := ImmS(inst))
    case CodecSB => before.(rd := 0, rs1 := Rs1At(inst), rs2 := Rs2At(inst), imm := ImmB(inst))
    case CodecR => before.(rd := RdAt(inst), rs1 := Rs1At(inst), rs2 := Rs2At(inst), imm := 0)
    case CodecRM => before.(rd := RdAt(inst), rs1 := Rs1At(inst), rs2 := Rs2At(inst), imm := 0, rm := RmAt(inst))
    case CodecR4M =>
      before.(rd := RdAt(inst), rs1 := Rs1At(inst), rs2 := Rs2At(inst), rs3 := Rs3At(inst), imm := 0, rm := RmAt(inst))
    case CodecRA =>
      before.(rd := RdAt(inst), rs1 := Rs1At(inst), rs2 := Rs2At(inst), imm := 0, aq := AqAt(inst), rl := RlAt(inst))
    case CodecRL =>
      before.(rd := RdAt(inst), rs1 := Rs1At(inst), rs2 := 0, imm := 0, aq := AqAt(inst), rl := RlAt(inst))
    case CodecRF => before.(rd := 0, rs1 := 0, rs2 := 0, pred := PredAt(inst), succ := SuccAt(inst), imm := 0)
    case _ => before
  }

  /** The compressed codecs that name two registers, or none beside the stack pointer. */
  predicate IsShortAccess(codec: Codec) {
    match codec
    case CodecCLLw | CodecCLLd | CodecCLLq | CodecCR | CodecCRMv | CodecCRJalr | CodecCRJr | CodecCS
    | CodecCSSw | CodecCSSd | CodecCSSq | CodecCSSSwsp | CodecCSSSdsp | CodecCSSSqsp => true
    case _ => false
  }

  /** The operands of the compressed loads, stores and register operations. */
  function ShortAccessOf(codec: Codec, inst: bv64, before: Operands): Operands {
    match codec
    case CodecCLLw => before.(rd := ShortLowAt(inst), rs1 := ShortHighAt(inst), rs2 := 0, imm := ImmCW(inst))
    case CodecCLLd => before.(rd := ShortLowAt(inst), rs1 := ShortHighAt(inst), rs2 := 0, imm := ImmCD(inst))
    case CodecCLLq => before.(rd := ShortLowAt(inst), rs1 := ShortHighAt(inst), rs2 := 0, imm := ImmCQ(inst))
    case CodecCR => before.(rd := RdAt(inst), rs1 := RdAt(inst), rs2 := CRs2At(inst), imm := 0)
    case CodecCRMv => before.(rd := RdAt(inst), rs1 := CRs2At(inst), rs2 := 0, imm := 0)
    case CodecCRJalr => before.(rd := 1, rs1 := RdAt(inst), rs2 := 0, imm := 0)
    case CodecCRJr => before.(rd := 0, rs1 := RdAt(inst), rs2 := 0, imm := 0)
    case CodecCS => before.(rd := ShortHighAt(inst), rs1 := ShortHighAt(inst), rs2 := ShortLowAt(inst), imm := 0)
    case CodecCSSw => before.(rd := 0, rs1 := ShortHighAt(inst), rs2 := ShortLowAt(inst), imm := ImmCW(inst))
    case CodecCSSd => before.(rd := 0, rs1 := ShortHighAt(inst), rs2 := ShortLowAt(inst), imm := ImmCD(inst))
    case CodecCSSq => before.(rd := 0, rs1 := ShortHighAt(inst), rs2 := ShortLowAt(inst), imm := ImmCQ(inst))
    case CodecCSSSwsp => before.(rd := 0, rs1 := 2, rs2 := CRs2At(inst), imm := ImmCSwsp(inst))
    case CodecCSSSdsp => before.(rd := 0, rs1 := 2, rs2 := CRs2At(inst), imm := ImmCSdsp(inst))
    case CodecCSSSqsp => before.(rd := 0, rs1 := 2, rs2 := CRs2At(inst), imm := ImmCSqsp(inst))
    case _ => before
  }

  /** The operands a compressed codec reads from a word. */
  function ShortOperandsOf(codec: Codec, inst: bv64, before: Operands): Operands {
    if IsShortAccess(codec) then ShortAccessOf(codec, inst, before)
    else
      match codec
      case CodecCINone => before.(rd := 0, rs1 := 0, rs2 := 0, imm := 0)
      case CodecCB => before.(rd := 0, rs1 := ShortHighAt(inst), rs2 := 0, imm := ImmCB(inst))
      case CodecCBImm => before.(rd := ShortHighAt(inst), rs1 := ShortHighAt(inst), rs2 := 0, imm := ImmCI(inst))
      case CodecCBSh5 => before.(rd := ShortHighAt(inst), rs1 := ShortHighAt(inst), rs2 := 0, imm := ImmCSh5(inst))
      case CodecCBSh6 => before.(rd := ShortHighAt(inst), rs1 := ShortHighAt(inst), rs2 := 0, imm := ImmCSh6(inst))
      case CodecCI => before.(rd := RdAt(inst), rs1 := RdAt(inst), rs2 := 0, imm := ImmCI(inst))
      case CodecCISh5 => before.(rd := RdAt(inst), rs1 := RdAt(inst), rs2 := 0, imm := ImmCSh5(inst))
      case CodecCISh6 => before.(rd := RdAt(inst), rs1 := RdAt(inst), rs2 := 0, imm := ImmCSh6(inst))
      case CodecCI16sp => before.(rd := 2, rs1 := 2, rs2 := 0, imm := ImmC16sp(inst))
      case CodecCILwsp => before.(rd := RdAt(inst), rs1 := 2, rs2 := 0, imm := ImmCLwsp(inst))
      case CodecCILdsp => before.(rd := RdAt(inst), rs1 := 2, rs2 := 0, imm := ImmCLdsp(inst))
      case CodecCILqsp => before.(rd := RdAt(inst), rs1 := 2, rs2 := 0, imm := ImmCLqsp(inst))
      case CodecCILi => before.(rd := RdAt(inst), rs1 := 0, rs2 := 0, imm := ImmCI(inst))
      case CodecCILui => before.(rd := RdAt(inst), rs1 := 0, rs2 := 0, imm := ImmCLui(inst))
      case CodecCIW4spn => before.(rd := ShortLowAt(inst), rs1 := 2, rs2 := 0, imm := ImmC4spn(inst))
      case CodecCJ => before.(rd := 0, rs1 := 0, rs2 := 0, imm := ImmCJ(inst))
      case CodecCJJal => before.(rd := 1, rs1 := 0, rs2 := 0, imm := ImmCJ(inst))
      case _ => before
  }

  /** The operands a codec reads from a word. */
  function OperandsOf(codec: Codec, inst: bv64, before: Operands): Operands {
    if IsWideCodec(codec) then WideOperandsOf(codec, inst, before) else ShortOperandsOf(codec, inst, before)
  }

  // ----- encoding

  function PutRd(rd: bv8): bv64 { ((rd & 0x1F) as bv64) << 7 }

  function PutRs1(rs1: bv8): bv64 { ((rs1 & 0x1F) as bv64) << 15 }

  function PutRs2(rs2: bv8): bv64 { ((rs2 & 0x1F) as bv64) << 20 }

  function PutRs3(rs3: bv8): bv64 { ((rs3 & 0x1F) as bv64) << 27 }

  function PutRm(rm: bv8): bv64 { ((rm & 0x7) as bv64) << 12 }

  function PutAqRl(aq: bv8, rl: bv8): bv64 { (((aq & 1) as bv64) << 26) | (((rl & 1) as bv64) << 25) }

  function PutPredSucc(pred: bv8, succ: bv8): bv64 { (((pred & 0xF) as bv64) << 24) | (((succ & 0xF) as bv64) << 20) }

  /** The bits that hold the operands of a 32-bit codec. */
  function OperandBits(codec: Codec, o: Operands): bv64 {
    match codec
    case CodecU => PutRd(o.rd) | PlaceU(o.imm)
    case CodecUJ => PutRd(o.rd) | PlaceJ(o.imm)
    case CodecI => PutRd(o.rd) | PutRs1(o.rs1) | PlaceI(o.imm)
    case CodecISh5 => PutRd(o.rd) | PutRs1(o.rs1) | PlaceShamt5(o.imm)
    case CodecISh6 => PutRd(o.rd) | PutRs1(o.rs1) | PlaceShamt6(o.imm)
    case CodecISh7 => PutRd(o.rd) | PutRs1(o.rs1) | PlaceShamt7(o.imm)
    case CodecICsr => PutRd(o.rd) | PutRs1(o.rs1) | PlaceCsr(o.imm)
    case CodecS => PutRs1(o.rs1) | PutRs2(o.rs2) | PlaceS(o.imm)
    case CodecSB => PutRs1(o.rs1) | PutRs2(o.rs2) | PlaceB(o.imm)
    case CodecR => PutRd(o.rd) | PutRs1(o.rs1) | PutRs2(o.rs2)
    case CodecRM => PutRd(o.rd) | PutRm(o.rm) | PutRs1(o.rs1) | PutRs2(o.rs2)
    case CodecR4M => PutRd(o.rd) | PutRm(o.rm) | PutRs1(o.rs1) | PutRs2(o.rs2) | PutRs3(o.rs3)
    case CodecRA => PutRd(o.rd) | PutRs1(o.rs1) | PutRs2(o.rs2) | PutAqRl(o.aq, o.rl)
    case CodecRL => PutRd(o.rd) | PutRs1(o.rs1) | PutAqRl(o.aq, o.rl)
    case CodecRF => PutPredSucc(o.pred, o.succ)
    case _ => 0
  }

  /** The word that encodes an instruction and its operands. */
  function Encode(op: WideOp, o: Operands): bv64 {
    FixedBits(FixedOf(op)) | OperandBits(WideCodec(op), o)
  }

  // ----- which of the low 32 bits are operands, and which are fixed

  function OperandMask(codec: Codec): bv64 {
    match codec
    case CodecU | CodecUJ => 0xFFFF_FF80
    case CodecI | CodecICsr => 0xFFFF_8F80
    case CodecISh5 => 0x01FF_8F80
    case CodecISh6 => 0x03FF_8F80
    case CodecISh7 => 0x07FF_8F80
    case CodecS | CodecSB => 0xFFFF_8F80
    case CodecR => 0x01FF_8F80
    case CodecRM => 0x01FF_FF80
    case CodecR4M => 0xF9FF_FF80
    case CodecRA => 0x07FF_8F80
    case CodecRL => 0x060F_8F80
    case CodecRF => 0x0FF0_0000
    case _ => 0
  }

  /** The codecs that complete each shape of fixed fields to a whole word. */
  predicate Completes(codec: Codec, fixed: Fixed) {
    match fixed
    case FixMajor(_) => codec == CodecU || codec == CodecUJ
    case FixF3(_, _) => codec == CodecI || codec == CodecICsr || codec == CodecS || codec == CodecSB
    case FixF5(_, _, _) => codec == CodecISh7 || codec == CodecRA
    case FixF6(_, _, _) => codec == CodecISh6
    case FixF7(_, _, _) => codec == CodecISh5 || codec == CodecR
    case FixF5Rs2(_, _, _, _) => codec == CodecRL
    case FixFma(_, _) => codec == CodecR4M
    case FixFp(fp, _) => codec == (if fp.FpRounded? || fp.FpRoundedRs2? then CodecRM else CodecR)
    case FixConvert(_, _) => codec == CodecRM
    case FixSystem(_, _) => codec == CodecNone
    case FixSfenceVm | FixSfenceVma => codec == CodecR
  }

  lemma CompletedFpOp(fp: FpOp, fmt: Fmt)
    ensures Completes(WideCodec(Fp(fp, fmt)), FixedOf(Fp(fp, fmt)))
  {
    hide FmtBits, IntFormatBits;
  }

  lemma CompletedOp(op: WideOp)
    requires op != Fence && op != FenceI
    ensures Completes(WideCodec(op), FixedOf(op))
  {
    if op.Fp? {
      hide Completes, WideCodec, FixedOf;
      CompletedFpOp(op.fp, op.fmt);
    } else {
      hide BranchBits, StoreBits, ImmBits, AluFunct7, AluFunct3, LogicFunct7, LogicFunct3, AmoBits;
      hide WidthBits, FloatWidthBits, FmtBits, IntFormatBits, CsrBits, FmaMajor, ImmMajor, RegMajor;
    }
  }

  /** Putting the extracted operands back gives the operand bits of the word. */
  predicate Captures(codec: Codec, inst: bv64) {
    Selects(inst, OperandMask(codec), OperandBits(codec, WideOperandsOf(codec, inst, NO_OPERANDS)))
  }

  lemma CapturesU(inst: bv64)
    ensures Captures(CodecU, inst)
  {
    hide ImmI, ImmU, ImmJ, ImmS, ImmB, ImmCsr, ImmShamt5, ImmShamt6, ImmShamt7;
    hide PlaceI, PlaceU, PlaceJ, PlaceS, PlaceB, PlaceCsr, PlaceShamt5, PlaceShamt6, PlaceShamt7;
    GatherU(inst);
  }

  lemma CapturesUJ(inst: bv64)
    ensures Captures(CodecUJ, inst)
  {
    hide ImmI, ImmU, ImmJ, ImmS, ImmB, ImmCsr, ImmShamt5, ImmShamt6, ImmShamt7;
    hide PlaceI, PlaceU, PlaceJ, PlaceS, PlaceB, PlaceCsr, PlaceShamt5, PlaceShamt6, PlaceShamt7;
    GatherJ(inst);
  }

  lemma CapturesI(inst: bv64)
    ensures Captures(CodecI, inst)
  {
    hide ImmI, ImmU, ImmJ, ImmS, ImmB, ImmCsr, ImmShamt5, ImmShamt6, ImmShamt7;
    hide PlaceI, PlaceU, PlaceJ, PlaceS, PlaceB, PlaceCsr, PlaceShamt5, PlaceShamt6, PlaceShamt7;
    GatherI(inst);
  }

  lemma CapturesICsr(inst: bv64)
    ensures Captures(CodecICsr, inst)
  {
    hide ImmI, ImmU, ImmJ, ImmS, ImmB, ImmCsr, ImmShamt5, ImmShamt6, ImmShamt7;
    hide PlaceI, PlaceU, PlaceJ, PlaceS, PlaceB, PlaceCsr, PlaceShamt5, PlaceShamt6, PlaceShamt7;
    GatherCsr(inst);
  }

  lemma CapturesISh5(inst: bv64)
    ensures Captures(CodecISh5, inst)
  {
    hide ImmI, ImmU, ImmJ, ImmS, ImmB, ImmCsr, ImmShamt5, ImmShamt6, ImmShamt7;
    hide PlaceI, PlaceU, PlaceJ, PlaceS, PlaceB, PlaceCsr, PlaceShamt5, PlaceShamt6, PlaceShamt7;
    GatherShamt5(inst);
  }

  lemma CapturesISh6(inst: bv64)
    ensures Captures(CodecISh6, inst)
  {
    hide ImmI, ImmU, ImmJ, ImmS, ImmB, ImmCsr, ImmShamt5, ImmShamt6, ImmShamt7;
    hide PlaceI, PlaceU, PlaceJ, PlaceS, PlaceB, PlaceCsr, PlaceShamt5, PlaceShamt6, PlaceShamt7;
    GatherShamt6(inst);
  }

  lemma CapturesISh7(inst: bv64)
    ensures Captures(CodecISh7, inst)
  {
    hide ImmI, ImmU, ImmJ, ImmS, ImmB, ImmCsr, ImmShamt5, ImmShamt6, ImmShamt7;
    hide PlaceI, PlaceU, PlaceJ, PlaceS, PlaceB, PlaceCsr, PlaceShamt5, PlaceShamt6, PlaceShamt7;
    GatherShamt7(inst);
  }

  lemma CapturesS(inst: bv64)
    ensures Captures(CodecS, inst)
  {
    hide ImmI, ImmU, ImmJ, ImmS, ImmB, ImmCsr, ImmShamt5, ImmShamt6, ImmShamt7;
    hide PlaceI, PlaceU, PlaceJ, PlaceS, PlaceB, PlaceCsr, PlaceShamt5, PlaceShamt6, PlaceShamt7;
    GatherS(inst);
  }

  lemma CapturesSB(inst: bv64)
    ensures Captures(CodecSB, inst)
  {
    hide ImmI, ImmU, ImmJ, ImmS, ImmB, ImmCsr, ImmShamt5, ImmShamt6, ImmShamt7;
    hide PlaceI, PlaceU, PlaceJ, PlaceS, PlaceB, PlaceCsr, PlaceShamt5, PlaceShamt6, PlaceShamt7;
    GatherB(inst);
  }

  lemma CapturesR(inst: bv64)
    ensures Captures(CodecR, inst)
  {
    hide ImmI, ImmU, ImmJ, ImmS, ImmB, ImmCsr, ImmShamt5, ImmShamt6, ImmShamt7;
    hide PlaceI, PlaceU, PlaceJ, PlaceS, PlaceB, PlaceCsr, PlaceShamt5, PlaceShamt6, PlaceShamt7;
  }

  lemma CapturesRM(inst: bv64)
    ensures Captures(CodecRM, inst)
  {
    hide ImmI, ImmU, ImmJ, ImmS, ImmB, ImmCsr, ImmShamt5, ImmShamt6, ImmShamt7;
    hide PlaceI, PlaceU, PlaceJ, PlaceS, PlaceB, PlaceCsr, PlaceShamt5, PlaceShamt6, PlaceShamt7;
  }

  lemma CapturesR4M(inst: bv64)
    ensures Captures(CodecR4M, inst)
  {
    hide ImmI, ImmU, ImmJ, ImmS, ImmB, ImmCsr, ImmShamt5, ImmShamt6, ImmShamt7;
    hide PlaceI, PlaceU, PlaceJ, PlaceS, PlaceB, PlaceCsr, PlaceShamt5, PlaceShamt6, PlaceShamt7;
  }

  lemma CapturesRA(inst: bv64)
    ensures Captures(CodecRA, inst)
  {
    hide ImmI, ImmU, ImmJ, ImmS, ImmB, ImmCsr, ImmShamt5, ImmShamt6, ImmShamt7;
    hide PlaceI, PlaceU, PlaceJ, PlaceS, PlaceB, PlaceCsr, PlaceShamt5, PlaceShamt6, PlaceShamt7;
  }

  lemma CapturesRL(inst: bv64)
    ensures Captures(CodecRL, inst)
  {
    hide ImmI, ImmU, ImmJ, ImmS, ImmB, ImmCsr, ImmShamt5, ImmShamt6, ImmShamt7;
    hide PlaceI, PlaceU, PlaceJ, PlaceS, PlaceB, PlaceCsr, PlaceShamt5, PlaceShamt6, PlaceShamt7;
  }

  lemma CapturesRF(inst: bv64)
    ensures Captures(CodecRF, inst)
  {
    hide ImmI, ImmU, ImmJ, ImmS, ImmB, ImmCsr, ImmShamt5, ImmShamt6, ImmShamt7;
    hide PlaceI, PlaceU, PlaceJ, PlaceS, PlaceB, PlaceCsr, PlaceShamt5, PlaceShamt6, PlaceShamt7;
  }

  lemma CapturesNone(inst: bv64)
    ensures Captures(CodecNone, inst)
  {
    hide ImmI, ImmU, ImmJ, ImmS, ImmB, ImmCsr, ImmShamt5, ImmShamt6, ImmShamt7;
    hide PlaceI, PlaceU, PlaceJ, PlaceS, PlaceB, PlaceCsr, PlaceShamt5, PlaceShamt6, PlaceShamt7;
  }

  lemma OperandsCaptured(codec: Codec, inst: bv64)
    requires IsWideCodec(codec)
    ensures Captures(codec, inst)
  {
    hide Captures;
    match codec {
      case CodecU => CapturesU(inst);
      case CodecUJ => CapturesUJ(inst);
      case CodecI => CapturesI(inst);
      case CodecICsr => CapturesICsr(inst);
      case CodecISh5 => CapturesISh5(inst);
      case CodecISh6 => CapturesISh6(inst);
      case CodecISh7 => CapturesISh7(inst);
      case CodecS => CapturesS(inst);
      case CodecSB => CapturesSB(inst);
      case CodecR => CapturesR(inst);
      case CodecRM => CapturesRM(inst);
      case CodecR4M => CapturesR4M(inst);
      case CodecRA => CapturesRA(inst);
      case CodecRL => CapturesRL(inst);
      case CodecRF => CapturesRF(inst);
      case CodecNone => CapturesNone(inst);
    }
  }

  // ----- extracting what was encoded

  /** The operands a 32-bit codec can hold: in range, and zero where the codec has no field. */
  predicate InCodec(codec: Codec, o: Operands) {
    match codec
    case CodecNone => o == NO_OPERANDS
    case CodecU => o == NO_OPERANDS.(rd := o.rd, imm := o.imm) && o.rd < 32 && RangeU(o.imm)
    case CodecUJ => o == NO_OPERANDS.(rd := o.rd, imm := o.imm) && o.rd < 32 && RangeJ(o.imm)
    case CodecI => IsITyped(o) && RangeI(o.imm)
    case CodecISh5 => IsITyped(o) && RangeShamt5(o.imm)
    case CodecISh6 => IsITyped(o) && RangeShamt6(o.imm)
    case CodecISh7 => IsITyped(o) && RangeShamt7(o.imm)
    case CodecICsr => IsITyped(o) && RangeCsr(o.imm)
    case CodecS => IsSTyped(o) && RangeS(o.imm)
    case CodecSB => IsSTyped(o) && RangeB(o.imm)
    case CodecR => o == NO_OPERANDS.(rd := o.rd, rs1 := o.rs1, rs2 := o.rs2) && o.rd < 32 && o.rs1 < 32 && o.rs2 < 32
    case CodecRM =>
      && o == NO_OPERANDS.(rd := o.rd, rs1 := o.rs1, rs2 := o.rs2, rm := o.rm)
      && o.rd < 32 && o.rs1 < 32 && o.rs2 < 32 && o.rm < 8
    case CodecR4M =>
      && o == NO_OPERANDS.(rd := o.rd, rs1 := o.rs1, rs2 := o.rs2, rs3 := o.rs3, rm := o.rm)
      && o.rd < 32 && o.rs1 < 32 && o.rs2 < 32 && o.rs3 < 32 && o.rm < 8
    case CodecRA =>
      && o == NO_OPERANDS.(rd := o.rd, rs1 := o.rs1, rs2 := o.rs2, aq := o.aq, rl := o.rl)
      && o.rd < 32 && o.rs1 < 32 && o.rs2 < 32 && o.aq < 2 && o.rl < 2
    case CodecRL =>
      && o == NO_OPERANDS.(rd := o.rd, rs1 := o.rs1, aq := o.aq, rl := o.rl)
      && o.rd < 32 && o.rs1 < 32 && o.aq < 2 && o.rl < 2
    case CodecRF => o == NO_OPERANDS.(pred := o.pred, succ := o.succ) && o.pred < 16 && o.succ < 16
    case _ => false
  }

  predicate IsITyped(o: Operands) {
    o == NO_OPERANDS.(rd := o.rd, rs1 := o.rs1, imm := o.imm) && o.rd < 32 && o.rs1 < 32
  }

  predicate IsSTyped(o: Operands) {
    o == NO_OPERANDS.(rs1 := o.rs1, rs2 := o.rs2, imm := o.imm) && o.rs1 < 32 && o.rs2 < 32
  }

  /** Extracting the operands of the encoded operand bits gives the operands. */
  predicate Recovers(codec: Codec, o: Operands) {
    WideOperandsOf(codec, OperandBits(codec, o), NO_OPERANDS) == o
  }

  lemma RecoversU(o: Operands)
    requires InCodec(CodecU, o)
    ensures Recovers(CodecU, o)
  {
    hide ImmI, ImmU, ImmJ, ImmS, ImmB, ImmCsr, ImmShamt5, ImmShamt6, ImmShamt7;
    var bits := OperandBits(CodecU, o);
    assert bits & 0xFFFF_F000 == PlaceU(o.imm);
    GatherU(bits);
    ScatterU(o.imm);
    ScatterU(ImmU(bits));
  }

  lemma RecoversUJ(o: Operands)
    requires InCodec(CodecUJ, o)
    ensures Recovers(CodecUJ, o)
  {
    hide ImmI, ImmU, ImmJ, ImmS, ImmB, ImmCsr, ImmShamt5, ImmShamt6, ImmShamt7;
    var bits := OperandBits(CodecUJ, o);
    assert bits & 0xFFFF_F000 == PlaceJ(o.imm);
    GatherJ(bits);
    ScatterJ(o.imm);
    ScatterJ(ImmJ(bits));
  }

  lemma RecoversI(o: Operands)
    requires InCodec(CodecI, o)
    ensures Recovers(CodecI, o)
  {
    hide ImmI, ImmU, ImmJ, ImmS, ImmB, ImmCsr, ImmShamt5, ImmShamt6, ImmShamt7;
    var bits := OperandBits(CodecI, o);
    assert bits & 0xFFF0_0000 == PlaceI(o.imm);
    GatherI(bits);
    ScatterI(o.imm);
    ScatterI(ImmI(bits));
  }

  lemma RecoversICsr(o: Operands)
    requires InCodec(CodecICsr, o)
    ensures Recovers(CodecICsr, o)
  {
    hide ImmI, ImmU, ImmJ, ImmS, ImmB, ImmCsr, ImmShamt5, ImmShamt6, ImmShamt7;
    var bits := OperandBits(CodecICsr, o);
    assert bits & 0xFFF0_0000 == PlaceCsr(o.imm);
    GatherCsr(bits);
    ScatterCsr(o.imm);
    ScatterCsr(ImmCsr(bits));
  }

  lemma RecoversISh5(o: Operands)
    requires InCodec(CodecISh5, o)
    ensures Recovers(CodecISh5, o)
  {
    hide ImmI, ImmU, ImmJ, ImmS, ImmB, ImmCsr, ImmShamt5, ImmShamt6, ImmShamt7;
    var bits := OperandBits(CodecISh5, o);
    assert bits & 0x01F0_0000 == PlaceShamt5(o.imm);
    GatherShamt5(bits);
    ScatterShamt5(o.imm);
    ScatterShamt5(ImmShamt5(bits));
  }

  lemma RecoversISh6(o: Operands)
    requires InCodec(CodecISh6, o)
    ensures Recovers(CodecISh6, o)
  {
    hide ImmI, ImmU, ImmJ, ImmS, ImmB, ImmCsr, ImmShamt5, ImmShamt6, ImmShamt7;
    var bits := OperandBits(CodecISh6, o);
    assert bits & 0x03F0_0000 == PlaceShamt6(o.imm);
    GatherShamt6(bits);
    ScatterShamt6(o.imm);
    ScatterShamt6(ImmShamt6(bits));
  }

  lemma RecoversISh7(o: Operands)
    requires InCodec(CodecISh7, o)
    ensures Recovers(CodecISh7, o)
  {
    hide ImmI, ImmU, ImmJ, ImmS, ImmB, ImmCsr, ImmShamt5, ImmShamt6, ImmShamt7;
    var bits := OperandBits(CodecISh7, o);
    assert bits & 0x07F0_0000 == PlaceShamt7(o.imm);
    GatherShamt7(bits);
    ScatterShamt7(o.imm);
    ScatterShamt7(ImmShamt7(bits));
  }

  lemma RecoversS(o: Operands)
    requires InCodec(CodecS, o)
    ensures Recovers(CodecS, o)
  {
    hide ImmI, ImmU, ImmJ, ImmS, ImmB, ImmCsr, ImmShamt5, ImmShamt6, ImmShamt7;
    var bits := OperandBits(CodecS, o);
    assert bits & 0xFE00_0F80 == PlaceS(o.imm);
    GatherS(bits);
    ScatterS(o.imm);
    ScatterS(ImmS(bits));
  }

  lemma RecoversSB(o: Operands)
    requires InCodec(CodecSB, o)
    ensures Recovers(CodecSB, o)
  {
    hide ImmI, ImmU, ImmJ, ImmS, ImmB, ImmCsr, ImmShamt5, ImmShamt6, ImmShamt7;
    var bits := OperandBits(CodecSB, o);
    assert bits & 0xFE00_0F80 == PlaceB(o.imm);
    GatherB(bits);
    ScatterB(o.imm);
    ScatterB(ImmB(bits));
  }

  lemma RecoversR(o: Operands)
    requires InCodec(CodecR, o)
    ensures Recovers(CodecR, o)
  {
    hide ImmI, ImmU, ImmJ, ImmS, ImmB, ImmCsr, ImmShamt5, ImmShamt6, ImmShamt7;
    hide PlaceI, PlaceU, PlaceJ, PlaceS, PlaceB, PlaceCsr, PlaceShamt5, PlaceShamt6, PlaceShamt7;
  }

  lemma RecoversRM(o: Operands)
    requires InCodec(CodecRM, o)
    ensures Recovers(CodecRM, o)
  {
    hide ImmI, ImmU, ImmJ, ImmS, ImmB, ImmCsr, ImmShamt5, ImmShamt6, ImmShamt7;
    hide PlaceI, PlaceU, PlaceJ, PlaceS, PlaceB, PlaceCsr, PlaceShamt5, PlaceShamt6, PlaceShamt7;
  }

  lemma RecoversR4M(o: Operands)
    requires InCodec(CodecR4M, o)
    ensures Recovers(CodecR4M, o)
  {
    hide ImmI, ImmU, ImmJ, ImmS, ImmB, ImmCsr, ImmShamt5, ImmShamt6, ImmShamt7;
    hide PlaceI, PlaceU, PlaceJ, PlaceS, PlaceB, PlaceCsr, PlaceShamt5, PlaceShamt6, PlaceShamt7;
  }

  lemma RecoversRA(o: Operands)
    requires InCodec(CodecRA, o)
    ensures Recovers(CodecRA, o)
  {
    hide ImmI, ImmU, ImmJ, ImmS, ImmB, ImmCsr, ImmShamt5, ImmShamt6, ImmShamt7;
    hide PlaceI, PlaceU, PlaceJ, PlaceS, PlaceB, PlaceCsr, PlaceShamt5, PlaceShamt6, PlaceShamt7;
  }

  lemma FieldsOfRL(rd: bv8, rs1: bv8, aq: bv8, rl: bv8)
    requires rd < 32 && rs1 < 32 && aq < 2 && rl < 2
    ensures var bits := PutRd(rd) | PutRs1(rs1) | PutAqRl(aq, rl);
            RdAt(bits) == rd && Rs1At(bits) == rs1 && AqAt(bits) == aq && RlAt(bits) == rl
  {}

  lemma RecoversRL(o: Operands)
    requires InCodec(CodecRL, o)
    ensures Recovers(CodecRL, o)
  {
    hide ImmI, ImmU, ImmJ, ImmS, ImmB, ImmCsr, ImmShamt5, ImmShamt6, ImmShamt7;
    hide PlaceI, PlaceU, PlaceJ, PlaceS, PlaceB, PlaceCsr, PlaceShamt5, PlaceShamt6, PlaceShamt7;
    FieldsOfRL(o.rd, o.rs1, o.aq, o.rl);
    assert OperandBits(CodecRL, o) == PutRd(o.rd) | PutRs1(o.rs1) | PutAqRl(o.aq, o.rl);
    assert WideOperandsOf(CodecRL, OperandBits(CodecRL, o), NO_OPERANDS) == o;
    hide OperandBits, WideOperandsOf;
  }

  lemma FieldsOfRF(pred: bv8, succ: bv8)
    requires pred < 16 && succ < 16
    ensures PredAt(PutPredSucc(pred, succ)) == pred && SuccAt(PutPredSucc(pred, succ)) == succ
  {}

  lemma RecoversRF(o: Operands)
    requires InCodec(CodecRF, o)
    ensures Recovers(CodecRF, o)
  {
    hide PredAt, SuccAt, PutPredSucc;
    hide ImmI, ImmU, ImmJ, ImmS, ImmB, ImmCsr, ImmShamt5, ImmShamt6, ImmShamt7;
    hide PlaceI, PlaceU, PlaceJ, PlaceS, PlaceB, PlaceCsr, PlaceShamt5, PlaceShamt6, PlaceShamt7;
    FieldsOfRF(o.pred, o.succ);
  }

  lemma RecoversNone(o: Operands)
    requires InCodec(CodecNone, o)
    ensures Recovers(CodecNone, o)
  {
    hide ImmI, ImmU, ImmJ, ImmS, ImmB, ImmCsr, ImmShamt5, ImmShamt6, ImmShamt7;
    hide PlaceI, PlaceU, PlaceJ, PlaceS, PlaceB, PlaceCsr, PlaceShamt5, PlaceShamt6, PlaceShamt7;
  }

  lemma InCodecIsWide(codec: Codec, o: Operands)
    requires InCodec(codec, o)
    ensures IsWideCodec(codec)
  {}

  lemma OperandsRecovered(codec: Codec, o: Operands)
    requires InCodec(codec, o)
    ensures Recovers(codec, o)
  {
    InCodecIsWide(codec, o);
    hide Recovers, InCodec;
    match codec {
      case CodecU => RecoversU(o);
      case CodecUJ => RecoversUJ(o);
      case CodecI => RecoversI(o);
      case CodecICsr => RecoversICsr(o);
      case CodecISh5 => RecoversISh5(o);
      case CodecISh6 => RecoversISh6(o);
      case CodecISh7 => RecoversISh7(o);
      case CodecS => RecoversS(o);
      case CodecSB => RecoversSB(o);
      case CodecR => RecoversR(o);
      case CodecRM => RecoversRM(o);
      case CodecR4M => RecoversR4M(o);
      case CodecRA => RecoversRA(o);
      case CodecRL => RecoversRL(o);
      case CodecRF => RecoversRF(o);
      case CodecNone => RecoversNone(o);
    }
  }

  lemma FieldsAreSmall(inst: bv64)
    ensures RdAt(inst) < 32 && Rs1At(inst) < 32 && Rs2At(inst) < 32 && Rs3At(inst) < 32
    ensures RmAt(inst) < 8 && PredAt(inst) < 16 && SuccAt(inst) < 16 && AqAt(inst) < 2 && RlAt(inst) < 2
  {}

  lemma ImmediatesInRange(codec: Codec, inst: bv64)
    requires || codec.CodecU? || codec.CodecUJ? || codec.CodecI? || codec.CodecICsr?
             || codec.CodecISh5? || codec.CodecISh6? || codec.CodecISh7?
    ensures InCodec(codec, WideOperandsOf(codec, inst, NO_OPERANDS))
  {
    hide ImmI, ImmU, ImmJ, ImmS, ImmB, ImmCsr, ImmShamt5, ImmShamt6, ImmShamt7;
    hide RangeI, RangeU, RangeJ, RangeS, RangeB, RangeCsr, RangeShamt5, RangeShamt6, RangeShamt7;
    hide RdAt, Rs1At, Rs2At, Rs3At, RmAt, PredAt, SuccAt, AqAt, RlAt;
    FieldsAreSmall(inst);
    GatherI(inst);
    GatherU(inst);
    GatherJ(inst);
    GatherCsr(inst);
    GatherShamt5(inst);
    GatherShamt6(inst);
    GatherShamt7(inst);
  }

  lemma SourcesInRange(codec: Codec, inst: bv64)
    requires codec.CodecS? || codec.CodecSB? || codec.CodecR? || codec.CodecRF? || codec.CodecNone?
    ensures InCodec(codec, WideOperandsOf(codec, inst, NO_OPERANDS))
  {
    hide ImmI, ImmU, ImmJ, ImmS, ImmB, ImmCsr, ImmShamt5, ImmShamt6, ImmShamt7;
    hide RangeI, RangeU, RangeJ, RangeS, RangeB, RangeCsr, RangeShamt5, RangeShamt6, RangeShamt7;
    hide RdAt, Rs1At, Rs2At, Rs3At, RmAt, PredAt, SuccAt, AqAt, RlAt;
    FieldsAreSmall(inst);
    GatherS(inst);
    GatherB(inst);
  }

  lemma FlagsInRange(codec: Codec, inst: bv64)
    requires codec.CodecRM? || codec.CodecR4M? || codec.CodecRA? || codec.CodecRL?
    ensures InCodec(codec, WideOperandsOf(codec, inst, NO_OPERANDS))
  {
    hide ImmI, ImmU, ImmJ, ImmS, ImmB, ImmCsr, ImmShamt5, ImmShamt6, ImmShamt7;
    hide RangeI, RangeU, RangeJ, RangeS, RangeB, RangeCsr, RangeShamt5, RangeShamt6, RangeShamt7;
    hide RdAt, Rs1At, Rs2At, Rs3At, RmAt, PredAt, SuccAt, AqAt, RlAt;
    FieldsAreSmall(inst);
  }

  lemma ExtractedInRange(codec: Codec, inst: bv64)
    requires IsWideCodec(codec)
    ensures InCodec(codec, WideOperandsOf(codec, inst, NO_OPERANDS))
  {
    hide InCodec, WideOperandsOf;
    match codec {
      case CodecU | CodecUJ | CodecI | CodecISh5 | CodecISh6 | CodecISh7 | CodecICsr => ImmediatesInRange(codec, inst);
      case CodecS | CodecSB | CodecR | CodecRF | CodecNone => SourcesInRange(codec, inst);
      case CodecRM | CodecR4M | CodecRA | CodecRL => FlagsInRange(codec, inst);
    }
  }

  // ----- the operand fields an opcode fixes

  /** The operands agree with the operand fields that the opcode fixes. */
  predicate Agrees(fixed: Fixed, o: Operands) {
    match fixed
    case FixFp(FpRoundedRs2(_, rs2), _) => o.rs2 == rs2 as bv8
    case FixFp(FpF3Rs2(_, rs2, _), _) => o.rs2 == rs2 as bv8
    case FixConvert(_, rs2) => o.rs2 == rs2 as bv8
    case FixSfenceVm => o.rd == 0 && o.rs2 == 4
    case FixSfenceVma => o.rd == 0
    case _ => true
  }

  // Facts about masks, kept behind names so that the proofs that follow need no bit reasoning of their own.

  predicate Within(x: bv64, m: bv64) { Selects(x, m, x) }

  predicate Covers(m: bv64, n: bv64) { m | n == 0xFFFF_FFFF }

  predicate Separate(m: bv64, n: bv64) { m & n == 0 }

  /** x and y, which lie within m and n, hold the same bits where m and n overlap. */
  predicate Coincide(x: bv64, m: bv64, y: bv64, n: bv64) { x & n == y & m }

  lemma SeparateCoincide(x: bv64, m: bv64, y: bv64, n: bv64)
    requires Separate(m, n) && Within(x, m) && Within(y, n)
    ensures Coincide(x, m, y, n)
  {}

  lemma SelectedCover(inst: bv64, m: bv64, x: bv64, n: bv64, y: bv64)
    requires Selects(inst, m, x) && Selects(inst, n, y) && Covers(m, n)
    ensures x | y == inst & 0xFFFF_FFFF
  {}

  lemma UnionSelects(inst: bv64, m: bv64, x: bv64, n: bv64, y: bv64)
    requires Within(x, m) && Within(y, n) && Within(m, 0xFFFF_FFFF) && Within(n, 0xFFFF_FFFF) && Coincide(x, m, y, n)
    requires inst & 0xFFFF_FFFF == x | y
    ensures Selects(inst, m, x) && Selects(inst, n, y)
  {}

  lemma OperandBitsInMask(codec: Codec, o: Operands)
    requires InCodec(codec, o)
    ensures Within(OperandBits(codec, o), OperandMask(codec))
  {
    hide Selects, OperandBits, OperandMask, WideOperandsOf;
    OperandsRecovered(codec, o);
    OperandsCaptured(codec, OperandBits(codec, o));
  }

  lemma FixedFpBitsInMask(fixed: Fixed)
    requires fixed.FixFp?
    ensures Within(FixedBits(fixed), FixedMask(fixed))
  {}

  lemma FixedPlainBitsInMask(fixed: Fixed)
    requires !fixed.FixFp?
    ensures Within(FixedBits(fixed), FixedMask(fixed))
  {
    hide FpBits, FpMask;
  }

  lemma FixedBitsInMask(fixed: Fixed)
    ensures Within(FixedBits(fixed), FixedMask(fixed))
  {
    hide Within, FixedBits, FixedMask;
    if fixed.FixFp? {
      FixedFpBitsInMask(fixed);
    } else {
      FixedPlainBitsInMask(fixed);
    }
  }

  /** The operand bits and the fixed bits coincide where their masks overlap. */
  predicate Consistent(codec: Codec, fixed: Fixed, o: Operands) {
    Coincide(OperandBits(codec, o), OperandMask(codec), FixedBits(fixed), FixedMask(fixed))
  }

  predicate Overlaps(fixed: Fixed) {
    match fixed
    case FixFp(fp, _) => fp.FpRoundedRs2? || fp.FpF3Rs2?
    case FixConvert(_, _) | FixSfenceVm | FixSfenceVma => true
    case _ => false
  }

  /** The operand mask and the fixed mask make up the whole word, and meet only in the shapes that overlap. */
  predicate Partitions(codec: Codec, fixed: Fixed) {
    && Covers(FixedMask(fixed), OperandMask(codec))
    && (!Overlaps(fixed) ==> Separate(OperandMask(codec), FixedMask(fixed)))
  }

  /** Masks that are the complement of each other in 32 bits. */
  lemma Complements(m: bv64, n: bv64)
    requires m | n == 0xFFFF_FFFF && n & m == 0
    ensures Covers(m, n) && Separate(n, m)
  {}

  lemma OverlappingCovers()
    ensures Covers(0xFFF0_007F, 0x01FF_FF80)
    ensures Covers(0xFFF0_7FFF, 0x01FF_8F80) && Covers(0xFE00_7FFF, 0x01FF_8F80)
  {}

  lemma MajorMasks(codec: Codec, fixed: Fixed)
    requires Completes(codec, fixed) && fixed.FixMajor?
    ensures Partitions(codec, fixed)
  {
    hide Covers, Separate, FpMask;
    Complements(0x7F, 0xFFFF_FF80);
  }

  lemma F3Masks(codec: Codec, fixed: Fixed)
    requires Completes(codec, fixed) && fixed.FixF3?
    ensures Partitions(codec, fixed)
  {
    hide Covers, Separate, FpMask;
    Complements(0x707F, 0xFFFF_8F80);
  }

  lemma F5Masks(codec: Codec, fixed: Fixed)
    requires Completes(codec, fixed) && fixed.FixF5?
    ensures Partitions(codec, fixed)
  {
    hide Covers, Separate, FpMask;
    Complements(0xF800_707F, 0x07FF_8F80);
  }

  lemma F6Masks(codec: Codec, fixed: Fixed)
    requires Completes(codec, fixed) && fixed.FixF6?
    ensures Partitions(codec, fixed)
  {
    hide Covers, Separate, FpMask;
    Complements(0xFC00_707F, 0x03FF_8F80);
  }

  lemma F7Masks(codec: Codec, fixed: Fixed)
    requires Completes(codec, fixed) && fixed.FixF7?
    ensures Partitions(codec, fixed)
  {
    hide Covers, Separate, FpMask;
    Complements(0xFE00_707F, 0x01FF_8F80);
  }

  lemma F5Rs2Masks(codec: Codec, fixed: Fixed)
    requires Completes(codec, fixed) && fixed.FixF5Rs2?
    ensures Partitions(codec, fixed)
  {
    hide Covers, Separate, FpMask;
    Complements(0xF9F0_707F, 0x060F_8F80);
  }

  lemma FmaMasks(codec: Codec, fixed: Fixed)
    requires Completes(codec, fixed) && fixed.FixFma?
    ensures Partitions(codec, fixed)
  {
    hide Covers, Separate, FpMask;
    Complements(0x0600_007F, 0xF9FF_FF80);
  }

  lemma SystemMasks(codec: Codec, fixed: Fixed)
    requires Completes(codec, fixed) && fixed.FixSystem?
    ensures Partitions(codec, fixed)
  {
    hide Covers, Separate, FpMask;
    Complements(0xFFFF_FFFF, 0);
  }

  lemma ConvertMasks(codec: Codec, fixed: Fixed)
    requires Completes(codec, fixed) && fixed.FixConvert?
    ensures Partitions(codec, fixed)
  {
    hide Covers, Separate, FpMask;
    OverlappingCovers();
  }

  lemma SfenceMasks()
    ensures Partitions(CodecR, FixSfenceVm) && Partitions(CodecR, FixSfenceVma)
  {
    hide Covers, Separate;
    OverlappingCovers();
  }

  lemma FpFieldMasks(fp: FpFixed)
    ensures fp.FpRounded? ==> 0x0600_007F | FpMask(fp) == 0xFE00_007F
    ensures fp.FpRoundedRs2? ==> 0x0600_007F | FpMask(fp) == 0xFFF0_007F
    ensures fp.FpF3? ==> 0x0600_007F | FpMask(fp) == 0xFE00_707F
    ensures fp.FpF3Rs2? ==> 0x0600_007F | FpMask(fp) == 0xFFF0_707F
  {}

  lemma FpMasks(codec: Codec, fixed: Fixed)
    requires Completes(codec, fixed) && fixed.FixFp?
    ensures Partitions(codec, fixed)
  {
    hide FpMask;
    FpFieldMasks(fixed.fp);
  }

  lemma CompletedShape(codec: Codec, fixed: Fixed)
    requires Completes(codec, fixed)
    ensures Partitions(codec, fixed)
  {
    hide Partitions;
    match fixed {
      case FixMajor(_) => MajorMasks(codec, fixed);
      case FixF3(_, _) => F3Masks(codec, fixed);
      case FixF5(_, _, _) => F5Masks(codec, fixed);
      case FixF6(_, _, _) => F6Masks(codec, fixed);
      case FixF7(_, _, _) => F7Masks(codec, fixed);
      case FixF5Rs2(_, _, _, _) => F5Rs2Masks(codec, fixed);
      case FixFma(_, _) => FmaMasks(codec, fixed);
      case FixFp(_, _) => FpMasks(codec, fixed);
      case FixSystem(_, _) => SystemMasks(codec, fixed);
      case FixConvert(_, _) => ConvertMasks(codec, fixed);
      case FixSfenceVm | FixSfenceVma =>
        assert codec == CodecR;
        SfenceMasks();
    }
  }

  lemma AgreedRounded(funct5: bv5, rs2: bv5, funct2: bv2, o: Operands)
    requires o.rs2 == rs2 as bv8
    ensures Consistent(CodecRM, FixFp(FpRoundedRs2(funct5, rs2), funct2), o)
  {
    assert PutRs2(rs2 as bv8) == (rs2 as bv64) << 20;
  }

  lemma AgreedMove(funct5: bv5, rs2: bv5, funct3: bv3, funct2: bv2, o: Operands)
    requires o.rs2 == rs2 as bv8
    ensures Consistent(CodecR, FixFp(FpF3Rs2(funct5, rs2, funct3), funct2), o)
  {
    assert PutRs2(rs2 as bv8) == (rs2 as bv64) << 20;
  }

  lemma AgreedConvert(funct2: bv2, rs2: bv5, o: Operands)
    requires o.rs2 == rs2 as bv8
    ensures Consistent(CodecRM, FixConvert(funct2, rs2), o)
  {
    assert PutRs2(rs2 as bv8) == (rs2 as bv64) << 20;
  }

  lemma AgreedSfence(o: Operands)
    requires o.rd == 0
    ensures o.rs2 == 4 ==> Consistent(CodecR, FixSfenceVm, o)
    ensures Consistent(CodecR, FixSfenceVma, o)
  {}

  lemma SeparatelyAgreed(codec: Codec, fixed: Fixed, o: Operands)
    requires Completes(codec, fixed) && !Overlaps(fixed) && InCodec(codec, o)
    ensures Consistent(codec, fixed, o)
  {
    hide Selects, Separate, Coincide;
    hide OperandBits, OperandMask, FixedBits, FixedMask, InCodec;
    CompletedShape(codec, fixed);
    OperandBitsInMask(codec, o);
    FixedBitsInMask(fixed);
    SeparateCoincide(OperandBits(codec, o), OperandMask(codec), FixedBits(fixed), FixedMask(fixed));
  }

  lemma Agreed(codec: Codec, fixed: Fixed, o: Operands)
    requires Completes(codec, fixed) && InCodec(codec, o) && Agrees(fixed, o)
    ensures Consistent(codec, fixed, o)
  {
    hide InCodec, Consistent;
    match fixed {
      case FixFp(FpRoundedRs2(funct5, rs2), funct2) => AgreedRounded(funct5, rs2, funct2, o);
      case FixFp(FpF3Rs2(funct5, rs2, funct3), funct2) => AgreedMove(funct5, rs2, funct3, funct2, o);
      case FixConvert(funct2, rs2) => AgreedConvert(funct2, rs2, o);
      case FixSfenceVm | FixSfenceVma => AgreedSfence(o);
      case _ =>
        SeparatelyAgreed(codec, fixed, o);
    }
  }


  // ----- 32-bit decoding is lossless and invertible

  /** The bits of a word that its opcode and its codec read: all 32 but for the fences. */
  function ReadPart(op: WideOp, inst: bv64): bv64 {
    match op
    case Fence => inst & 0x0FF0_707F
    case FenceI => inst & 0x0000_707F
    case _ => inst & 0xFFFF_FFFF
  }

  lemma EncodeKeepsOthers(inst: bv64, isa: Isa, op: WideOp)
    requires OpcodeOf(inst, isa) == Wide(op) && op != Fence && op != FenceI
    ensures Encode(op, OperandsOf(CodecOf(Wide(op)), inst, NO_OPERANDS)) == inst & 0xFFFF_FFFF
  {
    hide Selects, Covers, OperandBits, OperandMask, WideOperandsOf, FixedBits, FixedMask, FixedOf, OpcodeOf;
    hide WideCodec, Completes;
    var codec, fixed := WideCodec(op), FixedOf(op);
    WideCodecs(op);
    DecodedByFixedBits(inst, isa, op);
    OperandsCaptured(codec, inst);
    CompletedOp(op);
    CompletedShape(codec, fixed);
    var o := WideOperandsOf(codec, inst, NO_OPERANDS);
    SelectedCover(inst, FixedMask(fixed), FixedBits(fixed), OperandMask(codec), OperandBits(codec, o));
  }

  lemma EncodeKeepsFence(inst: bv64, isa: Isa)
    requires OpcodeOf(inst, isa) == Wide(Fence)
    ensures Encode(Fence, OperandsOf(CodecOf(Wide(Fence)), inst, NO_OPERANDS)) == ReadPart(Fence, inst)
  {
    hide OpcodeOf;
    DecodedByFixedBits(inst, isa, Fence);
    FenceBits(inst);
  }

  lemma EncodeKeepsFenceI(inst: bv64, isa: Isa)
    requires OpcodeOf(inst, isa) == Wide(FenceI)
    ensures Encode(FenceI, OperandsOf(CodecOf(Wide(FenceI)), inst, NO_OPERANDS)) == ReadPart(FenceI, inst)
  {
    hide OpcodeOf;
    DecodedByFixedBits(inst, isa, FenceI);
  }

  lemma FenceBits(inst: bv64)
    ensures inst & 0x707F == 0x000F ==> 0x000F | PutPredSucc(PredAt(inst), SuccAt(inst)) == inst & 0x0FF0_707F
  {}

  /** Encoding what a word decodes to gives back the bits that are read. */
  lemma EncodeKeepsRead(inst: bv64, isa: Isa, op: WideOp)
    requires OpcodeOf(inst, isa) == Wide(op)
    ensures Encode(op, OperandsOf(CodecOf(Wide(op)), inst, NO_OPERANDS)) == ReadPart(op, inst)
  {
    hide OpcodeOf, Encode, OperandsOf;
    if op == Fence {
      EncodeKeepsFence(inst, isa);
    } else if op == FenceI {
      EncodeKeepsFenceI(inst, isa);
    } else {
      EncodeKeepsOthers(inst, isa, op);
    }
  }

  lemma UnreadFenceBits(inst: bv64)
    ensures ReadPart(Fence, inst) == inst & 0xFFFF_FFFF <==> inst & 0xF00F_8F80 == 0
    ensures ReadPart(FenceI, inst) == inst & 0xFFFF_FFFF <==> inst & 0xFFFF_8F80 == 0
  {}

  lemma OthersRead(inst: bv64, op: WideOp)
    requires op != Fence && op != FenceI
    ensures ReadPart(op, inst) == inst & 0xFFFF_FFFF
  {}

  lemma UnreadBits(inst: bv64, op: WideOp)
    ensures ReadPart(op, inst) == inst & 0xFFFF_FFFF
       <==> (op == Fence ==> inst & 0xF00F_8F80 == 0) && (op == FenceI ==> inst & 0xFFFF_8F80 == 0)
  {
    hide ReadPart;
    UnreadFenceBits(inst);
    if op != Fence && op != FenceI {
      OthersRead(inst, op);
    }
  }

  /**
   The word that encodes what a word decodes to is its low 32 bits, exactly
   unless the word is a fence with a bit set that decoding does not read.
  */
  lemma EncodeUndoesDecode(inst: bv64, isa: Isa, op: WideOp)
    requires OpcodeOf(inst, isa) == Wide(op)
    ensures Encode(op, OperandsOf(CodecOf(Wide(op)), inst, NO_OPERANDS)) == inst & 0xFFFF_FFFF
       <==> (op == Fence ==> inst & 0xF00F_8F80 == 0) && (op == FenceI ==> inst & 0xFFFF_8F80 == 0)
  {
    hide OpcodeOf, Encode, OperandsOf, CodecOf, ReadPart;
    EncodeKeepsRead(inst, isa, op);
    UnreadBits(inst, op);
  }

  /** A fence.i with a destination register loses it. */
  lemma FenceLosesBits(isa: Isa)
    ensures OpcodeOf(0x108F, isa) == Wide(FenceI)
    ensures Encode(FenceI, OperandsOf(CodecOf(Wide(FenceI)), 0x108F, NO_OPERANDS)) == 0x100F
  {
    DecodedByFixedBits(0x108F, isa, FenceI);
    EncodeKeepsFenceI(0x108F, isa);
    hide OpcodeOf, Encode, OperandsOf;
  }

  lemma WideCodecs(op: WideOp)
    ensures IsWideCodec(WideCodec(op))
  {}

  /** The operand sets that an instruction can carry. */
  predicate Encodable(op: WideOp, o: Operands) {
    InCodec(WideCodec(op), o) && Agrees(FixedOf(op), o)
  }

  lemma EncodableIsConsistent(op: WideOp, o: Operands)
    requires Encodable(op, o)
    ensures Consistent(WideCodec(op), FixedOf(op), o)
  {
    hide InCodec, Agrees, Consistent;
    if op == Fence || op == FenceI {
      FencesAreConsistent(o);
    } else {
      CompletedOp(op);
      Agreed(WideCodec(op), FixedOf(op), o);
    }
  }

  lemma FencesAreConsistent(o: Operands)
    ensures Consistent(CodecRF, FixF3(3, 0), o)
    ensures Consistent(CodecNone, FixF3(3, 1), o)
  {}

  lemma OperandMaskIn32Bits(codec: Codec)
    ensures Within(OperandMask(codec), 0xFFFF_FFFF)
  {}

  lemma FixedMaskIn32Bits(fixed: Fixed)
    ensures Within(FixedMask(fixed), 0xFFFF_FFFF)
  {}

  /** Every operand set an instruction can carry is recovered from its encoding, whatever lies above bit 31. */
  lemma DecodeUndoesEncode(inst: bv64, isa: Isa, op: WideOp, o: Operands)
    requires Encodable(op, o) && inst & 0xFFFF_FFFF == Encode(op, o)
    ensures OpcodeOf(inst, isa) == Wide(op)
    ensures OperandsOf(CodecOf(Wide(op)), inst, NO_OPERANDS) == o
  {
    hide Selects, Coincide, OperandBits, OperandMask, WideOperandsOf, FixedBits, FixedMask, FixedOf, OpcodeOf;
    hide WideCodec;
    hide InCodec, Agrees;
    var codec, fixed := WideCodec(op), FixedOf(op);
    WideCodecs(op);
    EncodableIsConsistent(op, o);
    OperandBitsInMask(codec, o);
    FixedBitsInMask(fixed);
    OperandMaskIn32Bits(codec);
    FixedMaskIn32Bits(fixed);
    UnionSelects(inst, OperandMask(codec), OperandBits(codec, o), FixedMask(fixed), FixedBits(fixed));
    DecodedByFixedBits(inst, isa, op);
    OperandsCaptured(codec, inst);
    var o' := WideOperandsOf(codec, inst, NO_OPERANDS);
    SelectsOne(inst, OperandMask(codec), OperandBits(codec, o), OperandBits(codec, o'));
    ExtractedInRange(codec, inst);
    OperandsRecovered(codec, o);
    OperandsRecovered(codec, WideOperandsOf(codec, inst, NO_OPERANDS));
  }

  lemma SelectsOne(inst: bv64, m: bv64, x: bv64, y: bv64)
    requires Selects(inst, m, x) && Selects(inst, m, y)
    ensures x == y
  {}

  lemma CarriedAgrees(inst: bv64, codec: Codec, fixed: Fixed)
    requires Completes(codec, fixed) && Carries(inst, fixed)
    ensures Agrees(fixed, WideOperandsOf(codec, inst, NO_OPERANDS))
  {
    hide ImmI, ImmU, ImmJ, ImmS, ImmB, ImmCsr, ImmShamt5, ImmShamt6, ImmShamt7;
    hide RdAt, Rs1At, Rs2At, Rs3At, RmAt, PredAt, SuccAt, AqAt, RlAt, Rd, Rs1, Rs2, Major, Funct2, Funct3, Funct5;
    hide Funct6, Funct7;
    FieldsCoincide(inst);
  }

  lemma FieldsCoincide(inst: bv64)
    ensures Rs2At(inst) == Rs2(inst) as bv8 && RdAt(inst) == Rd(inst) as bv8
  {}

  /** What a word decodes to is an operand set the instruction can carry. */
  lemma DecodedIsEncodable(inst: bv64, isa: Isa, op: WideOp)
    requires OpcodeOf(inst, isa) == Wide(op)
    ensures Encodable(op, OperandsOf(CodecOf(Wide(op)), inst, NO_OPERANDS))
  {
    hide Completes, Carries, HasFixedBits, WideOperandsOf, OpcodeOf, FixedOf, Agrees, InCodec, WideCodec;
    WideCodecs(op);
    ExtractedInRange(WideCodec(op), inst);
    DecodedByFixedBits(inst, isa, op);
    FixedBitsAreCarried(inst, FixedOf(op));
    if op != Fence && op != FenceI {
      CompletedOp(op);
      CarriedAgrees(inst, WideCodec(op), FixedOf(op));
    } else {
      FencesAgree(op, WideOperandsOf(WideCodec(op), inst, NO_OPERANDS));
    }
  }

  lemma FencesAgree(op: WideOp, o: Operands)
    requires op == Fence || op == FenceI
    ensures Agrees(FixedOf(op), o)
  {}

  // ----- which fields each instruction reads

  /** The fields of each instruction, by its format in the listings of chapter 24. */
  function FieldsOf(op: WideOp, inst: bv64): Operands {
    var rd, rs1, rs2 := RdAt(inst), Rs1At(inst), Rs2At(inst);
    match op
    case Lui | Auipc => NO_OPERANDS.(rd := rd, imm := ImmU(inst))
    case Jal => NO_OPERANDS.(rd := rd, imm := ImmJ(inst))
    case Jalr | Load(_) | AddImm(_) | LogicImm(_) | FLoad(_) =>
      NO_OPERANDS.(rd := rd, rs1 := rs1, imm := ImmI(inst))
    case ShiftImm(_, Full) => NO_OPERANDS.(rd := rd, rs1 := rs1, imm := ImmShamt7(inst))
    case ShiftImm(_, Low64) => NO_OPERANDS.(rd := rd, rs1 := rs1, imm := ImmShamt6(inst))
    case ShiftImm(_, Low32) => NO_OPERANDS.(rd := rd, rs1 := rs1, imm := ImmShamt5(inst))
    case Branch(_) => NO_OPERANDS.(rs1 := rs1, rs2 := rs2, imm := ImmB(inst))
    case Store(_) | FStore(_) => NO_OPERANDS.(rs1 := rs1, rs2 := rs2, imm := ImmS(inst))
    case Arith(_, _) | Logic(_) | SfenceVm | SfenceVma => NO_OPERANDS.(rd := rd, rs1 := rs1, rs2 := rs2)
    case Fence => NO_OPERANDS.(pred := PredAt(inst), succ := SuccAt(inst))
    case FenceI | System(_) => NO_OPERANDS
    case Amo(LoadReserved, _) => NO_OPERANDS.(rd := rd, rs1 := rs1, aq := AqAt(inst), rl := RlAt(inst))
    case Amo(_, _) => NO_OPERANDS.(rd := rd, rs1 := rs1, rs2 := rs2, aq := AqAt(inst), rl := RlAt(inst))
    case Csr(_) | CsrImm(_) => NO_OPERANDS.(rd := rd, rs1 := rs1, imm := ImmCsr(inst))
    case Fma(_, _) => NO_OPERANDS.(rd := rd, rs1 := rs1, rs2 := rs2, rs3 := Rs3At(inst), rm := RmAt(inst))
    case Fp(FAdd, _) | Fp(FSub, _) | Fp(FMul, _) | Fp(FDiv, _) | Fp(FSqrt, _) | Fp(FToInt(_), _) | Fp(FFromInt(_), _)
    | FConvert(_) => NO_OPERANDS.(rd := rd, rs1 := rs1, rs2 := rs2, rm := RmAt(inst))
    case Fp(_, _) => NO_OPERANDS.(rd := rd, rs1 := rs1, rs2 := rs2)
  }

  lemma ConstantFieldsAreRead(op: WideOp, inst: bv64)
    requires op.Lui? || op.Auipc? || op.Jal? || op.Jalr? || op.Branch? || op.Csr? || op.CsrImm?
    ensures OperandsOf(CodecOf(Wide(op)), inst, NO_OPERANDS) == FieldsOf(op, inst)
  {
    hide ImmI, ImmU, ImmJ, ImmS, ImmB, ImmCsr, ImmShamt5, ImmShamt6, ImmShamt7;
    hide RdAt, Rs1At, Rs2At, Rs3At, RmAt, AqAt, RlAt, PredAt, SuccAt;
  }

  lemma AccessFieldsAreRead(op: WideOp, inst: bv64)
    requires op.Load? || op.Store? || op.FLoad? || op.FStore?
    ensures OperandsOf(CodecOf(Wide(op)), inst, NO_OPERANDS) == FieldsOf(op, inst)
  {
    hide ImmI, ImmU, ImmJ, ImmS, ImmB, ImmCsr, ImmShamt5, ImmShamt6, ImmShamt7;
    hide RdAt, Rs1At, Rs2At, Rs3At, RmAt, AqAt, RlAt, PredAt, SuccAt;
  }

  lemma ArithFieldsAreRead(op: WideOp, inst: bv64)
    requires op.AddImm? || op.ShiftImm? || op.LogicImm? || op.Arith? || op.Logic?
    ensures OperandsOf(CodecOf(Wide(op)), inst, NO_OPERANDS) == FieldsOf(op, inst)
  {
    hide ImmI, ImmU, ImmJ, ImmS, ImmB, ImmCsr, ImmShamt5, ImmShamt6, ImmShamt7;
    hide RdAt, Rs1At, Rs2At, Rs3At, RmAt, AqAt, RlAt, PredAt, SuccAt;
  }

  lemma SystemFieldsAreRead(op: WideOp, inst: bv64)
    requires op.Fence? || op.FenceI? || op.System? || op.SfenceVm? || op.SfenceVma? || op.Amo?
    ensures OperandsOf(CodecOf(Wide(op)), inst, NO_OPERANDS) == FieldsOf(op, inst)
  {
    hide ImmI, ImmU, ImmJ, ImmS, ImmB, ImmCsr, ImmShamt5, ImmShamt6, ImmShamt7;
    hide RdAt, Rs1At, Rs2At, Rs3At, RmAt, AqAt, RlAt, PredAt, SuccAt;
  }

  lemma RoundedFieldsAreRead(op: WideOp, inst: bv64)
    requires op.Fma? || op.FConvert?
    ensures OperandsOf(CodecOf(Wide(op)), inst, NO_OPERANDS) == FieldsOf(op, inst)
  {
    hide ImmI, ImmU, ImmJ, ImmS, ImmB, ImmCsr, ImmShamt5, ImmShamt6, ImmShamt7;
    hide RdAt, Rs1At, Rs2At, Rs3At, RmAt, AqAt, RlAt, PredAt, SuccAt;
  }

  lemma FpFieldsAreRead(op: WideOp, inst: bv64)
    requires op.Fp?
    ensures OperandsOf(CodecOf(Wide(op)), inst, NO_OPERANDS) == FieldsOf(op, inst)
  {
    hide ImmI, ImmU, ImmJ, ImmS, ImmB, ImmCsr, ImmShamt5, ImmShamt6, ImmShamt7;
    hide RdAt, Rs1At, Rs2At, Rs3At, RmAt, AqAt, RlAt, PredAt, SuccAt;
  }

  /** Decoding a 32-bit instruction reads the fields of its format. */
  lemma FieldsAreRead(op: WideOp, inst: bv64)
    ensures OperandsOf(CodecOf(Wide(op)), inst, NO_OPERANDS) == FieldsOf(op, inst)
  {
    hide OperandsOf, CodecOf, FieldsOf;
    match op {
      case Lui | Auipc | Jal | Jalr | Branch(_) | Csr(_) | CsrImm(_) => ConstantFieldsAreRead(op, inst);
      case Load(_) | Store(_) | FLoad(_) | FStore(_) => AccessFieldsAreRead(op, inst);
      case AddImm(_) | ShiftImm(_, _) | LogicImm(_) | Arith(_, _) | Logic(_) => ArithFieldsAreRead(op, inst);
      case Fence | FenceI | System(_) | SfenceVm | SfenceVma | Amo(_, _) => SystemFieldsAreRead(op, inst);
      case Fma(_, _) | FConvert(_) => RoundedFieldsAreRead(op, inst);
      case Fp(_, _) => FpFieldsAreRead(op, inst);
    }
  }
}
