/**
 What compressed instructions do, read off the 16-bit word as chapter 16 of the
 RISC-V Unprivileged ISA (version 20191213) describes them, and exactly when
 their expansions do the same.  A word that chapter 16 reserves is given what
 its row would do.
*/
module ShortSemantics {
  import opened Opcodes
  import opened OpcodeDecoder
  import opened Immediates
  import opened Operands
  import opened Decoding
  import opened Compression
  import opened Semantics

  /** Bit 12 holds the top bit of a compressed shift amount. */
  predicate TopShiftBit(inst: bv64) { inst & 0x1000 != 0 }

  /**
   The amount of a compressed shift (section 16.5).  On RV128 a zero stands for
   64, and the amount of a right shift is sign-extended to seven bits.
  */
  function ShiftAmount(isa: Isa, right: bool, inst: bv64): nat {
    var shamt := ImmCSh6(inst) as int;
    if isa != Rv128 then shamt
    else if shamt == 0 then 64
    else if right && TopShiftBit(inst) then shamt + 64
    else shamt
  }

  /** A memory access: what is moved, which register, and the base register and unsigned offset of the address. */
  datatype Access = Access(transfer: WideOp, register: bv8, base: bv8, offset: bv32)

  /** The compressed loads and stores (section 16.3). */
  function AccessOf(op: CompressedOp, inst: bv64): Access {
    var rd, rs2 := RdAt(inst), CRs2At(inst);
    var rdq, rs2q := ShortHighAt(inst), ShortLowAt(inst);
    match op
    case CLw => Access(Load(Lw), rs2q, rdq, ImmCW(inst))
    case CLd => Access(Load(Ld), rs2q, rdq, ImmCD(inst))
    case CLq => Access(Load(Lq), rs2q, rdq, ImmCQ(inst))
    case CFlw => Access(FLoad(Single), rs2q, rdq, ImmCW(inst))
    case CFld => Access(FLoad(Double), rs2q, rdq, ImmCD(inst))
    case CSw => Access(Store(Sw), rs2q, rdq, ImmCW(inst))
    case CSd => Access(Store(Sd), rs2q, rdq, ImmCD(inst))
    case CSq => Access(Store(Sq), rs2q, rdq, ImmCQ(inst))
    case CFsw => Access(FStore(Single), rs2q, rdq, ImmCW(inst))
    case CFsd => Access(FStore(Double), rs2q, rdq, ImmCD(inst))
    case CLwsp => Access(Load(Lw), rd, 2, ImmCLwsp(inst))
    case CLdsp => Access(Load(Ld), rd, 2, ImmCLdsp(inst))
    case CLqsp => Access(Load(Lq), rd, 2, ImmCLqsp(inst))
    case CFlwsp => Access(FLoad(Single), rd, 2, ImmCLwsp(inst))
    case CFldsp => Access(FLoad(Double), rd, 2, ImmCLdsp(inst))
    case CSwsp => Access(Store(Sw), rs2, 2, ImmCSwsp(inst))
    case CSdsp => Access(Store(Sd), rs2, 2, ImmCSdsp(inst))
    case CSqsp => Access(Store(Sq), rs2, 2, ImmCSqsp(inst))
    case CFswsp => Access(FStore(Single), rs2, 2, ImmCSwsp(inst))
    case CFsdsp => Access(FStore(Double), rs2, 2, ImmCSdsp(inst))
    case _ => Access(Fence, 0, 0, 0)
  }

  function Accessed(isa: Isa, access: Access, s: State): State {
    var address := Wrap(isa, Get(s, access.base) + access.offset as int);
    match access.transfer
    case Load(load) => LoadInto(isa, s, load, access.register, address)
    case Store(store) => StoreFrom(isa, s, store, address, Get(s, access.register))
    case FLoad(fmt) => FloatLoadInto(isa, s, fmt, access.register, address)
    case FStore(fmt) => FloatStoreFrom(isa, s, fmt, address, GetFloat(s, access.register))
    case _ => s
  }

  /** What a compressed instruction writes, and where it goes. */
  function ShortEffect(isa: Isa, op: CompressedOp, inst: bv64, s: State): State {
    if IsAccess(op) then Next(isa, 2, Accessed(isa, AccessOf(op, inst), s)) else OtherEffect(isa, op, inst, s)
  }

  function OtherEffect(isa: Isa, op: CompressedOp, inst: bv64, s: State): State {
    var rd, rs2 := RdAt(inst), CRs2At(inst);
    var rdq, rs2q := ShortHighAt(inst), ShortLowAt(inst);
    match op
    case CNop => Next(isa, 2, s)
    case CAddi => Writes(isa, s, rd, Wrap(isa, Get(s, rd) + Value(ImmCI(inst))))
    case CAddiw => Writes(isa, s, rd, SignExtend32(isa, Get(s, rd) + Value(ImmCI(inst))))
    case CLi => Writes(isa, s, rd, Wrap(isa, Value(ImmCI(inst))))
    case CLui => Writes(isa, s, rd, Wrap(isa, Value(ImmCLui(inst))))
    case CAddi16sp => Writes(isa, s, 2, Wrap(isa, Get(s, 2) + Value(ImmC16sp(inst))))
    case CAddi4spn => Writes(isa, s, rs2q, Wrap(isa, Get(s, 2) + ImmC4spn(inst) as int))
    case CSlli => Writes(isa, s, rd, Shifted(isa, Slli, Get(s, rd), ShiftAmount(isa, false, inst)))
    case CSrli => Writes(isa, s, rdq, Shifted(isa, Srli, Get(s, rdq), ShiftAmount(isa, true, inst)))
    case CSrai => Writes(isa, s, rdq, Shifted(isa, Srai, Get(s, rdq), ShiftAmount(isa, true, inst)))
    case CAndi => Writes(isa, s, rdq, BitAnd(Get(s, rdq), Wrap(isa, Value(ImmCI(inst)))))
    case CSub => Writes(isa, s, rdq, Wrap(isa, Get(s, rdq) - Get(s, rs2q)))
    case CSubw => Writes(isa, s, rdq, SignExtend32(isa, Get(s, rdq) - Get(s, rs2q)))
    case CAddw => Writes(isa, s, rdq, SignExtend32(isa, Get(s, rdq) + Get(s, rs2q)))
    case CXor => Writes(isa, s, rdq, BitXor(Get(s, rdq), Get(s, rs2q)))
    case COr => Writes(isa, s, rdq, BitOr(Get(s, rdq), Get(s, rs2q)))
    case CAnd => Writes(isa, s, rdq, BitAnd(Get(s, rdq), Get(s, rs2q)))
    case CMv => Writes(isa, s, rd, Get(s, rs2))
    case CAdd => Writes(isa, s, rd, Wrap(isa, Get(s, rd) + Get(s, rs2)))
    case CJ => Jump(s, Wrap(isa, s.pc + Value(ImmCJ(inst))))
    case CJal => Jump(Set(s, 1, Wrap(isa, s.pc + 2)), Wrap(isa, s.pc + Value(ImmCJ(inst))))
    case CJr => Jump(s, ClearBit0(Get(s, rd)))
    case CJalr => Jump(Set(s, 1, Wrap(isa, s.pc + 2)), ClearBit0(Get(s, rd)))
    case CBeqz => BranchIf(isa, 2, s, Get(s, rdq) == 0, ImmCB(inst))
    case CBnez => BranchIf(isa, 2, s, Get(s, rdq) != 0, ImmCB(inst))
    case CEbreak => Break(s)
    case _ => s
  }

  /** One register written, and on to the next instruction. */
  function Writes(isa: Isa, s: State, rd: bv8, value: nat): State {
    Next(isa, 2, Set(s, rd, value))
  }

  function ShortOperands(op: CompressedOp, inst: bv64): Operands {
    ShortOperandsOf(CompressedCodec(op), inst, NO_OPERANDS)
  }

  /** The instruction that a compressed one expands to has its effect, but is two bytes long. */
  predicate ExpansionDoesTheSame(isa: Isa, op: CompressedOp, inst: bv64, s: State) {
    Execute(isa, 2, ExpansionOf(op), ShortOperands(op, inst), s) == Some(ShortEffect(isa, op, inst, s))
  }

  // ----- facts about registers and offsets

  lemma ZeroRegister(s: State)
    ensures Get(s, 0) == 0
    ensures forall value: nat :: Set(s, 0, value) == s
  {}

  lemma ZeroStep(isa: Isa, s: State, r: bv8)
    requires Valid(isa, s)
    ensures Wrap(isa, Get(s, r) + Value(0)) == Get(s, r)
  {
    RegistersBounded(isa, s, r);
    WrapIdentity(isa, Get(s, r));
    ImmediateValues(0);
  }

  lemma SmallValue(imm: bv32)
    requires imm < 1024
    ensures Value(imm) == imm as int
  {}

  /** Offsets are small, so the signed immediate of the expansion is the unsigned offset. */
  lemma OffsetValues(inst: bv64)
    ensures Value(ImmCW(inst)) == ImmCW(inst) as int && Value(ImmCD(inst)) == ImmCD(inst) as int
    ensures Value(ImmCQ(inst)) == ImmCQ(inst) as int && Value(ImmC4spn(inst)) == ImmC4spn(inst) as int
    ensures Value(ImmCLwsp(inst)) == ImmCLwsp(inst) as int && Value(ImmCSwsp(inst)) == ImmCSwsp(inst) as int
    ensures Value(ImmCLdsp(inst)) == ImmCLdsp(inst) as int && Value(ImmCSdsp(inst)) == ImmCSdsp(inst) as int
    ensures Value(ImmCLqsp(inst)) == ImmCLqsp(inst) as int && Value(ImmCSqsp(inst)) == ImmCSqsp(inst) as int
  {
    UnsignedImmediates(inst);
    SmallValue(ImmCW(inst));
    SmallValue(ImmCD(inst));
    SmallValue(ImmCQ(inst));
    SmallValue(ImmC4spn(inst));
    SmallValue(ImmCLwsp(inst));
    SmallValue(ImmCSwsp(inst));
    SmallValue(ImmCLdsp(inst));
    SmallValue(ImmCSdsp(inst));
    SmallValue(ImmCLqsp(inst));
    SmallValue(ImmCSqsp(inst));
  }

  /** A shift amount is below 64, and 32 or more exactly when bit 12 is set. */
  lemma ShiftAmounts(inst: bv64)
    ensures Value(ImmCSh6(inst)) == ImmCSh6(inst) as int < 64
    ensures TopShiftBit(inst) <==> ImmCSh6(inst) as int >= 32
  {}

  // ----- what the compressed codecs read, the fields they do not read being zero

  lemma ReadsLoad(codec: Codec, inst: bv64)
    requires codec.CodecCLLw? || codec.CodecCLLd? || codec.CodecCLLq?
    ensures ShortOperandsOf(codec, inst, NO_OPERANDS) == NO_OPERANDS.(
      rd := ShortLowAt(inst), rs1 := ShortHighAt(inst),
      imm := 
        if codec.CodecCLLw? then ImmCW(inst) else if codec.CodecCLLd? then ImmCD(inst) else ImmCQ(inst))
  {
    hide ImmC4spn, ImmCW, ImmCD, ImmCQ, ImmCLwsp, ImmCLdsp, ImmCLqsp, ImmCSwsp, ImmCSdsp, ImmCSqsp;
  }

  lemma ReadsStackLoad(codec: Codec, inst: bv64)
    requires codec.CodecCILwsp? || codec.CodecCILdsp? || codec.CodecCILqsp?
    ensures ShortOperandsOf(codec, inst, NO_OPERANDS) == NO_OPERANDS.(
      rd := RdAt(inst), rs1 := 2,
      imm := 
        if codec.CodecCILwsp? then ImmCLwsp(inst) else if codec.CodecCILdsp? then ImmCLdsp(inst) else ImmCLqsp(inst))
  {
  }

  lemma ReadsConstant(codec: Codec, inst: bv64)
    requires codec.CodecCILi? || codec.CodecCILui?
    ensures ShortOperandsOf(codec, inst, NO_OPERANDS) == NO_OPERANDS.(
      rd := RdAt(inst),
      imm := if codec.CodecCILi? then ImmCI(inst) else ImmCLui(inst))
  {
  }

  lemma ReadsAddition(codec: Codec, inst: bv64)
    requires codec.CodecCI? || codec.CodecCISh6?
    ensures ShortOperandsOf(codec, inst, NO_OPERANDS) == NO_OPERANDS.(
      rd := RdAt(inst), rs1 := RdAt(inst),
      imm := if codec.CodecCI? then ImmCI(inst) else ImmCSh6(inst))
  {
  }

  lemma ReadsStackAddition(codec: Codec, inst: bv64)
    requires codec.CodecCI16sp? || codec.CodecCIW4spn?
    ensures ShortOperandsOf(codec, inst, NO_OPERANDS) == NO_OPERANDS.(
      rd := if codec.CodecCI16sp? then 2 else ShortLowAt(inst), rs1 := 2,
      imm := if codec.CodecCI16sp? then ImmC16sp(inst) else ImmC4spn(inst))
  {
  }

  lemma ReadsShort(codec: Codec, inst: bv64)
    requires codec.CodecCBSh6? || codec.CodecCBImm?
    ensures ShortOperandsOf(codec, inst, NO_OPERANDS) == NO_OPERANDS.(
      rd := ShortHighAt(inst), rs1 := ShortHighAt(inst),
      imm := if codec.CodecCBSh6? then ImmCSh6(inst) else ImmCI(inst))
  {
  }

  lemma ReadsJump(codec: Codec, inst: bv64)
    requires codec.CodecCJ? || codec.CodecCJJal?
    ensures ShortOperandsOf(codec, inst, NO_OPERANDS) == NO_OPERANDS.(
      rd := if codec.CodecCJJal? then 1 else 0,
      imm := ImmCJ(inst))
  {
  }

  lemma ReadsWordStore(inst: bv64)
    ensures ShortOperandsOf(CodecCSSw, inst, NO_OPERANDS) ==
      NO_OPERANDS.(rs1 := ShortHighAt(inst), rs2 := ShortLowAt(inst), imm := ImmCW(inst))
  {
  }

  lemma ReadsDoubleStore(inst: bv64)
    ensures ShortOperandsOf(CodecCSSd, inst, NO_OPERANDS) ==
      NO_OPERANDS.(rs1 := ShortHighAt(inst), rs2 := ShortLowAt(inst), imm := ImmCD(inst))
  {
  }

  lemma ReadsQuadStore(inst: bv64)
    ensures ShortOperandsOf(CodecCSSq, inst, NO_OPERANDS) ==
      NO_OPERANDS.(rs1 := ShortHighAt(inst), rs2 := ShortLowAt(inst), imm := ImmCQ(inst))
  {
  }

  lemma ReadsWordStackStore(inst: bv64)
    ensures ShortOperandsOf(CodecCSSSwsp, inst, NO_OPERANDS) ==
      NO_OPERANDS.(rs1 := 2, rs2 := CRs2At(inst), imm := ImmCSwsp(inst))
  {
  }

  lemma ReadsDoubleStackStore(inst: bv64)
    ensures ShortOperandsOf(CodecCSSSdsp, inst, NO_OPERANDS) ==
      NO_OPERANDS.(rs1 := 2, rs2 := CRs2At(inst), imm := ImmCSdsp(inst))
  {
  }

  lemma ReadsQuadStackStore(inst: bv64)
    ensures ShortOperandsOf(CodecCSSSqsp, inst, NO_OPERANDS) ==
      NO_OPERANDS.(rs1 := 2, rs2 := CRs2At(inst), imm := ImmCSqsp(inst))
  {
  }

  lemma ReadsNothing(inst: bv64)
    ensures ShortOperandsOf(CodecCINone, inst, NO_OPERANDS) == NO_OPERANDS
  {
  }

  lemma ReadsShortRegisters(inst: bv64)
    ensures ShortOperandsOf(CodecCS, inst, NO_OPERANDS) ==
      NO_OPERANDS.(rd := ShortHighAt(inst), rs1 := ShortHighAt(inst), rs2 := ShortLowAt(inst))
  {
  }

  lemma ReadsRegisters(inst: bv64)
    ensures ShortOperandsOf(CodecCR, inst, NO_OPERANDS) ==
      NO_OPERANDS.(rd := RdAt(inst), rs1 := RdAt(inst), rs2 := CRs2At(inst))
  {
  }

  lemma ReadsMove(inst: bv64)
    ensures ShortOperandsOf(CodecCRMv, inst, NO_OPERANDS) == NO_OPERANDS.(rd := RdAt(inst), rs1 := CRs2At(inst))
  {
  }

  lemma ReadsRegisterJump(inst: bv64)
    ensures ShortOperandsOf(CodecCRJr, inst, NO_OPERANDS) == NO_OPERANDS.(rs1 := RdAt(inst))
  {
  }

  lemma ReadsRegisterCall(inst: bv64)
    ensures ShortOperandsOf(CodecCRJalr, inst, NO_OPERANDS) == NO_OPERANDS.(rd := 1, rs1 := RdAt(inst))
  {
  }

  lemma ReadsBranch(inst: bv64)
    ensures ShortOperandsOf(CodecCB, inst, NO_OPERANDS) == NO_OPERANDS.(rs1 := ShortHighAt(inst), imm := ImmCB(inst))
  {
  }

  // ----- one family of instructions at a time

  /** The words whose shift amount chapter 16 sign-extends to 96 or more, and the source does not. */
  predicate LosesShiftSign(isa: Isa, op: CompressedOp, inst: bv64) {
    isa == Rv128 && (op.CSrli? || op.CSrai?) && TopShiftBit(inst)
  }

  predicate IsLoad(op: WideOp) { op.Load? || op.FLoad? }

  /** The operands that a 32-bit load or store has for an access. */
  function AccessOperands(access: Access): Operands {
    if IsLoad(access.transfer) then
      NO_OPERANDS.(rd := access.register, rs1 := access.base, imm := access.offset)
    else
      NO_OPERANDS.(rs1 := access.base, rs2 := access.register, imm := access.offset)
  }

  /** The codec reads the operands of the access. */
  predicate OperandsMatch(op: CompressedOp, inst: bv64) {
    ShortOperands(op, inst) == AccessOperands(AccessOf(op, inst))
  }

  /** The expansion makes the access, with a signed immediate that is the unsigned offset. */
  predicate TransferMatches(op: CompressedOp, inst: bv64) {
    var access := AccessOf(op, inst);
    && ExpansionOf(op) == access.transfer
    && (IsLoad(access.transfer) || access.transfer.Store? || access.transfer.FStore?)
    && Value(access.offset) == access.offset as int
  }

  lemma AccessesTransfer(op: CompressedOp, inst: bv64)
    requires op.CLw? || op.CFlw? || op.CLd? || op.CFld? || op.CSw? || op.CFsw? || op.CSd? || op.CFsd?
    ensures TransferMatches(op, inst)
  {
    hide ShortOperandsOf, CompressedCodec, Value;
    hide ImmCI, ImmC16sp, ImmCJ, ImmCB, ImmCLui, ImmCSh5, ImmCSh6, RdAt, CRs2At, ShortLowAt, ShortHighAt;
    hide ImmC4spn, ImmCW, ImmCD, ImmCQ, ImmCLwsp, ImmCLdsp, ImmCLqsp, ImmCSwsp, ImmCSdsp, ImmCSqsp;
    OffsetValues(inst);
  }

  lemma WordStackLoadsTransfer(op: CompressedOp, inst: bv64)
    requires op.CLwsp? || op.CFlwsp?
    ensures TransferMatches(op, inst)
  {
    hide ImmC4spn, ImmCW, ImmCD, ImmCQ, ImmCLwsp, ImmCLdsp, ImmCLqsp, ImmCSwsp, ImmCSdsp, ImmCSqsp;
    OffsetValues(inst);
  }

  lemma DoubleStackLoadsTransfer(op: CompressedOp, inst: bv64)
    requires op.CLdsp? || op.CFldsp?
    ensures TransferMatches(op, inst)
  {
    hide ShortOperandsOf, CompressedCodec, Value;
    hide ImmCI, ImmC16sp, ImmCJ, ImmCB, ImmCLui, ImmCSh5, ImmCSh6, RdAt, CRs2At, ShortLowAt, ShortHighAt;
    hide ImmC4spn, ImmCW, ImmCD, ImmCQ, ImmCLwsp, ImmCLdsp, ImmCLqsp, ImmCSwsp, ImmCSdsp, ImmCSqsp;
    OffsetValues(inst);
  }

  lemma WordStackStoresTransfer(op: CompressedOp, inst: bv64)
    requires op.CSwsp? || op.CFswsp?
    ensures TransferMatches(op, inst)
  {
    hide ShortOperandsOf, CompressedCodec, Value;
    hide ImmCI, ImmC16sp, ImmCJ, ImmCB, ImmCLui, ImmCSh5, ImmCSh6, RdAt, CRs2At, ShortLowAt, ShortHighAt;
    hide ImmC4spn, ImmCW, ImmCD, ImmCQ, ImmCLwsp, ImmCLdsp, ImmCLqsp, ImmCSwsp, ImmCSdsp, ImmCSqsp;
    OffsetValues(inst);
  }

  lemma DoubleStackStoresTransfer(op: CompressedOp, inst: bv64)
    requires op.CSdsp? || op.CFsdsp?
    ensures TransferMatches(op, inst)
  {
    hide ShortOperandsOf, CompressedCodec, Value;
    hide ImmCI, ImmC16sp, ImmCJ, ImmCB, ImmCLui, ImmCSh5, ImmCSh6, RdAt, CRs2At, ShortLowAt, ShortHighAt;
    hide ImmC4spn, ImmCW, ImmCD, ImmCQ, ImmCLwsp, ImmCLdsp, ImmCLqsp, ImmCSwsp, ImmCSdsp, ImmCSqsp;
    OffsetValues(inst);
  }

  lemma QuadLoadTransfers(op: CompressedOp, inst: bv64)
    requires op.CLq?
    ensures TransferMatches(op, inst)
  {
    OffsetValues(inst);
  }

  lemma QuadStoreTransfers(op: CompressedOp, inst: bv64)
    requires op.CSq?
    ensures TransferMatches(op, inst)
  {
    OffsetValues(inst);
  }

  lemma QuadStackLoadTransfers(op: CompressedOp, inst: bv64)
    requires op.CLqsp?
    ensures TransferMatches(op, inst)
  {
    hide ShortOperandsOf, CompressedCodec, Value;
    hide ImmCI, ImmC16sp, ImmCJ, ImmCB, ImmCLui, ImmCSh5, ImmCSh6, RdAt, CRs2At, ShortLowAt, ShortHighAt;
    OffsetValues(inst);
  }

  lemma QuadStackStoreTransfers(op: CompressedOp, inst: bv64)
    requires op.CSqsp?
    ensures TransferMatches(op, inst)
  {
    hide ShortOperandsOf, CompressedCodec, Value;
    hide ImmCI, ImmC16sp, ImmCJ, ImmCB, ImmCLui, ImmCSh5, ImmCSh6, RdAt, CRs2At, ShortLowAt, ShortHighAt;
    OffsetValues(inst);
  }

  lemma NarrowLoadsMatch(op: CompressedOp, inst: bv64)
    requires op.CLw? || op.CFlw?
    ensures OperandsMatch(op, inst)
  {
    ReadsLoad(CodecCLLw, inst);
  }

  lemma DoubleLoadsMatch(op: CompressedOp, inst: bv64)
    requires op.CLd? || op.CFld?
    ensures OperandsMatch(op, inst)
  {
    ReadsLoad(CodecCLLd, inst);
  }

  lemma NarrowStoresMatch(op: CompressedOp, inst: bv64)
    requires op.CSw? || op.CFsw?
    ensures OperandsMatch(op, inst)
  {
    ReadsWordStore(inst);
  }

  lemma DoubleStoresMatch(op: CompressedOp, inst: bv64)
    requires op.CSd? || op.CFsd?
    ensures OperandsMatch(op, inst)
  {
    ReadsDoubleStore(inst);
  }

  lemma QuadLoadMatches(op: CompressedOp, inst: bv64)
    requires op.CLq?
    ensures OperandsMatch(op, inst)
  {
    hide ShortOperandsOf, ExpansionOf;
    ReadsLoad(CodecCLLq, inst);
  }

  lemma QuadStoreMatches(op: CompressedOp, inst: bv64)
    requires op.CSq?
    ensures OperandsMatch(op, inst)
  {
    ReadsQuadStore(inst);
  }

  lemma NarrowStackLoadsMatch(op: CompressedOp, inst: bv64)
    requires op.CLwsp? || op.CFlwsp?
    ensures OperandsMatch(op, inst)
  {
    hide ShortOperandsOf, ExpansionOf;
    ReadsStackLoad(CodecCILwsp, inst);
  }

  lemma DoubleStackLoadsMatch(op: CompressedOp, inst: bv64)
    requires op.CLdsp? || op.CFldsp?
    ensures OperandsMatch(op, inst)
  {
    hide ShortOperandsOf, ExpansionOf;
    ReadsStackLoad(CodecCILdsp, inst);
  }

  lemma NarrowStackStoresMatch(op: CompressedOp, inst: bv64)
    requires op.CSwsp? || op.CFswsp?
    ensures OperandsMatch(op, inst)
  {
    hide ShortOperandsOf, ExpansionOf;
    ReadsWordStackStore(inst);
  }

  lemma DoubleStackStoresMatch(op: CompressedOp, inst: bv64)
    requires op.CSdsp? || op.CFsdsp?
    ensures OperandsMatch(op, inst)
  {
    hide ShortOperandsOf, ExpansionOf;
    ReadsDoubleStackStore(inst);
  }

  lemma QuadStackLoadMatches(op: CompressedOp, inst: bv64)
    requires op.CLqsp?
    ensures OperandsMatch(op, inst)
  {
    hide ShortOperandsOf, ExpansionOf;
    ReadsStackLoad(CodecCILqsp, inst);
  }

  lemma QuadStackStoreMatches(op: CompressedOp, inst: bv64)
    requires op.CSqsp?
    ensures OperandsMatch(op, inst)
  {
    ReadsQuadStackStore(inst);
  }

  lemma ConstantsDoTheSame(isa: Isa, op: CompressedOp, inst: bv64, s: State)
    requires op.CNop? || op.CLi?
    ensures ExpansionDoesTheSame(isa, op, inst, s)
  {
    hide ShortOperandsOf, AccessOf, Accessed;
    hide Get, Set, Next, Jump, BranchIf, Wrap, SignExtend32, Value, BitXor, BitAnd, BitOr, Shifted, Modulus, Valid;
    hide LoadInto, FloatLoadInto, StoreFrom, FloatStoreFrom, GetFloat, TopShiftBit;
    ReadsNothing(inst);
    ReadsConstant(CodecCILi, inst);
    ZeroRegister(s);
    ImmediateValues(0);
  }

  lemma UpperConstantDoesTheSame(isa: Isa, op: CompressedOp, inst: bv64, s: State)
    requires op.CLui? || op.CEbreak?
    ensures ExpansionDoesTheSame(isa, op, inst, s)
  {
    hide ShortOperandsOf, AccessOf, Accessed;
    hide Get, Set, Next, Jump, BranchIf, Wrap, SignExtend32, Value, BitXor, BitAnd, BitOr, Shifted, Modulus, Valid;
    hide LoadInto, FloatLoadInto, StoreFrom, FloatStoreFrom, GetFloat, TopShiftBit;
    hide ImmCI, ImmC16sp, ImmCJ, ImmCB, ImmCLui, ImmCSh5, ImmCSh6, RdAt, CRs2At, ShortLowAt, ShortHighAt;
    hide ImmC4spn, ImmCW, ImmCD, ImmCQ, ImmCLwsp, ImmCLdsp, ImmCLqsp, ImmCSwsp, ImmCSdsp, ImmCSqsp;
    ReadsNothing(inst);
    ReadsConstant(CodecCILui, inst);
    ZeroRegister(s);
    ImmediateValues(0);
  }

  lemma AdditionsDoTheSame(isa: Isa, op: CompressedOp, inst: bv64, s: State)
    requires op.CAddi? || op.CAddiw?
    ensures ExpansionDoesTheSame(isa, op, inst, s)
  {
    hide ShortOperandsOf, AccessOf, Accessed;
    hide Get, Set, Next, Jump, BranchIf, Wrap, SignExtend32, Value, BitXor, BitAnd, BitOr, Shifted, Modulus, Valid;
    hide LoadInto, FloatLoadInto, StoreFrom, FloatStoreFrom, GetFloat, TopShiftBit;
    hide ImmCI, ImmC16sp, ImmCJ, ImmCB, ImmCLui, ImmCSh5, ImmCSh6, RdAt, CRs2At, ShortLowAt, ShortHighAt;
    hide ImmC4spn, ImmCW, ImmCD, ImmCQ, ImmCLwsp, ImmCLdsp, ImmCLqsp, ImmCSwsp, ImmCSdsp, ImmCSqsp;
    ReadsAddition(CodecCI, inst);
  }

  lemma StackAdditionDoesTheSame(isa: Isa, op: CompressedOp, inst: bv64, s: State)
    requires op.CAddi16sp?
    ensures ExpansionDoesTheSame(isa, op, inst, s)
  {
    hide ShortOperandsOf, AccessOf, Accessed;
    hide Get, Set, Next, Jump, BranchIf, Wrap, SignExtend32, Value, BitXor, BitAnd, BitOr, Shifted, Modulus, Valid;
    ReadsStackAddition(CodecCI16sp, inst);
  }

  lemma StackOffsetDoesTheSame(isa: Isa, op: CompressedOp, inst: bv64, s: State)
    requires op.CAddi4spn?
    ensures ExpansionDoesTheSame(isa, op, inst, s)
  {
    hide ShortOperandsOf, AccessOf, Accessed;
    hide Get, Set, Next, Jump, BranchIf, Wrap, SignExtend32, Value, BitXor, BitAnd, BitOr, Shifted, Modulus, Valid;
    hide ImmC4spn, ImmCW, ImmCD, ImmCQ, ImmCLwsp, ImmCLdsp, ImmCLqsp, ImmCSwsp, ImmCSdsp, ImmCSqsp;
    ReadsStackAddition(CodecCIW4spn, inst);
    OffsetValues(inst);
  }

  lemma LeftShiftAmount(isa: Isa, inst: bv64)
    requires ImmCSh6(inst) != 0
    ensures ShiftAmount(isa, false, inst) == Value(ImmCSh6(inst))
  {
    ShiftAmounts(inst);
  }

  lemma LeftShiftDoesTheSame(isa: Isa, inst: bv64, s: State)
    requires ShortOperands(CSlli, inst).imm != 0
    ensures ExpansionDoesTheSame(isa, CSlli, inst, s)
  {
    hide ShortOperandsOf, AccessOf, Accessed;
    hide Get, Set, Next, Jump, BranchIf, Wrap, SignExtend32, Value, BitXor, BitAnd, BitOr, Shifted, Modulus, Valid;
    hide ImmCI, ImmC16sp, ImmCJ, ImmCB, ImmCLui, ImmCSh5, ImmCSh6, RdAt, CRs2At, ShortLowAt, ShortHighAt;
    ReadsAddition(CodecCISh6, inst);
    LeftShiftAmount(isa, inst);
  }

  lemma LogicalShiftDoesTheSame(isa: Isa, op: CompressedOp, inst: bv64, s: State)
    requires op.CSrli?
    requires ShortOperands(op, inst).imm != 0 && !LosesShiftSign(isa, op, inst)
    ensures ExpansionDoesTheSame(isa, op, inst, s)
  {
    hide ShortOperandsOf, AccessOf, Accessed;
    hide Get, Set, Next, Jump, BranchIf, Wrap, SignExtend32, Value, BitXor, BitAnd, BitOr, Shifted, Modulus, Valid;
    hide ImmC4spn, ImmCW, ImmCD, ImmCQ, ImmCLwsp, ImmCLdsp, ImmCLqsp, ImmCSwsp, ImmCSdsp, ImmCSqsp;
    ReadsShort(CodecCBSh6, inst);
    ShiftAmounts(inst);
  }

  lemma ArithmeticShiftDoesTheSame(isa: Isa, op: CompressedOp, inst: bv64, s: State)
    requires op.CSrai?
    requires ShortOperands(op, inst).imm != 0 && !LosesShiftSign(isa, op, inst)
    ensures ExpansionDoesTheSame(isa, op, inst, s)
  {
    hide ShortOperandsOf, AccessOf, Accessed;
    hide Get, Set, Next, Jump, BranchIf, Wrap, SignExtend32, Value, BitXor, BitAnd, BitOr, Shifted, Modulus, Valid;
    ReadsShort(CodecCBSh6, inst);
    ShiftAmounts(inst);
  }

  lemma SubtractionsDoTheSame(isa: Isa, op: CompressedOp, inst: bv64, s: State)
    requires op.CSub? || op.CSubw?
    ensures ExpansionDoesTheSame(isa, op, inst, s)
  {
    hide Get, Set, Next, Jump, BranchIf, Wrap, SignExtend32, Value, BitXor, BitAnd, BitOr, Shifted, Modulus, Valid;
    ReadsShortRegisters(inst);
  }

  lemma RegisterAdditionDoesTheSame(isa: Isa, inst: bv64, s: State)
    ensures ExpansionDoesTheSame(isa, CAdd, inst, s)
  {
    hide Get, Set, Next, Jump, BranchIf, Wrap, SignExtend32, Value, BitXor, BitAnd, BitOr, Shifted, Modulus, Valid;
    ReadsRegisters(inst);
  }

  lemma WordAdditionDoesTheSame(isa: Isa, inst: bv64, s: State)
    ensures ExpansionDoesTheSame(isa, CAddw, inst, s)
  {
    hide Get, Set, Next, Jump, BranchIf, Wrap, SignExtend32, Value, BitXor, BitAnd, BitOr, Shifted, Modulus, Valid;
    ReadsShortRegisters(inst);
  }

  lemma LogicOpsDoTheSame(isa: Isa, op: CompressedOp, inst: bv64, s: State)
    requires op.CXor? || op.COr?
    ensures ExpansionDoesTheSame(isa, op, inst, s)
  {
    hide ShortOperandsOf, AccessOf, Accessed;
    hide Get, Set, Next, Jump, BranchIf, Wrap, SignExtend32, Value, BitXor, BitAnd, BitOr, Shifted, Modulus, Valid;
    ReadsShortRegisters(inst);
  }

  lemma AndDoesTheSame(isa: Isa, inst: bv64, s: State)
    ensures ExpansionDoesTheSame(isa, CAnd, inst, s)
  {
    hide Get, Set, Next, Jump, BranchIf, Wrap, SignExtend32, Value, BitXor, BitAnd, BitOr, Shifted, Modulus, Valid;
    ReadsShortRegisters(inst);
  }

  lemma AndImmDoesTheSame(isa: Isa, inst: bv64, s: State)
    ensures ExpansionDoesTheSame(isa, CAndi, inst, s)
  {
    hide Get, Set, Next, Jump, BranchIf, Wrap, SignExtend32, Value, BitXor, BitAnd, BitOr, Shifted, Modulus, Valid;
    ReadsShort(CodecCBImm, inst);
  }

  lemma MoveDoesTheSame(isa: Isa, op: CompressedOp, inst: bv64, s: State)
    requires op.CMv?
    requires Valid(isa, s)
    ensures ExpansionDoesTheSame(isa, op, inst, s)
  {
    hide Get, Set, Next, Jump, BranchIf, Wrap, SignExtend32, Value, BitXor, BitAnd, BitOr, Shifted, Modulus, Valid;
    ReadsMove(inst);
    ZeroStep(isa, s, CRs2At(inst));
  }

  lemma RegisterJumpDoesTheSame(isa: Isa, op: CompressedOp, inst: bv64, s: State)
    requires op.CJr?
    requires Valid(isa, s)
    ensures ExpansionDoesTheSame(isa, op, inst, s)
  {
    hide Get, Set, Next, Jump, BranchIf, Wrap, SignExtend32, Value, BitXor, BitAnd, BitOr, Shifted, Modulus, Valid;
    ReadsRegisterJump(inst);
    ZeroRegister(s);
    ZeroStep(isa, s, RdAt(inst));
  }

  lemma RegisterCallDoesTheSame(isa: Isa, op: CompressedOp, inst: bv64, s: State)
    requires op.CJalr?
    requires Valid(isa, s)
    ensures ExpansionDoesTheSame(isa, op, inst, s)
  {
    hide Get, Set, Next, Jump, BranchIf, Wrap, SignExtend32, Value, BitXor, BitAnd, BitOr, Shifted, Modulus, Valid;
    ReadsRegisterCall(inst);
    ZeroStep(isa, s, RdAt(inst));
  }

  lemma JumpsDoTheSame(isa: Isa, op: CompressedOp, inst: bv64, s: State)
    requires op.CJ? || op.CJal?
    ensures ExpansionDoesTheSame(isa, op, inst, s)
  {
    hide ShortOperandsOf, AccessOf, Accessed;
    hide Get, Set, Next, Jump, BranchIf, Wrap, SignExtend32, Value, BitXor, BitAnd, BitOr, Shifted, Modulus, Valid;
    hide LoadInto, FloatLoadInto, StoreFrom, FloatStoreFrom, GetFloat, TopShiftBit;
    hide ImmCI, ImmC16sp, ImmCJ, ImmCB, ImmCLui, ImmCSh5, ImmCSh6, RdAt, CRs2At, ShortLowAt, ShortHighAt;
    hide ImmC4spn, ImmCW, ImmCD, ImmCQ, ImmCLwsp, ImmCLdsp, ImmCLqsp, ImmCSwsp, ImmCSdsp, ImmCSqsp;
    ReadsJump(CodecCJ, inst);
    ReadsJump(CodecCJJal, inst);
    ZeroRegister(s);
  }

  lemma BranchesDoTheSame(isa: Isa, op: CompressedOp, inst: bv64, s: State)
    requires op.CBeqz? || op.CBnez?
    ensures ExpansionDoesTheSame(isa, op, inst, s)
  {
    hide ShortOperandsOf, AccessOf, Accessed;
    hide Get, Set, Next, Jump, BranchIf, Wrap, SignExtend32, Value, BitXor, BitAnd, BitOr, Shifted, Modulus, Valid;
    hide ImmCI, ImmC16sp, ImmCJ, ImmCB, ImmCLui, ImmCSh5, ImmCSh6, RdAt, CRs2At, ShortLowAt, ShortHighAt;
    ReadsBranch(inst);
    ZeroRegister(s);
  }

  lemma AccessOperandsMatch(op: CompressedOp, inst: bv64)
    requires IsAccess(op)
    ensures OperandsMatch(op, inst)
  {
    if op.CLw? || op.CFlw? {
      NarrowLoadsMatch(op, inst);
    } else if op.CLd? || op.CFld? {
      DoubleLoadsMatch(op, inst);
    } else if op.CSw? || op.CFsw? {
      NarrowStoresMatch(op, inst);
    } else if op.CSd? || op.CFsd? {
      DoubleStoresMatch(op, inst);
    } else if op.CLq? {
      QuadLoadMatches(op, inst);
    } else if op.CSq? {
      QuadStoreMatches(op, inst);
    } else if op.CLwsp? || op.CFlwsp? {
      NarrowStackLoadsMatch(op, inst);
    } else if op.CLdsp? || op.CFldsp? {
      DoubleStackLoadsMatch(op, inst);
    } else if op.CSwsp? || op.CFswsp? {
      NarrowStackStoresMatch(op, inst);
    } else if op.CSdsp? || op.CFsdsp? {
      DoubleStackStoresMatch(op, inst);
    } else if op.CLqsp? {
      QuadStackLoadMatches(op, inst);
    } else {
      QuadStackStoreMatches(op, inst);
    }
  }

  lemma AccessTransfersMatch(op: CompressedOp, inst: bv64)
    requires IsAccess(op)
    ensures TransferMatches(op, inst)
  {
    if op.CLw? || op.CFlw? || op.CLd? || op.CFld? || op.CSw? || op.CFsw? || op.CSd? || op.CFsd? {
      AccessesTransfer(op, inst);
    } else if op.CLwsp? || op.CFlwsp? {
      WordStackLoadsTransfer(op, inst);
    } else if op.CLdsp? || op.CFldsp? {
      DoubleStackLoadsTransfer(op, inst);
    } else if op.CSwsp? || op.CFswsp? {
      WordStackStoresTransfer(op, inst);
    } else if op.CSdsp? || op.CFsdsp? {
      DoubleStackStoresTransfer(op, inst);
    } else if op.CLq? {
      QuadLoadTransfers(op, inst);
    } else if op.CSq? {
      QuadStoreTransfers(op, inst);
    } else if op.CLqsp? {
      QuadStackLoadTransfers(op, inst);
    } else {
      QuadStackStoreTransfers(op, inst);
    }
  }

  lemma AccessesDoTheSame(isa: Isa, op: CompressedOp, inst: bv64, s: State)
    requires IsAccess(op)
    ensures ExpansionDoesTheSame(isa, op, inst, s)
  {
    hide AccessOf, ShortOperands, ExpansionOf, IsAccess, OtherEffect, Value, AluResult;
    hide Get, Set, Next, Jump, BranchIf, Wrap, LoadInto, FloatLoadInto, StoreFrom, FloatStoreFrom, GetFloat, SetFloat;
    AccessOperandsMatch(op, inst);
    AccessTransfersMatch(op, inst);
  }

  lemma OthersDoTheSame(isa: Isa, op: CompressedOp, inst: bv64, s: State)
    requires Valid(isa, s) && !IsAccess(op)
    requires NeedsNonZeroImm(op) ==> ShortOperands(op, inst).imm != 0
    requires !LosesShiftSign(isa, op, inst)
    ensures ExpansionDoesTheSame(isa, op, inst, s)
  {
    if op.CNop? || op.CLi? {
      ConstantsDoTheSame(isa, op, inst, s);
    } else if op.CLui? || op.CEbreak? {
      UpperConstantDoesTheSame(isa, op, inst, s);
    } else if op.CAddi? || op.CAddiw? {
      AdditionsDoTheSame(isa, op, inst, s);
    } else if op.CAddi16sp? {
      StackAdditionDoesTheSame(isa, op, inst, s);
    } else if op.CAddi4spn? {
      StackOffsetDoesTheSame(isa, op, inst, s);
    } else if op.CSlli? {
      LeftShiftDoesTheSame(isa, inst, s);
    } else if op.CSrli? {
      LogicalShiftDoesTheSame(isa, op, inst, s);
    } else if op.CSrai? {
      ArithmeticShiftDoesTheSame(isa, op, inst, s);
    } else if op.CSub? || op.CSubw? {
      SubtractionsDoTheSame(isa, op, inst, s);
    } else if op.CAdd? {
      RegisterAdditionDoesTheSame(isa, inst, s);
    } else if op.CAddw? {
      WordAdditionDoesTheSame(isa, inst, s);
    } else if op.CXor? || op.COr? {
      LogicOpsDoTheSame(isa, op, inst, s);
    } else if op.CAnd? {
      AndDoesTheSame(isa, inst, s);
    } else if op.CAndi? {
      AndImmDoesTheSame(isa, inst, s);
    } else if op.CMv? {
      MoveDoesTheSame(isa, op, inst, s);
    } else if op.CJr? {
      RegisterJumpDoesTheSame(isa, op, inst, s);
    } else if op.CJalr? {
      RegisterCallDoesTheSame(isa, op, inst, s);
    } else if op.CJ? || op.CJal? {
      JumpsDoTheSame(isa, op, inst, s);
    } else {
      BranchesDoTheSame(isa, op, inst, s);
    }
  }

  /** Each compressed instruction does what its expansion does, but for the sign of a right shift amount on RV128. */
  lemma ExpansionsDoTheSame(isa: Isa, op: CompressedOp, inst: bv64, s: State)
    requires Valid(isa, s)
    requires NeedsNonZeroImm(op) ==> ShortOperands(op, inst).imm != 0
    requires !LosesShiftSign(isa, op, inst)
    ensures ExpansionDoesTheSame(isa, op, inst, s)
  {
    if IsAccess(op) {
      AccessesDoTheSame(isa, op, inst, s);
    } else {
      OthersDoTheSame(isa, op, inst, s);
    }
  }

  // ----- where the amounts differ, so do the effects

  lemma Halves(k: nat)
    requires k < 127
    ensures 2 * Pow2(k) <= Pow2(127)
  {
    Pow2Grows(k + 1, 127);
    assert Pow2(k + 1) == 2 * Pow2(k);
  }

  lemma SmallPowers(k: nat)
    requires k < 64
    ensures Pow2(k) < Modulus(Rv128) / 2 && SignedValue(Rv128, Pow2(k)) == Pow2(k)
  {
    assert Modulus(Rv128) == 2 * Pow2(127) by { assert Pow2(128) == 2 * Pow2(127); }
    Halves(k);
    PositivePow2(k);
    PositivePow2(127);
  }

  lemma Quotients(k: nat)
    ensures Pow2(k) > 0 && Pow2(k + 64) > Pow2(k)
    ensures Pow2(k) / Pow2(k) == 1 && Pow2(k) / Pow2(k + 64) == 0
  {
    assert Pow2(k + 1) == 2 * Pow2(k);
    PositivePow2(k);
    Pow2Grows(k + 1, k + 64);
    Divisions(Pow2(k), Pow2(k + 64));
  }

  lemma Divisions(p: nat, q: nat)
    requires 0 < p < q
    ensures p / p == 1 && p / q == 0
  {}

  /** Shifting 2^k right by k and by k + 64 gives 1 and 0. */
  lemma ShiftsDiffer(shift: ShiftKind, k: nat)
    requires shift != Slli && k < 64
    ensures Shifted(Rv128, shift, Pow2(k), k) == 1 && Shifted(Rv128, shift, Pow2(k), k + 64) == 0
  {
    ModulusIsLarge(Rv128);
    SmallPowers(k);
    Quotients(k);
    WrapIdentity(Rv128, 0);
    WrapIdentity(Rv128, 1);
  }

  lemma ShiftWitness(r: bv8, k: nat)
    requires 0 < r < 32 && k < 64
    ensures Valid(Rv128, OneRegister(r as int, Pow2(k))) && Get(OneRegister(r as int, Pow2(k)), r) == Pow2(k)
  {
    ModulusIsLarge(Rv128);
    SmallPowers(k);
  }

  lemma WritesDiffer(isa: Isa, s: State, r: bv8, v: nat, w: nat)
    requires |s.x| == 32 && 0 < r < 32 && v != w
    ensures Writes(isa, s, r, v) != Writes(isa, s, r, w)
  {
    assert Writes(isa, s, r, v).x[r as int] == v && Writes(isa, s, r, w).x[r as int] == w;
  }

  /** What the expansion of a compressed right shift does: it shifts by the amount as it stands. */
  lemma RightShiftExpansion(op: CompressedOp, inst: bv64, s: State)
    requires op.CSrli? || op.CSrai?
    ensures var r := ShortHighAt(inst);
      Execute(Rv128, 2, ExpansionOf(op), ShortOperands(op, inst), s) ==
        Some(Writes(Rv128, s, r, Shifted(Rv128, ShiftOf(op), Get(s, r), ImmCSh6(inst) as int)))
  {
    hide ShortOperandsOf, AccessOf, Accessed;
    ReadsShort(CodecCBSh6, inst);
    ShiftAmounts(inst);
  }

  function ShiftOf(op: CompressedOp): ShiftKind { if op.CSrli? then Srli else Srai }

  lemma RightShiftEffect(op: CompressedOp, inst: bv64, s: State)
    requires (op.CSrli? || op.CSrai?) && TopShiftBit(inst)
    ensures var r := ShortHighAt(inst);
      ShortEffect(Rv128, op, inst, s) ==
        Writes(Rv128, s, r, Shifted(Rv128, ShiftOf(op), Get(s, r), ImmCSh6(inst) as int + 64))
  {
    ShiftAmounts(inst);
  }

  lemma ShortHighInRange(inst: bv64)
    ensures 8 <= ShortHighAt(inst) < 16
  {}

  /** On RV128 a right shift with bit 12 set differs from its expansion on the register that holds 2^amount. */
  lemma LostShiftSign(op: CompressedOp, inst: bv64) returns (s: State)
    requires LosesShiftSign(Rv128, op, inst)
    ensures Valid(Rv128, s) && !ExpansionDoesTheSame(Rv128, op, inst, s)
  {
    hide Pow2, Valid, Get, Execute, ShortEffect, ShortOperands, ExpansionOf, Shifted, ImmCSh6, ShortHighAt, Writes;
    var r, k := ShortHighAt(inst), ImmCSh6(inst) as int;
    ShiftAmounts(inst);
    ShortHighInRange(inst);
    s := OneRegister(r as int, Pow2(k));
    ShiftWitness(r, k);
    RightShiftExpansion(op, inst, s);
    RightShiftEffect(op, inst, s);
    ShiftsDiffer(ShiftOf(op), k);
    WritesDiffer(Rv128, s, r, 1, 0);
  }

  // ----- words

  /** The expanded record has the effect of the compressed word on a state. */
  predicate EffectKept(pc: bv64, inst: bv64, isa: Isa, s: State)
    requires Decode(pc, inst, isa).op.Compressed? && Expand(pc, inst, isa).op.Wide?
  {
    var e := Expand(pc, inst, isa);
    Execute(isa, 2, e.op.wide, e.args, s) == Some(ShortEffect(isa, Decode(pc, inst, isa).op.short, inst, s))
  }

  lemma ExpandedRecord(pc: bv64, inst: bv64, isa: Isa)
    requires Decode(pc, inst, isa).op.Compressed? && Expand(pc, inst, isa).op != Illegal
    ensures var op := Decode(pc, inst, isa).op.short;
      && Expand(pc, inst, isa).op == Wide(ExpansionOf(op)) && Expand(pc, inst, isa).args == ShortOperands(op, inst)
      && (NeedsNonZeroImm(op) ==> ShortOperands(op, inst).imm != 0)
  {
    hide CompressedOpOf, WideOpOf, HasExpansion, ExpansionOf, ShortOperandsOf, WideOperandsOf, CompressedCodec;
    ShortCodecs(Decode(pc, inst, isa).op.short);
    SelectedExpands(inst, isa);
  }

  /**
   Expansion preserves the effect: the record that is left after decompression
   does on every valid state what chapter 16 says of the compressed word,
   exactly unless the word is a right shift on RV128 with bit 12 set.
  */
  lemma ExpansionPreservesEffect(pc: bv64, inst: bv64, isa: Isa)
    requires Decode(pc, inst, isa).op.Compressed? && Expand(pc, inst, isa).op != Illegal
    ensures Expand(pc, inst, isa).op.Wide?
    ensures (forall s :: Valid(isa, s) ==> EffectKept(pc, inst, isa, s))
       <==> !LosesShiftSign(isa, Decode(pc, inst, isa).op.short, inst)
  {
    var op := Decode(pc, inst, isa).op.short;
    ExpandedRecord(pc, inst, isa);
    if LosesShiftSign(isa, op, inst) {
      var s := LostShiftSign(op, inst);
      assert !EffectKept(pc, inst, isa, s);
    } else {
      forall s | Valid(isa, s) ensures EffectKept(pc, inst, isa, s) {
        ExpansionsDoTheSame(isa, op, inst, s);
      }
    }
  }

  /** 0x9001 is c.srli x8 by 96 on RV128; the source expands it to a shift by 32. */
  lemma ShiftBy96(pc: bv64)
    ensures Decode(pc, 0x9001, Rv128).op == Compressed(CSrli) && ShiftAmount(Rv128, true, 0x9001) == 96
    ensures Expand(pc, 0x9001, Rv128).op == Wide(ShiftImm(Srli, Full)) && Expand(pc, 0x9001, Rv128).args.imm == 32
    ensures LosesShiftSign(Rv128, CSrli, 0x9001)
  {
    assert OpcodeOf(0x9001, Rv128) == Compressed(CSrli);
    assert ImmCSh6(0x9001) == 32 && TopShiftBit(0x9001);
    DecodedShift(pc, 0x9001, Rv128, CSrli);
  }

  lemma DecodedShift(pc: bv64, inst: bv64, isa: Isa, op: CompressedOp)
    requires OpcodeOf(inst, isa) == Compressed(op) && (op.CSrli? || op.CSrai?) && ImmCSh6(inst) != 0
    ensures Decode(pc, inst, isa).op == Compressed(op)
    ensures Expand(pc, inst, isa).op == Wide(ShiftImm(ShiftOf(op), Full))
    ensures Expand(pc, inst, isa).args.imm == ImmCSh6(inst)
  {
    hide OpcodeOf, ImmCSh6, ShortOperandsOf, WideOperandsOf, ShortHighAt;
    ReadsShort(CodecCBSh6, inst);
  }
}
