/**
 Decompression preserves meaning: a compressed instruction becomes a 32-bit
 instruction whose own encoding decodes to the same record.
*/
module Compression {
  import opened Opcodes
  import opened OpcodeDecoder
  import opened Encodings
  import opened Immediates
  import opened Operands
  import opened Decoding

  /** The isa branches of the opcode switch agree with the per-isa decompression columns. */
  lemma SelectedExpands(inst: bv64, isa: Isa)
    requires inst & 3 != 3 && CompressedOpOf(inst, isa).Some?
    ensures DecompressesTo(CompressedOpOf(inst, isa).value, isa).Some?
  {
    hide ExpansionOf;
  }

  /** After decompression no compressed opcode is left. */
  lemma NoCompressedOpSurvives(pc: bv64, inst: bv64, isa: Isa)
    ensures !Expand(pc, inst, isa).op.Compressed?
  {
    hide OperandsOf, CompressedOpOf, WideOpOf, DecompressesTo;
    if inst & 3 != 3 && CompressedOpOf(inst, isa).Some? {
      SelectedExpands(inst, isa);
    }
  }

  /** Decompression makes a legal opcode illegal exactly in the non-zero-immediate rows with a zero immediate. */
  lemma IllegalExpansions(pc: bv64, inst: bv64, isa: Isa)
    requires Decode(pc, inst, isa).op != Illegal
    ensures Expand(pc, inst, isa).op == Illegal
       <==> var d := Decode(pc, inst, isa); d.op.Compressed? && NeedsNonZeroImm(d.op.short) && d.args.imm == 0
  {
    hide OperandsOf, CompressedOpOf, WideOpOf, DecompressesTo, NeedsNonZeroImm;
    if inst & 3 != 3 && CompressedOpOf(inst, isa).Some? {
      SelectedExpands(inst, isa);
    }
  }

  /** Only opcode and codec change: both for a 32-bit instruction, the opcode alone for an illegal one. */
  lemma DecompressKeepsTheRest(d: Decoded, isa: Isa)
    ensures var e := Decompress(d, isa);
      && e.pc == d.pc && e.inst == d.inst && e.args == d.args
      && (e.op == d.op ==> e.codec == d.codec)
      && (e.op == Illegal ==> e.codec == d.codec)
      && (d.op.Compressed? && e.op.Wide? ==> e.op == Wide(ExpansionOf(d.op.short)) && e.codec == CodecOf(e.op))
  {
    hide WideCodec, ExpansionOf, NeedsNonZeroImm, HasExpansion;
  }

  lemma DecompressIdempotent(d: Decoded, isa: Isa)
    ensures Decompress(Decompress(d, isa), isa) == Decompress(d, isa)
  {}

  // ----- the immediates of compressed instructions fit the 32-bit formats

  lemma UnsignedFits(imm: bv32)
    requires imm < 1024
    ensures RangeI(imm) && RangeS(imm)
  {}

  lemma SignedFits(imm: bv32)
    requires RangeCI(imm) || RangeC16sp(imm)
    ensures RangeI(imm)
  {}

  lemma JumpFits(imm: bv32)
    requires RangeCJ(imm)
    ensures RangeJ(imm)
  {}

  lemma BranchFits(imm: bv32)
    requires RangeCB(imm)
    ensures RangeB(imm)
  {}

  lemma ShiftFits(imm: bv32)
    requires RangeCSh5(imm) || RangeCSh6(imm)
    ensures RangeShamt7(imm)
  {}

  lemma SmallRanges(imm: bv32)
    ensures RangeC4spn(imm) ==> imm < 1024
    ensures RangeCW(imm) ==> imm < 1024
    ensures RangeCD(imm) ==> imm < 1024
    ensures RangeCQ(imm) ==> imm < 1024
    ensures RangeCLwsp(imm) ==> imm < 1024
    ensures RangeCLdsp(imm) ==> imm < 1024
    ensures RangeCLqsp(imm) ==> imm < 1024
    ensures RangeCSwsp(imm) ==> imm < 1024
    ensures RangeCSdsp(imm) ==> imm < 1024
    ensures RangeCSqsp(imm) ==> imm < 1024
  {}

  lemma UnsignedImmediates(inst: bv64)
    ensures ImmC4spn(inst) < 1024
    ensures ImmCW(inst) < 1024
    ensures ImmCD(inst) < 1024
    ensures ImmCQ(inst) < 1024
    ensures ImmCLwsp(inst) < 1024
    ensures ImmCLdsp(inst) < 1024
    ensures ImmCLqsp(inst) < 1024
    ensures ImmCSwsp(inst) < 1024
    ensures ImmCSdsp(inst) < 1024
    ensures ImmCSqsp(inst) < 1024
  {
    hide ImmC4spn, ImmCW, ImmCD, ImmCQ, ImmCLwsp, ImmCLdsp, ImmCLqsp, ImmCSwsp, ImmCSdsp, ImmCSqsp;
    hide PlaceC4spn, PlaceCW, PlaceCD, PlaceCQ, PlaceCLwsp, PlaceCLdsp, PlaceCLqsp, PlaceCSwsp, PlaceCSdsp, PlaceCSqsp;
    hide RangeC4spn, RangeCW, RangeCD, RangeCQ, RangeCLwsp, RangeCLdsp, RangeCLqsp, RangeCSwsp, RangeCSdsp, RangeCSqsp;
    GatherC4spn(inst);
    SmallRanges(ImmC4spn(inst));
    GatherCW(inst);
    SmallRanges(ImmCW(inst));
    GatherCD(inst);
    SmallRanges(ImmCD(inst));
    GatherCQ(inst);
    SmallRanges(ImmCQ(inst));
    GatherCLwsp(inst);
    SmallRanges(ImmCLwsp(inst));
    GatherCLdsp(inst);
    SmallRanges(ImmCLdsp(inst));
    GatherCLqsp(inst);
    SmallRanges(ImmCLqsp(inst));
    GatherCSwsp(inst);
    SmallRanges(ImmCSwsp(inst));
    GatherCSdsp(inst);
    SmallRanges(ImmCSdsp(inst));
    GatherCSqsp(inst);
    SmallRanges(ImmCSqsp(inst));
  }

  /**
   Every immediate a compressed codec extracts is in range for the 32-bit format
   it expands to: here those of the register-immediate operations and loads.
  */
  lemma ShortImmediatesFit(inst: bv64)
    ensures RangeI(ImmCI(inst)) && RangeI(ImmC16sp(inst)) && RangeI(ImmC4spn(inst))
    ensures RangeI(ImmCW(inst)) && RangeI(ImmCD(inst)) && RangeI(ImmCQ(inst))
    ensures RangeI(ImmCLwsp(inst)) && RangeI(ImmCLdsp(inst)) && RangeI(ImmCLqsp(inst))
  {
    hide RangeI, RangeS, RangeCI, RangeC16sp, ImmCI, ImmC16sp, PlaceCI, PlaceC16sp;
    hide ImmC4spn, ImmCW, ImmCD, ImmCQ, ImmCLwsp, ImmCLdsp, ImmCLqsp, ImmCSwsp, ImmCSdsp, ImmCSqsp;
    GatherCI(inst);
    GatherC16sp(inst);
    SignedFits(ImmCI(inst));
    SignedFits(ImmC16sp(inst));
    UnsignedImmediates(inst);
    UnsignedFits(ImmC4spn(inst));
    UnsignedFits(ImmCW(inst));
    UnsignedFits(ImmCD(inst));
    UnsignedFits(ImmCQ(inst));
    UnsignedFits(ImmCLwsp(inst));
    UnsignedFits(ImmCLdsp(inst));
    UnsignedFits(ImmCLqsp(inst));
  }

  lemma StoreOffsetsFit(inst: bv64)
    ensures RangeS(ImmCW(inst)) && RangeS(ImmCD(inst)) && RangeS(ImmCQ(inst))
    ensures RangeS(ImmCSwsp(inst)) && RangeS(ImmCSdsp(inst)) && RangeS(ImmCSqsp(inst))
  {
    hide RangeI, RangeS;
    hide ImmC4spn, ImmCW, ImmCD, ImmCQ, ImmCLwsp, ImmCLdsp, ImmCLqsp, ImmCSwsp, ImmCSdsp, ImmCSqsp;
    UnsignedImmediates(inst);
    UnsignedFits(ImmCW(inst));
    UnsignedFits(ImmCD(inst));
    UnsignedFits(ImmCQ(inst));
    UnsignedFits(ImmCSwsp(inst));
    UnsignedFits(ImmCSdsp(inst));
    UnsignedFits(ImmCSqsp(inst));
  }

  lemma OtherImmediatesFit(inst: bv64)
    ensures RangeU(ImmCLui(inst)) && RangeJ(ImmCJ(inst)) && RangeB(ImmCB(inst))
    ensures RangeShamt7(ImmCSh5(inst)) && RangeShamt7(ImmCSh6(inst))
  {
    assert RangeU(ImmCLui(inst));
    hide RangeU, RangeJ, RangeB, RangeShamt7, RangeCJ, RangeCB, RangeCSh5, RangeCSh6;
    hide ImmCJ, ImmCB, ImmCLui, ImmCSh5, ImmCSh6, PlaceCJ, PlaceCB, PlaceCSh5, PlaceCSh6;
    GatherCJ(inst);
    GatherCB(inst);
    GatherCSh5(inst);
    GatherCSh6(inst);
    JumpFits(ImmCJ(inst));
    BranchFits(ImmCB(inst));
    ShiftFits(ImmCSh5(inst));
    ShiftFits(ImmCSh6(inst));
  }

  predicate IsShortStoreCodec(short: Codec) {
    || short.CodecCSSw? || short.CodecCSSd? || short.CodecCSSq?
    || short.CodecCSSSwsp? || short.CodecCSSSdsp? || short.CodecCSSSqsp?
  }

  /** The compressed codecs whose operands are meant for a codec other than the common one, CodecI. */
  predicate IsForOtherCodec(short: Codec) {
    || short.CodecCB? || short.CodecCBSh5? || short.CodecCBSh6? || short.CodecCISh5? || short.CodecCISh6?
    || short.CodecCILui? || short.CodecCJ? || short.CodecCJJal? || short.CodecCR? || short.CodecCS?
    || IsShortStoreCodec(short)
  }

  /** Which 32-bit codecs the operands of a compressed codec are meant for. */
  predicate Expands(short: Codec, wide: Codec) {
    if wide.CodecI? then !IsWideCodec(short) && !short.CodecIllegal? && !IsForOtherCodec(short)
    else if wide.CodecNone? then short.CodecCINone?
    else if wide.CodecSB? then short.CodecCB?
    else if wide.CodecISh7? then short.CodecCBSh5? || short.CodecCBSh6? || short.CodecCISh5? || short.CodecCISh6?
    else if wide.CodecU? then short.CodecCILui?
    else if wide.CodecUJ? then short.CodecCJ? || short.CodecCJJal?
    else if wide.CodecR? then short.CodecCR? || short.CodecCS?
    else wide.CodecS? && IsShortStoreCodec(short)
  }

  lemma ShortRegisters(inst: bv64)
    ensures RdAt(inst) < 32 && CRs2At(inst) < 32 && ShortLowAt(inst) < 32 && ShortHighAt(inst) < 32
  {}

  lemma FitsI(rd: bv8, rs1: bv8, imm: bv32)
    requires rd < 32 && rs1 < 32 && RangeI(imm)
    ensures InCodec(CodecI, NO_OPERANDS.(rd := rd, rs1 := rs1, rs2 := 0, imm := imm))
  {}

  lemma FitsS(rs1: bv8, rs2: bv8, imm: bv32)
    requires rs1 < 32 && rs2 < 32 && RangeS(imm)
    ensures InCodec(CodecS, NO_OPERANDS.(rd := 0, rs1 := rs1, rs2 := rs2, imm := imm))
  {}

  lemma FitsR(rd: bv8, rs2: bv8)
    requires rd < 32 && rs2 < 32
    ensures InCodec(CodecR, NO_OPERANDS.(rd := rd, rs1 := rd, rs2 := rs2, imm := 0))
  {}

  lemma FitsShift(rd: bv8, imm: bv32)
    requires rd < 32 && RangeShamt7(imm)
    ensures InCodec(CodecISh7, NO_OPERANDS.(rd := rd, rs1 := rd, rs2 := 0, imm := imm))
  {}

  lemma FitsNone()
    ensures InCodec(CodecNone, NO_OPERANDS.(rd := 0, rs1 := 0, rs2 := 0, imm := 0))
  {}

  lemma FitsU(rd: bv8, imm: bv32)
    requires rd < 32 && RangeU(imm)
    ensures InCodec(CodecU, NO_OPERANDS.(rd := rd, rs1 := 0, rs2 := 0, imm := imm))
  {}

  lemma FitsJump(rd: bv8, imm: bv32)
    requires rd < 32 && RangeJ(imm)
    ensures InCodec(CodecUJ, NO_OPERANDS.(rd := rd, rs1 := 0, rs2 := 0, imm := imm))
  {}

  lemma FitsBranch(rs1: bv8, imm: bv32)
    requires rs1 < 32 && RangeB(imm)
    ensures InCodec(CodecSB, NO_OPERANDS.(rd := 0, rs1 := rs1, rs2 := 0, imm := imm))
  {}

  lemma ShortLoadFits(short: Codec, inst: bv64)
    requires Expands(short, CodecI) && IsShortAccess(short)
    ensures InCodec(CodecI, ShortAccessOf(short, inst, NO_OPERANDS))
  {
    hide RangeI, RangeS, RangeU, RangeJ, RangeB, RangeShamt7, RdAt, CRs2At, ShortLowAt, ShortHighAt, InCodec;
    hide ImmCI, ImmC16sp, ImmCJ, ImmCB, ImmCLui, ImmCSh5, ImmCSh6;
    hide ImmC4spn, ImmCW, ImmCD, ImmCQ, ImmCLwsp, ImmCLdsp, ImmCLqsp, ImmCSwsp, ImmCSdsp, ImmCSqsp;
    ShortRegisters(inst);
    ShortImmediatesFit(inst);
    match short {
      case CodecCLLw => FitsI(ShortLowAt(inst), ShortHighAt(inst), ImmCW(inst));
      case CodecCLLd => FitsI(ShortLowAt(inst), ShortHighAt(inst), ImmCD(inst));
      case CodecCLLq => FitsI(ShortLowAt(inst), ShortHighAt(inst), ImmCQ(inst));
      case CodecCRMv =>
        ZeroFitsI();
        FitsI(RdAt(inst), CRs2At(inst), 0);
      case CodecCRJalr =>
        ZeroFitsI();
        FitsI(1, RdAt(inst), 0);
      case CodecCRJr =>
        ZeroFitsI();
        FitsI(0, RdAt(inst), 0);
    }
  }

  /** A store has two source registers and an offset, and no other operand. */
  lemma StoreShape(short: Codec, inst: bv64)
    requires IsShortStoreCodec(short)
    ensures var o := ShortAccessOf(short, inst, NO_OPERANDS);
            o == NO_OPERANDS.(rd := 0, rs1 := o.rs1, rs2 := o.rs2, imm := o.imm)
  {
    hide RangeI, RangeS, RangeU, RangeJ, RangeB, RangeShamt7, RdAt, CRs2At, ShortLowAt, ShortHighAt;
    hide ImmCI, ImmC16sp, ImmCJ, ImmCB, ImmCLui, ImmCSh5, ImmCSh6;
    hide ImmC4spn, ImmCW, ImmCD, ImmCQ, ImmCLwsp, ImmCLdsp, ImmCLqsp, ImmCSwsp, ImmCSdsp, ImmCSqsp;
  }

  lemma StoreRegistersFit(short: Codec, inst: bv64)
    requires IsShortStoreCodec(short)
    ensures var o := ShortAccessOf(short, inst, NO_OPERANDS); o.rs1 < 32 && o.rs2 < 32
  {
    hide RangeI, RangeS, RangeU, RangeJ, RangeB, RangeShamt7, RdAt, CRs2At, ShortLowAt, ShortHighAt;
    hide ImmCI, ImmC16sp, ImmCJ, ImmCB, ImmCLui, ImmCSh5, ImmCSh6;
    hide ImmC4spn, ImmCW, ImmCD, ImmCQ, ImmCLwsp, ImmCLdsp, ImmCLqsp, ImmCSwsp, ImmCSdsp, ImmCSqsp;
    ShortRegisters(inst);
  }

  lemma StoreOffsetFits(short: Codec, inst: bv64)
    requires short.CodecCSSw? || short.CodecCSSd? || short.CodecCSSq?
    ensures RangeS(ShortAccessOf(short, inst, NO_OPERANDS).imm)
  {
    hide RangeI, RangeS, RdAt, CRs2At, ShortLowAt, ShortHighAt;
    hide ImmCW, ImmCD, ImmCQ, ImmCSwsp, ImmCSdsp, ImmCSqsp;
    StoreOffsetsFit(inst);
  }

  lemma StackStoreOffsetFits(short: Codec, inst: bv64)
    requires short.CodecCSSSwsp? || short.CodecCSSSdsp? || short.CodecCSSSqsp?
    ensures RangeS(ShortAccessOf(short, inst, NO_OPERANDS).imm)
  {
    hide RangeI, RangeS, RdAt, CRs2At, ShortLowAt, ShortHighAt;
    hide ImmCW, ImmCD, ImmCQ, ImmCSwsp, ImmCSdsp, ImmCSqsp;
    StoreOffsetsFit(inst);
  }

  lemma ShortStoreFits(short: Codec, inst: bv64)
    requires IsShortStoreCodec(short)
    ensures InCodec(CodecS, ShortAccessOf(short, inst, NO_OPERANDS))
  {
    hide RangeS, InCodec, ShortAccessOf;
    var o := ShortAccessOf(short, inst, NO_OPERANDS);
    StoreShape(short, inst);
    StoreRegistersFit(short, inst);
    if short.CodecCSSw? || short.CodecCSSd? || short.CodecCSSq? {
      StoreOffsetFits(short, inst);
    } else {
      StackStoreOffsetFits(short, inst);
    }
    FitsS(o.rs1, o.rs2, o.imm);
  }

  lemma ShortRegistersFit(short: Codec, inst: bv64)
    requires short.CodecCR? || short.CodecCS?
    ensures InCodec(CodecR, ShortAccessOf(short, inst, NO_OPERANDS))
  {
    hide RangeI, RangeS, RangeU, RangeJ, RangeB, RangeShamt7, RdAt, CRs2At, ShortLowAt, ShortHighAt, InCodec;
    hide ImmCI, ImmC16sp, ImmCJ, ImmCB, ImmCLui, ImmCSh5, ImmCSh6;
    hide ImmC4spn, ImmCW, ImmCD, ImmCQ, ImmCLwsp, ImmCLdsp, ImmCLqsp, ImmCSwsp, ImmCSdsp, ImmCSqsp;
    ShortRegisters(inst);
    match short {
      case CodecCR => FitsR(RdAt(inst), CRs2At(inst));
      case CodecCS => FitsR(ShortHighAt(inst), ShortLowAt(inst));
    }
  }

  lemma ShortAccessFits(short: Codec, wide: Codec, inst: bv64)
    requires Expands(short, wide) && IsShortAccess(short)
    ensures InCodec(wide, ShortAccessOf(short, inst, NO_OPERANDS))
  {
    hide InCodec, ShortAccessOf;
    if wide == CodecI {
      ShortLoadFits(short, inst);
    } else if wide == CodecS {
      ShortStoreFits(short, inst);
    } else {
      ShortRegistersFit(short, inst);
    }
  }

  lemma ShortImmediateFits(short: Codec, inst: bv64)
    requires Expands(short, CodecI) && !IsShortAccess(short)
    ensures InCodec(CodecI, ShortOperandsOf(short, inst, NO_OPERANDS))
  {
    hide ShortAccessOf;
    hide RangeI, RangeS, RangeU, RangeJ, RangeB, RangeShamt7, RdAt, CRs2At, ShortLowAt, ShortHighAt, InCodec;
    hide ImmCI, ImmC16sp, ImmCJ, ImmCB, ImmCLui, ImmCSh5, ImmCSh6;
    hide ImmC4spn, ImmCW, ImmCD, ImmCQ, ImmCLwsp, ImmCLdsp, ImmCLqsp, ImmCSwsp, ImmCSdsp, ImmCSqsp;
    ShortRegisters(inst);
    ShortImmediatesFit(inst);
    match short {
      case CodecCINone =>
        ZeroFitsI();
        FitsNone();
      case CodecCBImm => FitsI(ShortHighAt(inst), ShortHighAt(inst), ImmCI(inst));
      case CodecCI => FitsI(RdAt(inst), RdAt(inst), ImmCI(inst));
      case CodecCI16sp => FitsI(2, 2, ImmC16sp(inst));
      case CodecCILwsp => FitsI(RdAt(inst), 2, ImmCLwsp(inst));
      case CodecCILdsp => FitsI(RdAt(inst), 2, ImmCLdsp(inst));
      case CodecCILqsp => FitsI(RdAt(inst), 2, ImmCLqsp(inst));
      case CodecCILi => FitsI(RdAt(inst), 0, ImmCI(inst));
      case CodecCIW4spn => FitsI(ShortLowAt(inst), 2, ImmC4spn(inst));
    }
  }

  lemma ShortShiftFits(short: Codec, inst: bv64)
    requires Expands(short, CodecISh7)
    ensures InCodec(CodecISh7, ShortOperandsOf(short, inst, NO_OPERANDS))
  {
    hide InCodec, ShortOperandsOf;
    if short.CodecCBSh5? || short.CodecCISh5? {
      ShortShift5Fits(inst);
    } else {
      ShortShift6Fits(inst);
    }
  }

  lemma ShortShift5Fits(inst: bv64)
    ensures InCodec(CodecISh7, ShortOperandsOf(CodecCBSh5, inst, NO_OPERANDS))
    ensures InCodec(CodecISh7, ShortOperandsOf(CodecCISh5, inst, NO_OPERANDS))
  {
    hide ShortAccessOf;
    hide RangeI, RangeS, RangeU, RangeJ, RangeB, RangeShamt7, RdAt, CRs2At, ShortLowAt, ShortHighAt, InCodec;
    hide ImmCI, ImmC16sp, ImmCJ, ImmCB, ImmCLui, ImmCSh5, ImmCSh6;
    hide ImmC4spn, ImmCW, ImmCD, ImmCQ, ImmCLwsp, ImmCLdsp, ImmCLqsp, ImmCSwsp, ImmCSdsp, ImmCSqsp;
    ShortRegisters(inst);
    OtherImmediatesFit(inst);
    FitsShift(ShortHighAt(inst), ImmCSh5(inst));
    FitsShift(RdAt(inst), ImmCSh5(inst));
  }

  lemma ShortShift6Fits(inst: bv64)
    ensures InCodec(CodecISh7, ShortOperandsOf(CodecCBSh6, inst, NO_OPERANDS))
    ensures InCodec(CodecISh7, ShortOperandsOf(CodecCISh6, inst, NO_OPERANDS))
  {
    hide ShortAccessOf;
    hide RangeI, RangeS, RangeU, RangeJ, RangeB, RangeShamt7, RdAt, CRs2At, ShortLowAt, ShortHighAt, InCodec;
    hide ImmCI, ImmC16sp, ImmCJ, ImmCB, ImmCLui, ImmCSh5, ImmCSh6;
    hide ImmC4spn, ImmCW, ImmCD, ImmCQ, ImmCLwsp, ImmCLdsp, ImmCLqsp, ImmCSwsp, ImmCSdsp, ImmCSqsp;
    ShortRegisters(inst);
    OtherImmediatesFit(inst);
    FitsShift(ShortHighAt(inst), ImmCSh6(inst));
    FitsShift(RdAt(inst), ImmCSh6(inst));
  }

  lemma ShortJumpFits(inst: bv64)
    ensures InCodec(CodecUJ, ShortOperandsOf(CodecCJ, inst, NO_OPERANDS))
    ensures InCodec(CodecUJ, ShortOperandsOf(CodecCJJal, inst, NO_OPERANDS))
  {
    hide ShortAccessOf;
    hide RangeI, RangeS, RangeU, RangeJ, RangeB, RangeShamt7, RdAt, CRs2At, ShortLowAt, ShortHighAt, InCodec;
    hide ImmCI, ImmC16sp, ImmCJ, ImmCB, ImmCLui, ImmCSh5, ImmCSh6;
    hide ImmC4spn, ImmCW, ImmCD, ImmCQ, ImmCLwsp, ImmCLdsp, ImmCLqsp, ImmCSwsp, ImmCSdsp, ImmCSqsp;
    ShortRegisters(inst);
    OtherImmediatesFit(inst);
    FitsJump(0, ImmCJ(inst));
    FitsJump(1, ImmCJ(inst));
  }

  lemma ShortOtherFits(inst: bv64)
    ensures InCodec(CodecSB, ShortOperandsOf(CodecCB, inst, NO_OPERANDS))
    ensures InCodec(CodecU, ShortOperandsOf(CodecCILui, inst, NO_OPERANDS))
    ensures InCodec(CodecNone, ShortOperandsOf(CodecCINone, inst, NO_OPERANDS))
  {
    hide ShortAccessOf;
    hide RangeI, RangeS, RangeU, RangeJ, RangeB, RangeShamt7, RdAt, CRs2At, ShortLowAt, ShortHighAt, InCodec;
    hide ImmCI, ImmC16sp, ImmCJ, ImmCB, ImmCLui, ImmCSh5, ImmCSh6;
    hide ImmC4spn, ImmCW, ImmCD, ImmCQ, ImmCLwsp, ImmCLdsp, ImmCLqsp, ImmCSwsp, ImmCSdsp, ImmCSqsp;
    ShortRegisters(inst);
    OtherImmediatesFit(inst);
    FitsBranch(ShortHighAt(inst), ImmCB(inst));
    FitsU(RdAt(inst), ImmCLui(inst));
    FitsNone();
  }

  lemma ShortOffsetFits(short: Codec, wide: Codec, inst: bv64)
    requires Expands(short, wide) && wide != CodecI && !IsShortAccess(short)
    ensures InCodec(wide, ShortOperandsOf(short, inst, NO_OPERANDS))
  {
    hide InCodec, ShortOperandsOf, ShortAccessOf, IsForOtherCodec, IsWideCodec;
    if wide == CodecISh7 {
      ShortShiftFits(short, inst);
    } else if wide == CodecUJ {
      ShortJumpFits(inst);
    } else {
      ShortOtherFits(inst);
    }
  }

  lemma ShortOperandsFit(short: Codec, wide: Codec, inst: bv64)
    requires Expands(short, wide)
    ensures InCodec(wide, ShortOperandsOf(short, inst, NO_OPERANDS))
  {
    if IsShortAccess(short) {
      hide InCodec, Expands, ShortAccessOf;
      ShortAccessFits(short, wide, inst);
    } else {
      hide InCodec, Expands, ShortAccessOf, ShortOperandsOf;
      if wide == CodecI {
        ShortImmediateFits(short, inst);
      } else {
        ShortOffsetFits(short, wide, inst);
      }
    }
  }

  lemma ZeroFitsI()
    ensures RangeI(0) && InCodec(CodecI, NO_OPERANDS)
  {}

  lemma LoadExpansionCodec(op: CompressedOp)
    requires IsShortLoad(op) && !IsStackRelative(op)
    ensures Expands(CompressedCodec(op), WideCodec(ExpansionOf(op)))
  {}

  lemma StackLoadExpansionCodec(op: CompressedOp)
    requires IsShortLoad(op) && IsStackRelative(op)
    ensures Expands(CompressedCodec(op), WideCodec(ExpansionOf(op)))
  {}

  lemma StoreExpansionCodec(op: CompressedOp)
    requires IsShortStore(op) && !IsStackRelative(op)
    ensures Expands(CompressedCodec(op), WideCodec(ExpansionOf(op)))
  {}

  lemma StackStoreExpansionCodec(op: CompressedOp)
    requires IsShortStore(op) && IsStackRelative(op)
    ensures Expands(CompressedCodec(op), WideCodec(ExpansionOf(op)))
  {}

  /** The compressed register operations and shifts. */
  predicate IsShortArith(op: CompressedOp) {
    || op.CSub? || op.CXor? || op.COr? || op.CAnd? || op.CSubw? || op.CAddw? || op.CAdd?
    || op.CSrli? || op.CSrai? || op.CSlli?
  }

  lemma ArithExpansionCodec(op: CompressedOp)
    requires IsShortArith(op)
    ensures Expands(CompressedCodec(op), WideCodec(ExpansionOf(op)))
  {}

  lemma OtherExpansionCodec(op: CompressedOp)
    requires !IsAccess(op) && !IsShortArith(op)
    ensures Expands(CompressedCodec(op), WideCodec(ExpansionOf(op)))
  {}

  lemma ExpansionCodec(op: CompressedOp)
    ensures Expands(CompressedCodec(op), WideCodec(ExpansionOf(op)))
  {
    hide Expands, CompressedCodec, WideCodec, ExpansionOf, IsShortLoad, IsShortStore, IsStackRelative, IsShortArith;
    if IsShortLoad(op) && IsStackRelative(op) {
      StackLoadExpansionCodec(op);
    } else if IsShortStore(op) && IsStackRelative(op) {
      StackStoreExpansionCodec(op);
    } else if IsShortLoad(op) {
      LoadExpansionCodec(op);
    } else if IsShortStore(op) {
      StoreExpansionCodec(op);
    } else if IsShortArith(op) {
      ArithExpansionCodec(op);
    } else {
      OtherExpansionCodec(op);
    }
  }

  /** No operand field of the instruction is fixed by its opcode. */
  predicate FixesNoOperand(op: WideOp) { !(op.Fp? || op.FConvert? || op.SfenceVm? || op.SfenceVma?) }

  lemma ExpansionIsPlain(op: CompressedOp)
    ensures FixesNoOperand(ExpansionOf(op))
  {}

  lemma PlainOpAgrees(op: WideOp, o: Operands)
    requires FixesNoOperand(op)
    ensures Agrees(FixedOf(op), o)
  {
    hide BranchBits, StoreBits, ImmBits, AluFunct7, AluFunct3, LogicFunct7, LogicFunct3, AmoBits;
    hide WidthBits, FloatWidthBits, FmtBits, IntFormatBits, CsrBits, FmaMajor, ImmMajor, RegMajor;
  }

  lemma ExpansionIsEncodable(pc: bv64, inst: bv64, isa: Isa)
    requires inst & 3 != 3 && Expand(pc, inst, isa).op != Illegal
    ensures var d := Expand(pc, inst, isa);
      && d.op.Wide? && d.codec == WideCodec(d.op.wide) && d.pc == pc && d.inst == inst
      && Encodable(d.op.wide, d.args)
  {
    hide CompressedOpOf, WideOpOf, HasExpansion, ExpansionOf, ShortOperandsOf, InCodec, Agrees, FixedOf, Expands;
    hide WideCodec, NeedsNonZeroImm;
    assert CompressedOpOf(inst, isa).Some?;
    var short := CompressedOpOf(inst, isa).value;
    SelectedExpands(inst, isa);
    var wide := DecompressesTo(short, isa).value;
    ExpansionCodec(short);
    ShortCodecs(short);
    ShortOperandsFit(CompressedCodec(short), WideCodec(wide), inst);
    ExpansionIsPlain(short);
    PlainOpAgrees(wide, Expand(pc, inst, isa).args);
  }

  lemma ShortCodecs(op: CompressedOp)
    ensures !IsWideCodec(CompressedCodec(op)) && CompressedCodec(op) != CodecIllegal
  {}

  /**
   Decompression preserves meaning: the 32-bit word that encodes the result of
   expanding a compressed word decodes, on any instruction set and whatever
   lies above bit 31, to the same opcode, codec and operands.
   */
  lemma DecompressionPreservesMeaning(pc: bv64, inst: bv64, isa: Isa, wideInst: bv64, wideIsa: Isa)
    requires inst & 3 != 3 && Expand(pc, inst, isa).op != Illegal
    ensures Expand(pc, inst, isa).op.Wide?
    ensures var d := Expand(pc, inst, isa);
      wideInst & 0xFFFF_FFFF == Encode(d.op.wide, d.args) ==>
        Decode(pc, wideInst, wideIsa) == Expand(pc, wideInst, wideIsa) == d.(inst := wideInst)
  {
    hide OpcodeOf, OperandsOf, Encode, Encodable, WideCodec;
    var d := Expand(pc, inst, isa);
    ExpansionIsEncodable(pc, inst, isa);
    if wideInst & 0xFFFF_FFFF == Encode(d.op.wide, d.args) {
      DecodeUndoesEncode(wideInst, wideIsa, d.op.wide, d.args);
    }
  }
}
