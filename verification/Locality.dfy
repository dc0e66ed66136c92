/**
 What a decoded record depends on: the first bytes of the word, as many as its
 length names.  And what it can hold: the ranges of its operand fields.
*/
module Locality {
  import opened Opcodes
  import opened OpcodeDecoder
  import opened Encodings
  import opened Immediates
  import opened Operands
  import opened Decoding
  import opened Compression
  import Fetch

  // ----- opcode selection agrees with the length code

  lemma MajorsOfWideOps(inst: bv64)
    requires WideOpOf(inst).Some?
    ensures Major(inst) & 7 != 7
  {
    hide OpImm, OpAmo, OpReg, OpFp, OpSystem, OpFma, FloatAccess, MiscMem, StoreOp, BranchOp, LoadAt;
    hide Major, Funct2, Funct3, Funct5, Funct6, Funct7, Rs1, Rs2, Rd;
  }

  lemma MajorIsLengthCode(inst: bv64)
    requires inst & 3 == 3
    ensures Major(inst) & 7 == 7 <==> inst & 0x1C == 0x1C
  {}

  /** A legal opcode is compressed exactly for 2-byte words and full-width exactly for 4-byte words. */
  lemma OpcodeMatchesLength(inst: bv64, isa: Isa)
    requires OpcodeOf(inst, isa) != Illegal
    ensures OpcodeOf(inst, isa).Compressed? <==> Fetch.InstLength(inst) == 2
    ensures OpcodeOf(inst, isa).Wide? <==> Fetch.InstLength(inst) == 4
  {
    hide CompressedOpOf, WideOpOf, Major;
    if inst & 3 == 3 {
      MajorsOfWideOps(inst);
      MajorIsLengthCode(inst);
    }
  }

  /** Words of any other length are illegal, with all operand fields zero. */
  lemma OtherLengthsAreIllegal(pc: bv64, inst: bv64, isa: Isa)
    requires Fetch.InstLength(inst) != 2 && Fetch.InstLength(inst) != 4
    ensures Decode(pc, inst, isa) == Expand(pc, inst, isa) == Start(pc, inst)
  {
    hide CompressedOpOf, WideOpOf, Major, WideOperandsOf;
    if OpcodeOf(inst, isa) != Illegal {
      OpcodeMatchesLength(inst, isa);
    }
  }

  // ----- junk above the named bytes changes nothing

  function LowHalf(inst: bv64): bv64 { inst & 0xFFFF }

  function LowWord(inst: bv64): bv64 { inst & 0xFFFF_FFFF }

  lemma QuadrantIsLocal(inst: bv64, other: bv64)
    requires LowHalf(inst) == LowHalf(other) || LowWord(inst) == LowWord(other)
    ensures inst & 3 == 3 <==> other & 3 == 3
  {
    assert inst & 3 == LowHalf(inst) & 3 == LowWord(inst) & 3;
    assert other & 3 == LowHalf(other) & 3 == LowWord(other) & 3;
  }

  lemma ShortOpcodeIsLocal(inst: bv64, isa: Isa)
    ensures CompressedOpOf(inst, isa) == CompressedOpOf(LowHalf(inst), isa)
  {}

  lemma ShortMasksAreLocal(inst: bv64)
    ensures AgreeOn(0x107C, inst, LowHalf(inst))
    ensures AgreeOn(0x007C, inst, LowHalf(inst))
    ensures AgreeOn(0x1FFC, inst, LowHalf(inst))
    ensures AgreeOn(0x1C7C, inst, LowHalf(inst))
    ensures AgreeOn(0x1F80, inst, LowHalf(inst))
    ensures AgreeOn(0x1FE0, inst, LowHalf(inst))
    ensures AgreeOn(0x1C60, inst, LowHalf(inst))
  {}

  lemma ShortRegistersAreLocal(inst: bv64)
    ensures RdAt(inst) == RdAt(LowHalf(inst)) && CRs2At(inst) == CRs2At(LowHalf(inst))
    ensures ShortLowAt(inst) == ShortLowAt(LowHalf(inst)) && ShortHighAt(inst) == ShortHighAt(LowHalf(inst))
  {}

  lemma ShortImmediatesAreLocal(inst: bv64)
    ensures ImmCSh5(inst) == ImmCSh5(LowHalf(inst))
    ensures ImmCSh6(inst) == ImmCSh6(LowHalf(inst))
    ensures ImmCI(inst) == ImmCI(LowHalf(inst))
    ensures ImmCLui(inst) == ImmCLui(LowHalf(inst))
    ensures ImmCLwsp(inst) == ImmCLwsp(LowHalf(inst))
    ensures ImmCLdsp(inst) == ImmCLdsp(LowHalf(inst))
    ensures ImmCLqsp(inst) == ImmCLqsp(LowHalf(inst))
    ensures ImmC16sp(inst) == ImmC16sp(LowHalf(inst))
    ensures ImmCJ(inst) == ImmCJ(LowHalf(inst))
    ensures ImmCB(inst) == ImmCB(LowHalf(inst))
    ensures ImmCSwsp(inst) == ImmCSwsp(LowHalf(inst))
    ensures ImmCSdsp(inst) == ImmCSdsp(LowHalf(inst))
    ensures ImmCSqsp(inst) == ImmCSqsp(LowHalf(inst))
    ensures ImmC4spn(inst) == ImmC4spn(LowHalf(inst))
    ensures ImmCW(inst) == ImmCW(LowHalf(inst))
    ensures ImmCD(inst) == ImmCD(LowHalf(inst))
    ensures ImmCQ(inst) == ImmCQ(LowHalf(inst))
  {
    hide AgreeOn, LowHalf, ImmCSh5, ImmCSh6, ImmCI, ImmCLui, ImmCLwsp, ImmCLdsp, ImmCLqsp, ImmC16sp, ImmCJ, ImmCB;
    hide ImmCSwsp, ImmCSdsp, ImmCSqsp, ImmC4spn, ImmCW, ImmCD, ImmCQ;
    ShortMasksAreLocal(inst);
    DependsCSh5(inst, LowHalf(inst));
    DependsCSh6(inst, LowHalf(inst));
    DependsCI(inst, LowHalf(inst));
    DependsCLui(inst, LowHalf(inst));
    DependsCLwsp(inst, LowHalf(inst));
    DependsCLdsp(inst, LowHalf(inst));
    DependsCLqsp(inst, LowHalf(inst));
    DependsC16sp(inst, LowHalf(inst));
    DependsCJ(inst, LowHalf(inst));
    DependsCB(inst, LowHalf(inst));
    DependsCSwsp(inst, LowHalf(inst));
    DependsCSdsp(inst, LowHalf(inst));
    DependsCSqsp(inst, LowHalf(inst));
    DependsC4spn(inst, LowHalf(inst));
    DependsCW(inst, LowHalf(inst));
    DependsCD(inst, LowHalf(inst));
    DependsCQ(inst, LowHalf(inst));
  }

  lemma ShortOperandsAreLocal(codec: Codec, inst: bv64, before: Operands)
    ensures ShortOperandsOf(codec, inst, before) == ShortOperandsOf(codec, LowHalf(inst), before)
  {
    hide LowHalf, RdAt, CRs2At, ShortLowAt, ShortHighAt;
    hide ImmCSh5, ImmCSh6, ImmCI, ImmCLui, ImmCLwsp, ImmCLdsp, ImmCLqsp, ImmC16sp, ImmCJ, ImmCB, ImmCSwsp, ImmCSdsp;
    hide ImmCSqsp, ImmC4spn, ImmCW, ImmCD, ImmCQ;
    ShortRegistersAreLocal(inst);
    ShortImmediatesAreLocal(inst);
  }

  lemma MaskedTwice(x: bv64, m: bv64)
    requires Within(m, 0xFFFF_FFFF)
    ensures LowWord(x) & m == x & m
  {}

  lemma SelectionIsLocal(inst: bv64, other: bv64, m: bv64, x: bv64)
    requires LowWord(inst) == LowWord(other) && Within(m, 0xFFFF_FFFF)
    ensures Selects(inst, m, x) <==> Selects(other, m, x)
  {
    MaskedTwice(inst, m);
    MaskedTwice(other, m);
  }

  lemma WideOpcodeIsLocal(inst: bv64, other: bv64, isa: Isa, op: WideOp)
    requires LowWord(inst) == LowWord(other) && OpcodeOf(inst, isa) == Wide(op)
    ensures OpcodeOf(other, isa) == Wide(op)
  {
    hide LowWord, OpcodeOf, FixedOf, FixedMask, FixedBits, Selects;
    DecodedByFixedBits(inst, isa, op);
    DecodedByFixedBits(other, isa, op);
    FixedMaskIn32Bits(FixedOf(op));
    SelectionIsLocal(inst, other, FixedMask(FixedOf(op)), FixedBits(FixedOf(op)));
  }

  lemma WideOperandsAreLocal(codec: Codec, inst: bv64, other: bv64)
    requires LowWord(inst) == LowWord(other) && IsWideCodec(codec)
    ensures WideOperandsOf(codec, inst, NO_OPERANDS) == WideOperandsOf(codec, other, NO_OPERANDS)
  {
    hide LowWord, WideOperandsOf, OperandBits, OperandMask, Selects, InCodec;
    var o := WideOperandsOf(codec, inst, NO_OPERANDS);
    OperandsCaptured(codec, inst);
    OperandsCaptured(codec, other);
    OperandMaskIn32Bits(codec);
    SelectionIsLocal(inst, other, OperandMask(codec), OperandBits(codec, o));
    var o' := WideOperandsOf(codec, other, NO_OPERANDS);
    SelectsOne(other, OperandMask(codec), OperandBits(codec, o), OperandBits(codec, o'));
    ExtractedInRange(codec, inst);
    ExtractedInRange(codec, other);
    OperandsRecovered(codec, o);
    OperandsRecovered(codec, WideOperandsOf(codec, other, NO_OPERANDS));
  }

  lemma ShortDecodeIsLocal(pc: bv64, inst: bv64, other: bv64, isa: Isa)
    requires inst & 3 != 3 && LowHalf(inst) == LowHalf(other)
    ensures Decode(pc, other, isa) == Decode(pc, inst, isa).(inst := other)
  {
    hide LowHalf, CompressedOpOf, WideOpOf, ShortOperandsOf, WideOperandsOf, CompressedCodec, IsWideCodec;
    QuadrantIsLocal(inst, other);
    ShortOpcodeIsLocal(inst, isa);
    ShortOpcodeIsLocal(other, isa);
    if CompressedOpOf(inst, isa).Some? {
      var codec := CompressedCodec(CompressedOpOf(inst, isa).value);
      ShortCodecs(CompressedOpOf(inst, isa).value);
      ShortOperandsAreLocal(codec, inst, NO_OPERANDS);
      ShortOperandsAreLocal(codec, other, NO_OPERANDS);
    } else {
      NoOperandsWhenIllegal(pc, inst, isa);
      NoOperandsWhenIllegal(pc, other, isa);
    }
  }

  lemma NoOperandsWhenIllegal(pc: bv64, inst: bv64, isa: Isa)
    requires OpcodeOf(inst, isa) == Illegal
    ensures Decode(pc, inst, isa) == Start(pc, inst)
  {}

  lemma WideDecodeIsLocal(pc: bv64, inst: bv64, other: bv64, isa: Isa)
    requires inst & 3 == 3 && LowWord(inst) == LowWord(other)
    ensures Decode(pc, other, isa) == Decode(pc, inst, isa).(inst := other)
  {
    hide LowWord, WideOpOf, CompressedOpOf, WideOperandsOf, WideCodec;
    QuadrantIsLocal(inst, other);
    if OpcodeOf(inst, isa) == Illegal {
      if OpcodeOf(other, isa) != Illegal {
        WideOpcodeIsLocal(other, inst, isa, OpcodeOf(other, isa).wide);
      }
      NoOperandsWhenIllegal(pc, inst, isa);
      NoOperandsWhenIllegal(pc, other, isa);
    } else {
      var op := OpcodeOf(inst, isa).wide;
      WideOpcodeIsLocal(inst, other, isa, op);
      WideCodecs(op);
      WideOperandsAreLocal(WideCodec(op), inst, other);
    }
  }

  /** The two words agree on the bytes that the length of the first names (its first two, if it names none). */
  predicate SameBytes(inst: bv64, other: bv64) {
    match Fetch.InstLength(inst)
    case 4 => LowWord(inst) == LowWord(other)
    case 6 => inst & 0xFFFF_FFFF_FFFF == other & 0xFFFF_FFFF_FFFF
    case 8 => inst == other
    case _ => LowHalf(inst) == LowHalf(other)
  }

  lemma DecodeIsLocal(pc: bv64, inst: bv64, other: bv64, isa: Isa)
    requires SameBytes(inst, other) && Fetch.InstLength(other) == Fetch.InstLength(inst)
    ensures Decode(pc, other, isa) == Decode(pc, inst, isa).(inst := other)
  {
    hide Decode;
    match Fetch.InstLength(inst) {
      case 2 => ShortDecodeIsLocal(pc, inst, other, isa);
      case 4 => WideDecodeIsLocal(pc, inst, other, isa);
      case _ =>
        OtherLengthsAreIllegal(pc, inst, isa);
        OtherLengthsAreIllegal(pc, other, isa);
    }
  }

  lemma ExpandFollowsDecode(pc: bv64, inst: bv64, other: bv64, isa: Isa)
    requires Decode(pc, other, isa) == Decode(pc, inst, isa).(inst := other)
    ensures Expand(pc, other, isa) == Expand(pc, inst, isa).(inst := other)
  {
    hide Decode, DecompressesTo, NeedsNonZeroImm, WideCodec;
  }

  /** Everything a decoded record holds but the word itself depends only on the bytes the word's length names. */
  lemma JunkAboveIsIgnored(pc: bv64, inst: bv64, other: bv64, isa: Isa)
    requires SameBytes(inst, other)
    ensures Fetch.InstLength(other) == Fetch.InstLength(inst)
    ensures Expand(pc, other, isa) == Expand(pc, inst, isa).(inst := other)
  {
    hide SameBytes, Decode, Expand;
    SameLowBits(inst, other);
    Fetch.LengthIsInFirstBytes(inst, other);
    DecodeIsLocal(pc, inst, other, isa);
    ExpandFollowsDecode(pc, inst, other, isa);
  }

  lemma SameLowBits(inst: bv64, other: bv64)
    requires SameBytes(inst, other)
    ensures inst & 0x7F == other & 0x7F
  {
    assert inst & 0x7F == (inst & 0xFFFF) & 0x7F == (inst & 0xFFFF_FFFF) & 0x7F == (inst & 0xFFFF_FFFF_FFFF) & 0x7F;
    assert other & 0x7F == (other & 0xFFFF) & 0x7F == (other & 0xFFFF_FFFF) & 0x7F == (other & 0xFFFF_FFFF_FFFF) & 0x7F;
  }

  // ----- operand ranges

  /** Every operand field indexes the table the formatter looks it up in. */
  predicate InTables(o: Operands) {
    && o.rd < 32 && o.rs1 < 32 && o.rs2 < 32 && o.rs3 < 32
    && o.rm < 8 && o.pred < 16 && o.succ < 16 && o.aq < 2 && o.rl < 2
  }

  lemma InCodecInTables(codec: Codec, o: Operands)
    requires InCodec(codec, o)
    ensures InTables(o)
  {}

  /** For every word and instruction set the operand fields stay in range through decompression. */
  lemma OperandsStayInTables(pc: bv64, inst: bv64, isa: Isa)
    ensures InTables(Expand(pc, inst, isa).args)
  {
    hide CompressedOpOf, WideOpOf, WideOperandsOf, ShortOperandsOf, WideCodec, CompressedCodec, ExpansionOf, Expands;
    hide InCodec, InTables, DecompressesTo;
    match OpcodeOf(inst, isa) {
      case Illegal =>
        NoOperandsWhenIllegal(pc, inst, isa);
        assert InTables(NO_OPERANDS) by {
          ZeroFitsI();
          InCodecInTables(CodecI, NO_OPERANDS);
        }
      case Wide(op) =>
        WideCodecs(op);
        ExtractedInRange(WideCodec(op), inst);
        InCodecInTables(WideCodec(op), WideOperandsOf(WideCodec(op), inst, NO_OPERANDS));
      case Compressed(op) =>
        ShortCodecs(op);
        ExpansionCodec(op);
        ShortOperandsFit(CompressedCodec(op), WideCodec(ExpansionOf(op)), inst);
        InCodecInTables(WideCodec(ExpansionOf(op)), ShortOperandsOf(CompressedCodec(op), inst, NO_OPERANDS));
    }
  }
}
