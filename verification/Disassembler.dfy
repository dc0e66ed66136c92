/** The decode record as the source updates it in place, and the whole disassembler. */
module Disassembler {
  import opened Opcodes
  import opened OpcodeDecoder
  import opened Operands
  import opened Decoding
  import opened Compression
  import opened Formats
  import opened Immediates
  import opened Injectivity
  import opened Layout
  import opened Locality
  import opened Mnemonics
  import opened Numerals
  import opened PseudoInstructions
  import opened Registers
  import opened Text
  import opened TextBuffer
  import opened Truncation
  import opened Assembly
  import opened Targets
  import opened Words

  // ----- the register and flag extractors, as shifts to the top and back down

  function OperandRd(inst: bv64): bv8 { ((inst << 52) >> 59) as bv8 }

  function OperandRs1(inst: bv64): bv8 { ((inst << 44) >> 59) as bv8 }

  function OperandRs2(inst: bv64): bv8 { ((inst << 39) >> 59) as bv8 }

  function OperandRs3(inst: bv64): bv8 { ((inst << 32) >> 59) as bv8 }

  function OperandAq(inst: bv64): bv8 { ((inst << 37) >> 63) as bv8 }

  function OperandRl(inst: bv64): bv8 { ((inst << 38) >> 63) as bv8 }

  function OperandPred(inst: bv64): bv8 { ((inst << 36) >> 60) as bv8 }

  function OperandSucc(inst: bv64): bv8 { ((inst << 40) >> 60) as bv8 }

  function OperandRm(inst: bv64): bv8 { ((inst << 49) >> 61) as bv8 }

  function OperandCrdq(inst: bv64): bv8 { ((inst << 59) >> 61) as bv8 }

  function OperandCrs1q(inst: bv64): bv8 { ((inst << 54) >> 61) as bv8 }

  function OperandCrs1rdq(inst: bv64): bv8 { ((inst << 54) >> 61) as bv8 }

  function OperandCrs2q(inst: bv64): bv8 { ((inst << 59) >> 61) as bv8 }

  function OperandCrd(inst: bv64): bv8 { ((inst << 52) >> 59) as bv8 }

  function OperandCrs1(inst: bv64): bv8 { ((inst << 52) >> 59) as bv8 }

  function OperandCrs1rd(inst: bv64): bv8 { ((inst << 52) >> 59) as bv8 }

  function OperandCrs2(inst: bv64): bv8 { ((inst << 57) >> 59) as bv8 }

  /** The register that a three-bit field names. */
  function ShortRegister(field: bv8): bv8 { field + 8 }

  /** The extractors read the fields that the instruction formats name. */
  lemma ExtractFields(inst: bv64)
    ensures OperandRd(inst) == RdAt(inst)
    ensures OperandRs1(inst) == Rs1At(inst)
    ensures OperandRs2(inst) == Rs2At(inst)
    ensures OperandRs3(inst) == Rs3At(inst)
    ensures OperandAq(inst) == AqAt(inst)
    ensures OperandRl(inst) == RlAt(inst)
    ensures OperandPred(inst) == PredAt(inst)
    ensures OperandSucc(inst) == SuccAt(inst)
    ensures OperandRm(inst) == RmAt(inst)
    ensures ShortRegister(OperandCrdq(inst)) == ShortLowAt(inst)
    ensures ShortRegister(OperandCrs1q(inst)) == ShortHighAt(inst)
    ensures ShortRegister(OperandCrs1rdq(inst)) == ShortHighAt(inst)
    ensures ShortRegister(OperandCrs2q(inst)) == ShortLowAt(inst)
    ensures OperandCrd(inst) == RdAt(inst)
    ensures OperandCrs1(inst) == RdAt(inst)
    ensures OperandCrs1rd(inst) == RdAt(inst)
    ensures OperandCrs2(inst) == CRs2At(inst)
  {}

  // ----- the record

  /** The 32-bit codecs without an immediate. */
  predicate IsRegisterCodec(codec: Codec) {
    match codec
    case CodecNone | CodecR | CodecRM | CodecR4M | CodecRA | CodecRL | CodecRF => true
    case _ => false
  }

  /** The compressed codecs with an immediate and the stack pointer as their base. */
  predicate IsStackCodec(codec: Codec) {
    match codec
    case CodecCI16sp | CodecCILwsp | CodecCILdsp | CodecCILqsp | CodecCIW4spn => true
    case _ => false
  }

  /** The codecs of the compressed shifts. */
  predicate IsShiftCodec(codec: Codec) {
    match codec
    case CodecCBSh5 | CodecCBSh6 | CodecCISh5 | CodecCISh6 => true
    case _ => false
  }

  class RvDecode {
    var pc: bv64
    var inst: bv64
    var imm: bv32
    var op: Op
    var codec: Codec
    var rd: bv8
    var rs1: bv8
    var rs2: bv8
    var rs3: bv8
    var rm: bv8
    var pred: bv8
    var succ: bv8
    var aq: bv8
    var rl: bv8

    function Args(): Operands
      reads `rd, `rs1, `rs2, `rs3, `rm, `pred, `succ, `aq, `rl, `imm
    {
      Operands(rd, rs1, rs2, rs3, rm, pred, succ, aq, rl, imm)
    }

    function View(): Decoded
      reads this
    {
      Decoded(pc, inst, op, codec, Args())
    }

    constructor (pc: bv64, inst: bv64)
      ensures View() == Start(pc, inst)
    {
      this.pc, this.inst, imm, op, codec := pc, inst, 0, Illegal, CodecIllegal;
      rd, rs1, rs2, rs3, rm, pred, succ, aq, rl := 0, 0, 0, 0, 0, 0, 0, 0, 0;
    }

    method DecodeOpcode(isa: Isa)
      modifies `op
      ensures View() == WithOpcode(old(View()), isa)
    {
      op := OpcodeOf(inst, isa);
    }

    /** Looks up the codec and overwrites the operand fields that it reads. */
    method DecodeOperands()
      modifies `codec, `rd, `rs1, `rs2, `rs3, `rm, `pred, `succ, `aq, `rl, `imm
      ensures View() == WithOperands(old(View()))
    {
      hide WideOperandsOf, ShortAccessOf, CodecOf;
      codec := CodecOf(op);
      if IsRegisterCodec(codec) {
        DecodeRegisterOperands();
      } else if IsWideCodec(codec) {
        DecodeWideOperands();
      } else if IsShortAccess(codec) {
        DecodeShortAccesses();
      } else if IsStackCodec(codec) {
        DecodeStackImmediates();
      } else if IsShiftCodec(codec) {
        DecodeShortShifts();
      } else if codec != CodecIllegal {
        DecodeShortImmediates();
      } else {
        IllegalReadsNothing(inst, Args());
      }
    }

    /** Sets the registers and the immediate. */
    method SetOperands(rd: bv8, rs1: bv8, rs2: bv8, imm: bv32)
      modifies `rd, `rs1, `rs2, `imm
      ensures Args() == old(Args()).(rd := rd, rs1 := rs1, rs2 := rs2, imm := imm)
    {
      this.rd, this.rs1, this.rs2, this.imm := rd, rs1, rs2, imm;
    }

    method SetThirdSource(rs3: bv8)
      modifies `rs3
      ensures Args() == old(Args()).(rs3 := rs3)
    {
      this.rs3 := rs3;
    }

    method SetRounding(rm: bv8)
      modifies `rm
      ensures Args() == old(Args()).(rm := rm)
    {
      this.rm := rm;
    }

    method SetOrdering(aq: bv8, rl: bv8)
      modifies `aq, `rl
      ensures Args() == old(Args()).(aq := aq, rl := rl)
    {
      this.aq, this.rl := aq, rl;
    }

    method SetFence(pred: bv8, succ: bv8)
      modifies `pred, `succ
      ensures Args() == old(Args()).(pred := pred, succ := succ)
    {
      this.pred, this.succ := pred, succ;
    }

    /** The operands of the 32-bit codecs with an immediate. */
    method DecodeWideOperands()
      requires IsWideCodec(codec) && !IsRegisterCodec(codec)
      modifies `rd, `rs1, `rs2, `rs3, `rm, `pred, `succ, `aq, `rl, `imm
      ensures Args() == WideOperandsOf(codec, inst, old(Args()))
    {
      hide Args, OperandImm20, OperandJimm20, OperandImm12, OperandShamt5, OperandShamt6, OperandShamt7, OperandCsr12;
      hide OperandSimm12, OperandSbimm12;
      hide ShortRegister, OperandRd, OperandRs1, OperandRs2, OperandRs3, OperandRm, OperandAq, OperandRl, OperandPred;
      hide OperandSucc, OperandCrd, OperandCrs1, OperandCrs1rd, OperandCrs2, OperandCrdq, OperandCrs1q;
      hide OperandCrs1rdq, OperandCrs2q;
      hide ImmI, ImmU, ImmJ, ImmS, ImmB, ImmCsr, ImmShamt5, ImmShamt6, ImmShamt7, ImmCI, ImmC16sp, ImmCJ, ImmCB;
      hide ImmCLui, ImmCSh5, ImmCSh6;
      hide ImmC4spn, ImmCW, ImmCD, ImmCQ, ImmCLwsp, ImmCLdsp, ImmCLqsp, ImmCSwsp, ImmCSdsp, ImmCSqsp;
      hide RdAt, Rs1At, Rs2At, Rs3At, RmAt, AqAt, RlAt, PredAt, SuccAt, CRs2At, ShortLowAt, ShortHighAt;
      ExtractFields(inst);
      match codec {
        case CodecU =>
          ExtractU(inst);
          SetOperands(OperandRd(inst), 0, 0, OperandImm20(inst));
        case CodecUJ =>
          ExtractJ(inst);
          SetOperands(OperandRd(inst), 0, 0, OperandJimm20(inst));
        case CodecI =>
          ExtractI(inst);
          SetOperands(OperandRd(inst), OperandRs1(inst), 0, OperandImm12(inst));
        case CodecISh5 =>
          ExtractShamt5(inst);
          SetOperands(OperandRd(inst), OperandRs1(inst), 0, OperandShamt5(inst));
        case CodecISh6 =>
          ExtractShamt6(inst);
          SetOperands(OperandRd(inst), OperandRs1(inst), 0, OperandShamt6(inst));
        case CodecISh7 =>
          ExtractShamt7(inst);
          SetOperands(OperandRd(inst), OperandRs1(inst), 0, OperandShamt7(inst));
        case CodecICsr =>
          ExtractCsr(inst);
          SetOperands(OperandRd(inst), OperandRs1(inst), 0, OperandCsr12(inst));
        case CodecS =>
          ExtractS(inst);
          SetOperands(0, OperandRs1(inst), OperandRs2(inst), OperandSimm12(inst));
        case CodecSB =>
          ExtractB(inst);
          SetOperands(0, OperandRs1(inst), OperandRs2(inst), OperandSbimm12(inst));
      }
    }

    /** The operands of the 32-bit codecs without an immediate. */
    method DecodeRegisterOperands()
      requires IsRegisterCodec(codec)
      modifies `rd, `rs1, `rs2, `rs3, `rm, `pred, `succ, `aq, `rl, `imm
      ensures Args() == WideOperandsOf(codec, inst, old(Args()))
    {
      hide Args;
      hide OperandRd, OperandRs1, OperandRs2, OperandRs3, OperandRm, OperandAq, OperandRl, OperandPred, OperandSucc;
      hide RdAt, Rs1At, Rs2At, Rs3At, RmAt, AqAt, RlAt, PredAt, SuccAt;
      ExtractFields(inst);
      match codec {
        case CodecNone =>
          SetOperands(0, 0, 0, 0);
        case CodecR =>
          SetOperands(OperandRd(inst), OperandRs1(inst), OperandRs2(inst), 0);
        case CodecRM =>
          SetOperands(OperandRd(inst), OperandRs1(inst), OperandRs2(inst), 0);
          SetRounding(OperandRm(inst));
        case CodecR4M =>
          SetOperands(OperandRd(inst), OperandRs1(inst), OperandRs2(inst), 0);
          SetThirdSource(OperandRs3(inst));
          SetRounding(OperandRm(inst));
        case CodecRA =>
          SetOperands(OperandRd(inst), OperandRs1(inst), OperandRs2(inst), 0);
          SetOrdering(OperandAq(inst), OperandRl(inst));
        case CodecRL =>
          SetOperands(OperandRd(inst), OperandRs1(inst), 0, 0);
          SetOrdering(OperandAq(inst), OperandRl(inst));
        case CodecRF =>
          SetOperands(0, 0, 0, 0);
          SetFence(OperandPred(inst), OperandSucc(inst));
      }
    }

    /** The operands of the compressed codecs with an immediate, not relative to the stack pointer. */
    method DecodeShortImmediates()
      requires codec != CodecIllegal && !IsWideCodec(codec) && !IsShortAccess(codec)
      requires !IsStackCodec(codec) && !IsShiftCodec(codec)
      modifies `rd, `rs1, `rs2, `imm
      ensures Args() == ShortOperandsOf(codec, inst, old(Args()))
    {
      hide Args, OperandCimmb, OperandCimmi, OperandCimmsh5, OperandCimmsh6, OperandCimm16sp, OperandCimmlwsp;
      hide OperandCimmldsp, OperandCimmlqsp, OperandCimmui, OperandCimm4spn, OperandCimmj;
      hide ShortRegister, OperandRd, OperandRs1, OperandRs2, OperandRs3, OperandRm, OperandAq, OperandRl, OperandPred;
      hide OperandSucc, OperandCrd, OperandCrs1, OperandCrs1rd, OperandCrs2, OperandCrdq, OperandCrs1q;
      hide OperandCrs1rdq, OperandCrs2q;
      hide ImmI, ImmU, ImmJ, ImmS, ImmB, ImmCsr, ImmShamt5, ImmShamt6, ImmShamt7, ImmCI, ImmC16sp, ImmCJ, ImmCB;
      hide ImmCLui, ImmCSh5, ImmCSh6;
      hide ImmC4spn, ImmCW, ImmCD, ImmCQ, ImmCLwsp, ImmCLdsp, ImmCLqsp, ImmCSwsp, ImmCSdsp, ImmCSqsp;
      hide RdAt, Rs1At, Rs2At, Rs3At, RmAt, AqAt, RlAt, PredAt, SuccAt, CRs2At, ShortLowAt, ShortHighAt;
      ExtractFields(inst);
      match codec {
        case CodecCB =>
          ExtractCB(inst);
          SetOperands(0, ShortRegister(OperandCrs1q(inst)), 0, OperandCimmb(inst));
        case CodecCBImm =>
          ExtractCI(inst);
          SetOperands(ShortRegister(OperandCrs1rdq(inst)), ShortRegister(OperandCrs1rdq(inst)), 0, OperandCimmi(inst));
        case CodecCI =>
          ExtractCI(inst);
          SetOperands(OperandCrs1rd(inst), OperandCrs1rd(inst), 0, OperandCimmi(inst));
        case CodecCILi =>
          ExtractCI(inst);
          SetOperands(OperandCrd(inst), 0, 0, OperandCimmi(inst));
        case CodecCILui =>
          ExtractCLui(inst);
          SetOperands(OperandCrd(inst), 0, 0, OperandCimmui(inst));
        case CodecCINone =>
          SetOperands(0, 0, 0, 0);
        case CodecCJ =>
          ExtractCJ(inst);
          SetOperands(0, 0, 0, OperandCimmj(inst));
        case CodecCJJal =>
          ExtractCJ(inst);
          SetOperands(1, 0, 0, OperandCimmj(inst));
      }
    }

    /** The operands of the compressed shifts. */
    method DecodeShortShifts()
      requires IsShiftCodec(codec)
      modifies `rd, `rs1, `rs2, `imm
      ensures Args() == ShortOperandsOf(codec, inst, old(Args()))
    {
      hide Args, OperandCimmb, OperandCimmi, OperandCimmsh5, OperandCimmsh6, OperandCimm16sp, OperandCimmlwsp;
      hide OperandCimmldsp, OperandCimmlqsp, OperandCimmui, OperandCimm4spn, OperandCimmj;
      hide ShortRegister, OperandRd, OperandRs1, OperandRs2, OperandRs3, OperandRm, OperandAq, OperandRl, OperandPred;
      hide OperandSucc, OperandCrd, OperandCrs1, OperandCrs1rd, OperandCrs2, OperandCrdq, OperandCrs1q;
      hide OperandCrs1rdq, OperandCrs2q;
      hide ImmI, ImmU, ImmJ, ImmS, ImmB, ImmCsr, ImmShamt5, ImmShamt6, ImmShamt7, ImmCI, ImmC16sp, ImmCJ, ImmCB;
      hide ImmCLui, ImmCSh5, ImmCSh6;
      hide ImmC4spn, ImmCW, ImmCD, ImmCQ, ImmCLwsp, ImmCLdsp, ImmCLqsp, ImmCSwsp, ImmCSdsp, ImmCSqsp;
      hide RdAt, Rs1At, Rs2At, Rs3At, RmAt, AqAt, RlAt, PredAt, SuccAt, CRs2At, ShortLowAt, ShortHighAt;
      ExtractFields(inst);
      match codec {
        case CodecCBSh5 =>
          ExtractCSh5(inst);
          var rd := ShortRegister(OperandCrs1rdq(inst));
          SetOperands(rd, rd, 0, OperandCimmsh5(inst));
        case CodecCBSh6 =>
          ExtractCSh6(inst);
          var rd := ShortRegister(OperandCrs1rdq(inst));
          SetOperands(rd, rd, 0, OperandCimmsh6(inst));
        case CodecCISh5 =>
          ExtractCSh5(inst);
          SetOperands(OperandCrs1rd(inst), OperandCrs1rd(inst), 0, OperandCimmsh5(inst));
        case CodecCISh6 =>
          ExtractCSh6(inst);
          SetOperands(OperandCrs1rd(inst), OperandCrs1rd(inst), 0, OperandCimmsh6(inst));
      }
    }

    /** The operands of the compressed codecs with an immediate, relative to the stack pointer. */
    method DecodeStackImmediates()
      requires IsStackCodec(codec)
      modifies `rd, `rs1, `rs2, `imm
      ensures Args() == ShortOperandsOf(codec, inst, old(Args()))
    {
      hide Args, OperandCimmb, OperandCimmi, OperandCimmsh5, OperandCimmsh6, OperandCimm16sp, OperandCimmlwsp;
      hide OperandCimmldsp, OperandCimmlqsp, OperandCimmui, OperandCimm4spn, OperandCimmj;
      hide ShortRegister, OperandRd, OperandRs1, OperandRs2, OperandRs3, OperandRm, OperandAq, OperandRl, OperandPred;
      hide OperandSucc, OperandCrd, OperandCrs1, OperandCrs1rd, OperandCrs2, OperandCrdq, OperandCrs1q;
      hide OperandCrs1rdq, OperandCrs2q;
      hide ImmI, ImmU, ImmJ, ImmS, ImmB, ImmCsr, ImmShamt5, ImmShamt6, ImmShamt7, ImmCI, ImmC16sp, ImmCJ, ImmCB;
      hide ImmCLui, ImmCSh5, ImmCSh6;
      hide ImmC4spn, ImmCW, ImmCD, ImmCQ, ImmCLwsp, ImmCLdsp, ImmCLqsp, ImmCSwsp, ImmCSdsp, ImmCSqsp;
      hide RdAt, Rs1At, Rs2At, Rs3At, RmAt, AqAt, RlAt, PredAt, SuccAt, CRs2At, ShortLowAt, ShortHighAt;
      ExtractFields(inst);
      match codec {
        case CodecCI16sp =>
          ExtractC16sp(inst);
          SetOperands(2, 2, 0, OperandCimm16sp(inst));
        case CodecCILwsp =>
          ExtractCLwsp(inst);
          SetOperands(OperandCrd(inst), 2, 0, OperandCimmlwsp(inst));
        case CodecCILdsp =>
          ExtractCLdsp(inst);
          SetOperands(OperandCrd(inst), 2, 0, OperandCimmldsp(inst));
        case CodecCILqsp =>
          ExtractCLqsp(inst);
          SetOperands(OperandCrd(inst), 2, 0, OperandCimmlqsp(inst));
        case CodecCIW4spn =>
          ExtractC4spn(inst);
          SetOperands(ShortRegister(OperandCrdq(inst)), 2, 0, OperandCimm4spn(inst));
      }
    }

    /** The operands of the compressed loads, stores and register operations. */
    method DecodeShortAccesses()
      requires IsShortAccess(codec)
      modifies `rd, `rs1, `rs2, `imm
      ensures Args() == ShortAccessOf(codec, inst, old(Args()))
    {
      hide Args, OperandCimmw, OperandCimmd, OperandCimmq, OperandCimmswsp, OperandCimmsdsp, OperandCimmsqsp;
      hide ShortRegister, OperandRd, OperandRs1, OperandRs2, OperandRs3, OperandRm, OperandAq, OperandRl, OperandPred;
      hide OperandSucc, OperandCrd, OperandCrs1, OperandCrs1rd, OperandCrs2, OperandCrdq, OperandCrs1q;
      hide OperandCrs1rdq, OperandCrs2q;
      hide ImmI, ImmU, ImmJ, ImmS, ImmB, ImmCsr, ImmShamt5, ImmShamt6, ImmShamt7, ImmCI, ImmC16sp, ImmCJ, ImmCB;
      hide ImmCLui, ImmCSh5, ImmCSh6;
      hide ImmC4spn, ImmCW, ImmCD, ImmCQ, ImmCLwsp, ImmCLdsp, ImmCLqsp, ImmCSwsp, ImmCSdsp, ImmCSqsp;
      hide RdAt, Rs1At, Rs2At, Rs3At, RmAt, AqAt, RlAt, PredAt, SuccAt, CRs2At, ShortLowAt, ShortHighAt;
      ExtractFields(inst);
      match codec {
        case CodecCLLw =>
          ExtractCW(inst);
          SetOperands(ShortRegister(OperandCrdq(inst)), ShortRegister(OperandCrs1q(inst)), 0, OperandCimmw(inst));
        case CodecCLLd =>
          ExtractCD(inst);
          SetOperands(ShortRegister(OperandCrdq(inst)), ShortRegister(OperandCrs1q(inst)), 0, OperandCimmd(inst));
        case CodecCLLq =>
          ExtractCQ(inst);
          SetOperands(ShortRegister(OperandCrdq(inst)), ShortRegister(OperandCrs1q(inst)), 0, OperandCimmq(inst));
        case CodecCR =>
          SetOperands(OperandCrs1rd(inst), OperandCrs1rd(inst), OperandCrs2(inst), 0);
        case CodecCRMv =>
          SetOperands(OperandCrd(inst), OperandCrs2(inst), 0, 0);
        case CodecCRJalr =>
          SetOperands(1, OperandCrs1(inst), 0, 0);
        case CodecCRJr =>
          SetOperands(0, OperandCrs1(inst), 0, 0);
        case CodecCS =>
          var rd := ShortRegister(OperandCrs1rdq(inst));
          SetOperands(rd, rd, ShortRegister(OperandCrs2q(inst)), 0);
        case CodecCSSw =>
          ExtractCW(inst);
          SetOperands(0, ShortRegister(OperandCrs1q(inst)), ShortRegister(OperandCrs2q(inst)), OperandCimmw(inst));
        case CodecCSSd =>
          ExtractCD(inst);
          SetOperands(0, ShortRegister(OperandCrs1q(inst)), ShortRegister(OperandCrs2q(inst)), OperandCimmd(inst));
        case CodecCSSq =>
          ExtractCQ(inst);
          SetOperands(0, ShortRegister(OperandCrs1q(inst)), ShortRegister(OperandCrs2q(inst)), OperandCimmq(inst));
        case CodecCSSSwsp =>
          ExtractCSwsp(inst);
          SetOperands(0, 2, OperandCrs2(inst), OperandCimmswsp(inst));
        case CodecCSSSdsp =>
          ExtractCSdsp(inst);
          SetOperands(0, 2, OperandCrs2(inst), OperandCimmsdsp(inst));
        case CodecCSSSqsp =>
          ExtractCSqsp(inst);
          SetOperands(0, 2, OperandCrs2(inst), OperandCimmsqsp(inst));
      }
    }

    /** Replaces a compressed opcode by the 32-bit one in its column, or makes it illegal. */
    method Decompress(isa: Isa)
      modifies `op, `codec
      ensures View() == Decoding.Decompress(old(View()), isa)
    {
      if op.Compressed? {
        var column := DecompressesTo(op.short, isa);
        if column.Some? {
          if NeedsNonZeroImm(op.short) && imm == 0 {
            op := Illegal;
          } else {
            op := Wide(column.value);
            codec := CodecOf(op);
          }
        }
      }
    }

    /** Whether the operands satisfy every constraint; the scan stops at the first that fails. */
    method CheckConstraints(constraints: seq<Constraint>) returns (ok: bool)
      ensures ok <==> AllHold(constraints, Args())
    {
      var k := 0;
      while k < |constraints|
        invariant 0 <= k <= |constraints|
        invariant forall j :: 0 <= j < k ==> Holds(constraints[j], Args())
      {
        if !Holds(constraints[k], Args()) {
          return false;
        }
        k := k + 1;
      }
      return true;
    }

    /** Replaces the opcode by the first candidate whose constraints all hold. */
    method LiftPseudo()
      modifies `op, `codec
      ensures View() == Lift(old(View()))
      ensures old(op).Wide? ==>
        forall p :: op == Pseudo(p) <==>
          old(op) == Wide(BaseOf(p)) && Condition(p, old(Args())) && !Preceded(p, old(Args()))
    {
      hide AllHold, ConstraintsOf, Candidates, PseudoCodec, Condition, Preceded, BaseOf;
      ghost var before := View();
      forall p | before.op.Wide?
        ensures Lift(before).op == Pseudo(p) <==>
          before.op == Wide(BaseOf(p)) && Condition(p, before.args) && !Preceded(p, before.args)
      {
        LiftsExactly(before, p);
      }
      if !op.Wide? {
        return;
      }
      var candidates := Candidates(op.wide);
      var k := 0;
      assert candidates[0..] == candidates;
      while k < |candidates|
        invariant 0 <= k <= |candidates|
        invariant op == old(op) && codec == old(codec)
        invariant FirstMatch(candidates, Args()) == FirstMatch(candidates[k..], Args())
      {
        assert candidates[k..][1..] == candidates[k + 1..];
        var ok := CheckConstraints(ConstraintsOf(candidates[k]));
        if ok {
          op := Pseudo(candidates[k]);
          codec := CodecOf(op);
          return;
        }
        k := k + 1;
      }
    }
  }

  lemma IllegalReadsNothing(inst: bv64, before: Operands)
    ensures OperandsOf(CodecIllegal, inst, before) == before
  {}

  // ----- the text

  lemma CompressedNamesHaveNoNul(op: CompressedOp)
    ensures '\0' !in CompressedName(op)
  {}

  lemma NamesHaveNoNul(op: Op)
    ensures '\0' !in NameOf(op)
  {
    hide WideName, PseudoName, CompressedName;
    if op.Compressed? {
      CompressedNamesHaveNoNul(op.short);
    } else {
      PrintedNamesAreMnemonics(op);
    }
  }

  /** Nothing that a single append adds holds the string terminator. */
  lemma DirectiveHasNoNul(c: char, tab: nat, d: Decoded, csr: CsrNames, col: nat)
    requires IsText(c) && InTables(d.args) && GoodCsrNames(csr)
    ensures '\0' !in Directive(c, tab, d, csr, col)
  {
    hide NameOf, IregName, FregName, Decimal, CsrText, RoundingText, FenceText, Value, GoodCsrNames;
    NamesHaveNoNul(d.op);
    RegistersAreText(d.args.rd);
    RegistersAreText(d.args.rs1);
    RegistersAreText(d.args.rs2);
    RegistersAreText(d.args.rs3);
    ValueBounds(d.args.imm);
    NumbersAreText(Value(d.args.imm));
    NumbersAreText(d.args.rs1 as int);
    CsrIsText(csr, d.args.imm);
    LettersAreText(d.args.rm);
  }

  /** Appends the letters of a fence set, one at a time. */
  method AppendFence(buf: array<char>, bits: bv8, n: nat, ghost s: string)
    requires Contains(buf, s) && |AppendedFence(s, bits, n)| < buf.Length
    modifies buf
    ensures Contains(buf, AppendedFence(s, bits, n))
  {
    hide Appended;
    ghost var i := AppendedLetter(s, bits, 8, "i", n);
    ghost var o := AppendedLetter(i, bits, 4, "o", n);
    ghost var r := AppendedLetter(o, bits, 2, "r", n);
    AppendGrows(s, "i", n);
    AppendGrows(i, "o", n);
    AppendGrows(o, "r", n);
    AppendGrows(r, "w", n);
    if bits & 8 != 0 {
      Append(buf, "i", n, s);
    }
    if bits & 4 != 0 {
      Append(buf, "o", n, i);
    }
    if bits & 2 != 0 {
      Append(buf, "r", n, o);
    }
    if bits & 1 != 0 {
      Append(buf, "w", n, r);
    }
  }

  lemma AppendGrows(s: string, t: string, n: nat)
    ensures |s| <= |Appended(s, t, n)|
  {}

  /** Appends an offset, blanks up to the second tab stop, and the target. */
  method AppendOffset(buf: array<char>, n: nat, tab: nat, pc: bv64, imm: bv32, ghost s: string)
    requires Contains(buf, s) && PaddingEnds(Appended(s, Decimal(Value(imm)), n), 2 * tab, n)
    requires |Appended(Padded(Appended(s, Decimal(Value(imm)), n), 2 * tab), TargetText(pc, imm), n)| < buf.Length
    modifies buf
    ensures Contains(buf, Appended(Padded(Appended(s, Decimal(Value(imm)), n), 2 * tab), TargetText(pc, imm), n))
    ensures TargetText(pc, imm) == "# 0x" + Hex((pc as int + Value(imm)) % WORD)
  {
    TargetShown(pc, imm);
    hide Appended, Decimal, TargetText, Value, PaddingEnds;
    ghost var offset := Appended(s, Decimal(Value(imm)), n);
    ghost var padded := Padded(offset, 2 * tab);
    AppendGrows(s, Decimal(Value(imm)), n);
    AppendGrows(padded, TargetText(pc, imm), n);
    ValueBounds(imm);
    NumbersAreText(Value(imm));
    TargetIsShort(pc, imm);
    Append(buf, Decimal(Value(imm)), n, s);
    Pad(buf, 2 * tab, n, offset);
    Append(buf, TargetText(pc, imm), n, padded);
  }

  /** The directives that print the name of an integer register. */
  method EmitIreg(buf: array<char>, c: char, n: nat, tab: nat, dec: RvDecode, csr: CsrNames, ghost s: string)
    requires '0' <= c <= '2'
    requires Contains(buf, s) && InTables(dec.Args()) && GoodCsrNames(csr)
    requires |Emitted(c, tab, dec.View(), csr, s, n)| < buf.Length
    modifies buf
    ensures Contains(buf, Emitted(c, tab, dec.View(), csr, s, n))
  {
    hide Contains, Appended, AppendedFence, Padded, NameOf, IregName, FregName, Decimal, CsrText, RoundingText;
    hide TargetText, Value, InTables, GoodCsrNames;
    DirectiveHasNoNul(c, tab, dec.View(), csr, |s|);
    match c {
      case '0' => Append(buf, IregName(dec.rd), n, s);
      case '1' => Append(buf, IregName(dec.rs1), n, s);
      case _ => Append(buf, IregName(dec.rs2), n, s);
    }
  }

  /** The directives that print the name of a floating-point register. */
  method EmitFreg(buf: array<char>, c: char, n: nat, tab: nat, dec: RvDecode, csr: CsrNames, ghost s: string)
    requires '3' <= c <= '6'
    requires Contains(buf, s) && InTables(dec.Args()) && GoodCsrNames(csr)
    requires |Emitted(c, tab, dec.View(), csr, s, n)| < buf.Length
    modifies buf
    ensures Contains(buf, Emitted(c, tab, dec.View(), csr, s, n))
  {
    hide Contains, Appended, AppendedFence, Padded, NameOf, IregName, FregName, Decimal, CsrText, RoundingText;
    hide TargetText, Value, InTables, GoodCsrNames;
    DirectiveHasNoNul(c, tab, dec.View(), csr, |s|);
    match c {
      case '3' => Append(buf, FregName(dec.rd), n, s);
      case '4' => Append(buf, FregName(dec.rs1), n, s);
      case '5' => Append(buf, FregName(dec.rs2), n, s);
      case _ => Append(buf, FregName(dec.rs3), n, s);
    }
  }

  /** The directives that print one other string. */
  method EmitText(buf: array<char>, c: char, n: nat, tab: nat, dec: RvDecode, csr: CsrNames, ghost s: string)
    requires IsText(c) && !('0' <= c <= '6')
    requires Contains(buf, s) && InTables(dec.Args()) && GoodCsrNames(csr)
    requires |Emitted(c, tab, dec.View(), csr, s, n)| < buf.Length
    modifies buf
    ensures Contains(buf, Emitted(c, tab, dec.View(), csr, s, n))
  {
    hide Contains, Appended, AppendedFence, Padded, NameOf, IregName, FregName, Decimal, CsrText, RoundingText;
    hide TargetText, Value, InTables, GoodCsrNames;
    DirectiveHasNoNul(c, tab, dec.View(), csr, |s|);
    match c {
      case 'O' => Append(buf, NameOf(dec.op), n, s);
      case '(' => Append(buf, "(", n, s);
      case ',' => Append(buf, ",", n, s);
      case ')' => Append(buf, ")", n, s);
      case '7' => Append(buf, Decimal(dec.rs1 as int), n, s);
      case 'i' => Append(buf, Decimal(Value(dec.imm)), n, s);
      case 'c' => Append(buf, CsrText(csr, dec.imm), n, s);
      case _ => Append(buf, RoundingText(dec.rm), n, s);
    }
  }

  /** Obeys one format directive. */
  method Emit(buf: array<char>, c: char, n: nat, tab: nat, dec: RvDecode, csr: CsrNames, ghost s: string)
    requires DirectiveEnds(c, tab, dec.View(), s, n)
    requires Contains(buf, s) && InTables(dec.Args()) && GoodCsrNames(csr)
    requires |Emitted(c, tab, dec.View(), csr, s, n)| < buf.Length
    modifies buf
    ensures Contains(buf, Emitted(c, tab, dec.View(), csr, s, n))
  {
    hide Contains, Appended, AppendedFence, Padded, NameOf, IregName, FregName, Decimal, CsrText, RoundingText;
    hide TargetText, Value, InTables, GoodCsrNames;
    if '0' <= c <= '2' {
      EmitIreg(buf, c, n, tab, dec, csr, s);
    } else if '3' <= c <= '6' {
      EmitFreg(buf, c, n, tab, dec, csr, s);
    } else if IsText(c) {
      EmitText(buf, c, n, tab, dec, csr, s);
    } else {
      match c {
        case 'o' => AppendOffset(buf, n, tab, dec.pc, dec.imm, s);
        case 'p' => AppendFence(buf, dec.pred, n, s);
        case 's' => AppendFence(buf, dec.succ, n, s);
        case '\t' => Pad(buf, tab, n, s);
        case 'A' =>
          if dec.aq != 0 {
            Append(buf, ".aq", n, s);
          }
        case 'R' =>
          if dec.rl != 0 {
            Append(buf, ".rl", n, s);
          }
        case _ =>
      }
    }
  }

  lemma EmitGrows(c: char, tab: nat, d: Decoded, csr: CsrNames, s: string, n: nat)
    ensures |s| <= |Emitted(c, tab, d, csr, s, n)|
  {
    hide Directive, Decimal, TargetText, Value;
  }

  lemma {:induction false} FormattedGrows(f: string, i: nat, tab: nat, d: Decoded, csr: CsrNames, s: string, n: nat)
    ensures |s| <= |Formatted(f, i, tab, d, csr, s, n)|
    decreases |f| - i
  {
    hide Emitted;
    if i < |f| {
      EmitGrows(f[i], tab, d, csr, s, n);
      FormattedGrows(f, i + 1, tab, d, csr, Emitted(f[i], tab, d, csr, s, n), n);
    }
  }

  /** Interprets the format of the opcode, whenever its padding loops end. */
  method FormatInto(buf: array<char>, n: nat, tab: nat, dec: RvDecode, csr: CsrNames)
    requires InTables(dec.Args()) && GoodCsrNames(csr)
    requires LoopEnds(FormatOf(dec.op), 0, tab, dec.View(), csr, "", n)
    requires |Formatted(FormatOf(dec.op), 0, tab, dec.View(), csr, "", n)| < buf.Length
    modifies buf
    ensures Contains(buf, Formatted(FormatOf(dec.op), 0, tab, dec.View(), csr, "", n))
    ensures tab == TAB && !dec.op.Compressed? && n > |LineText(dec.View(), csr)| ==>
      Contains(buf, LineText(dec.View(), csr))
  {
    hide Emitted, DirectiveEnds, FormatOf, InTables, GoodCsrNames;
    ghost var d := dec.View();
    buf[0] := '\0';
    var fmt := FormatOf(dec.op);
    ghost var s := "";
    var i := 0;
    while i < |fmt|
      invariant 0 <= i <= |fmt| && dec.View() == d
      invariant Contains(buf, s) && LoopEnds(fmt, i, tab, d, csr, s, n)
      invariant Formatted(fmt, i, tab, d, csr, s, n) == Formatted(fmt, 0, tab, d, csr, "", n)
    {
      ghost var t := Emitted(fmt[i], tab, d, csr, s, n);
      FormattedGrows(fmt, i + 1, tab, d, csr, t, n);
      Emit(buf, fmt[i], n, tab, dec, csr, s);
      s := t;
      i := i + 1;
    }
    if tab == TAB && !dec.op.Compressed? && n > |LineText(d, csr)| {
      LineFits(d, csr, n);
    }
  }

  lemma LineFits(d: Decoded, csr: CsrNames, n: nat)
    requires !d.op.Compressed? && n > |LineText(d, csr)|
    ensures Formatted(FormatOf(d.op), 0, TAB, d, csr, "", n) == LineText(d, csr)
  {
    hide LineText, PrintedText, FormatOf, Formatted;
    PrintsItsLine(d, csr);
    TextFits(d, csr, n);
  }

  /** The record of a word after all stages but the last. */
  function Final(pc: bv64, inst: bv64, isa: Isa): Decoded { Lift(Expand(pc, inst, isa)) }

  lemma FinalIsPrinted(pc: bv64, inst: bv64, isa: Isa)
    ensures !Final(pc, inst, isa).op.Compressed? && InTables(Final(pc, inst, isa).args)
  {
    hide Expand, InTables, FirstMatch, Candidates;
    NoCompressedOpSurvives(pc, inst, isa);
    OperandsStayInTables(pc, inst, isa);
  }

  /** The format loop of a word ends for exactly these sizes, whatever its address. */
  lemma DisassemblyEnds(pc: bv64, inst: bv64, isa: Isa, csr: CsrNames, n: nat)
    requires GoodCsrNames(csr)
    ensures LoopEnds(FormatOf(Final(pc, inst, isa).op), 0, TAB, Final(pc, inst, isa), csr, "", n)
       <==> n > TAB && (EndsInOffset(FormatOf(Final(pc, inst, isa).op)) ==> n > 2 * TAB)
  {
    hide Final, FormatOf, LoopEnds, EndsInOffset, InTables, GoodCsrNames;
    FinalIsPrinted(pc, inst, isa);
    EndsExactly(Final(pc, inst, isa), csr, n);
  }

  /**
   Disassembles one instruction.  The size must exceed one tab stop, and two for
   a text with an offset, or the padding does not end.  A text that is cut off
   within an operand fills the whole size and needs one more character for its
   terminator.
  */
  method DisasmInst(buf: array<char>, n: nat, isa: Isa, pc: bv64, inst: bv64, csr: CsrNames)
    requires n <= buf.Length && Ends(Final(pc, inst, isa), n) && GoodCsrNames(csr)
    requires Overruns(Final(pc, inst, isa), csr, n) ==> n < buf.Length
    modifies buf
    ensures Contains(buf, Formatted(FormatOf(Final(pc, inst, isa).op), 0, TAB, Final(pc, inst, isa), csr, "", n))
    ensures n > |Disassembled(pc, inst, isa, csr)| ==> Contains(buf, Disassembled(pc, inst, isa, csr))
    ensures Disassembled(pc, inst, isa, csr) == LineText(Final(pc, inst, isa), csr)
  {
    hide WithOpcode, WithOperands, Decoding.Decompress, Lift, FormatOf, Formatted, PrintedText, InTables, GoodCsrNames;
    hide Contains, LoopEnds, Overruns;
    var dec := new RvDecode(pc, inst);
    dec.DecodeOpcode(isa);
    dec.DecodeOperands();
    dec.Decompress(isa);
    dec.LiftPseudo();
    assert dec.View() == Final(pc, inst, isa);
    FinalIsPrinted(pc, inst, isa);
    PrintsItsLine(dec.View(), csr);
    EndsExactly(dec.View(), csr, n);
    OverrunExactly(dec.View(), csr, n);
    if n > |PrintedText(dec.View(), csr)| {
      TextFits(dec.View(), csr, n);
    }
    FormatInto(buf, n, TAB, dec, csr);
  }

  lemma TextFits(d: Decoded, csr: CsrNames, n: nat)
    requires n > |PrintedText(d, csr)|
    ensures Formatted(FormatOf(d.op), 0, TAB, d, csr, "", n) == PrintedText(d, csr)
  {
    hide FormatOf, Rendered, Formatted;
    FormattedFits(FormatOf(d.op), 0, TAB, d, csr, "", n);
  }

  /** The word of `jal ra, 0`. */
  const JAL: bv64 := 0xEF

  /** An address whose hexadecimal form has 16 digits. */
  const HIGH_PC: bv64 := 0xF000_0000_0000_0000

  /** The record of `jal ra, 0` ends in an offset. */
  lemma JalRecord(pc: bv64)
    ensures Final(pc, JAL, Rv32).op == Wide(Jal) && Final(pc, JAL, Rv32).args.imm == 0 && Final(pc, JAL, Rv32).pc == pc
    ensures EndsInOffset(FormatOf(Final(pc, JAL, Rv32).op))
  {
    assert OpcodeOf(JAL, Rv32) == Wide(Jal);
    assert RdAt(JAL) == 1 && ImmJ(JAL) == 0;
    hide OpcodeOf, RdAt, ImmJ, ShortOperandsOf, FirstMatch, Candidates;
    JalStays(pc, JAL, Rv32);
  }

  /** The text of `jal ra, 0` needs more than two tab stops; in a buffer of 64 characters its padding never ends. */
  lemma JalHangs64(pc: bv64, csr: CsrNames)
    requires GoodCsrNames(csr)
    ensures !LoopEnds(FormatOf(Final(pc, JAL, Rv32).op), 0, TAB, Final(pc, JAL, Rv32), csr, "", 64)
  {
    hide Final, LoopEnds, FormatOf, EndsInOffset, GoodCsrNames;
    JalRecord(pc);
    DisassemblyEnds(pc, JAL, Rv32, csr, 64);
  }

  /** The text of `jal ra, 0` at a high address has the greatest length. */
  lemma LongestText(csr: CsrNames)
    requires GoodCsrNames(csr)
    ensures |Disassembled(HIGH_PC, JAL, Rv32, csr)| == MAX_TEXT
  {
    hide Final, FormatOf, EndsInOffset, InTables, GoodCsrNames, PrintedText, Hex, Disassembled, Target;
    JalRecord(HIGH_PC);
    FinalIsPrinted(HIGH_PC, JAL, Rv32);
    DisassembledIsPrinted(HIGH_PC, JAL, Rv32, csr);
    LongTextPauses(Final(HIGH_PC, JAL, Rv32), csr, 2 * TAB);
    HighTarget();
  }

  lemma HighTarget()
    ensures |Hex(Target(HIGH_PC, 0) as int)| == 16
  {
    assert Target(HIGH_PC, 0) == HIGH_PC;
    hide Hex;
    LongHex(0xF000_0000_0000_0000);
  }

  /** Every size from 66 to the greatest length is overrun by some word at some address. */
  lemma JalOverruns(csr: CsrNames, n: nat)
    requires GoodCsrNames(csr) && 66 <= n <= MAX_TEXT
    ensures var d := Final(HIGH_PC, JAL, Rv32); |Formatted(FormatOf(d.op), 0, TAB, d, csr, "", n)| == n
  {
    hide Final, FormatOf, Formatted, EndsInOffset, InTables, GoodCsrNames, PrintedText, Overruns;
    JalRecord(HIGH_PC);
    FinalIsPrinted(HIGH_PC, JAL, Rv32);
    LongestText(csr);
    DisassembledIsPrinted(HIGH_PC, JAL, Rv32, csr);
    OverrunExactly(Final(HIGH_PC, JAL, Rv32), csr, n);
  }

  lemma DisassembledIsPrinted(pc: bv64, inst: bv64, isa: Isa, csr: CsrNames)
    ensures Disassembled(pc, inst, isa, csr) == PrintedText(Final(pc, inst, isa), csr)
  {
    hide Expand, Lift, PrintedText;
  }

  /** At every address a size of 66 is overrun by the text of `jal ra, 0`. */
  lemma JalOverruns66(pc: bv64, csr: CsrNames)
    requires GoodCsrNames(csr)
    ensures |Formatted(FormatOf(Final(pc, JAL, Rv32).op), 0, TAB, Final(pc, JAL, Rv32), csr, "", 66)| == 66
  {
    hide Final, FormatOf, Formatted, EndsInOffset, InTables, GoodCsrNames, PrintedText, Overruns, TargetText;
    JalRecord(pc);
    FinalIsPrinted(pc, JAL, Rv32);
    LongTextPauses(Final(pc, JAL, Rv32), csr, 2 * TAB);
    TargetIsShort(pc, 0);
    OverrunExactly(Final(pc, JAL, Rv32), csr, 66);
  }

  lemma JalStays(pc: bv64, inst: bv64, isa: Isa)
    requires OpcodeOf(inst, isa) == Wide(Jal) && RdAt(inst) != 0
    ensures Final(pc, inst, isa).op == Wide(Jal)
  {
    hide OpcodeOf, RdAt, ShortOperandsOf, ConstraintsOf, Candidates;
    LiftedFrom(Expand(pc, inst, isa));
  }

  /** The wrapper's call: a buffer of 128 characters always receives the whole text, from column 32 on the operands. */
  method DisasmInto128(buf: array<char>, isa: Isa, pc: bv64, inst: bv64, csr: CsrNames)
    requires buf.Length == 128 && GoodCsrNames(csr)
    modifies buf
    ensures Contains(buf, LineText(Final(pc, inst, isa), csr))
    ensures |LineText(Final(pc, inst, isa), csr)| <= MAX_TEXT
  {
    hide Disassembled, Contains, GoodCsrNames, Formatted, Final, FormatOf, EndsInOffset, PrintedText, OperandPieces;
    hide Pauses;
    DisassembledIsShort(pc, inst, isa, csr);
    DisassembledIsPrinted(pc, inst, isa, csr);
    DisasmInst(buf, 128, isa, pc, inst, csr);
  }

  lemma DisassembledIsShort(pc: bv64, inst: bv64, isa: Isa, csr: CsrNames)
    requires GoodCsrNames(csr)
    ensures TAB <= |Disassembled(pc, inst, isa, csr)| <= MAX_TEXT
  {
    hide Lift, Expand, PrintedText, InTables, GoodCsrNames;
    FinalIsPrinted(pc, inst, isa);
    TextIsShort(Final(pc, inst, isa), csr);
  }
}
