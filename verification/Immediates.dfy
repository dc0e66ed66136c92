/**
 Immediates.  Each extractor of the source is a chain of shifts over the 64-bit
 word.  Against it stands the layout that section 2.3 and chapter 16 of the
 RISC-V manual draw: which instruction bit holds which immediate bit, in both
 directions, and the range and alignment of the immediate.

 Each layout lemma says that the extractor computes the immediate of the manual,
 that the immediate is in range, and that an in-range immediate is extracted
 exactly from the words whose immediate bits are the ones it is placed at.
*/
module Immediates {

  function Trunc32(x: bv64): bv32 { (x & 0xFFFF_FFFF) as bv32 }

  /** 64 copies of one bit. */
  function Copies(bit: bv1): bv64 {
    var b1 := bit as bv64;
    var b2 := b1 | (b1 << 1);
    var b4 := b2 | (b2 << 2);
    var b8 := b4 | (b4 << 4);
    var b16 := b8 | (b8 << 8);
    var b32 := b16 | (b16 << 16);
    b32 | (b32 << 32)
  }

  /** The arithmetic right shift of a signed 64-bit value. */
  function Sar(x: bv64, n: bv7): bv64
    requires 0 < n < 64
  {
    (x >> n) | (Copies((x >> 63) as bv1) << (64 - n))
  }

  /** Instruction bits `from` and up, under a mask, placed at immediate bit `at`. */
  function Part(inst: bv64, from: bv7, mask: bv64, at: bv6): bv32
    requires from < 64 && at < 32
  {
    Trunc32((inst >> from) & mask) << at
  }

  /** Immediate bits `at` and up, under a mask, placed at instruction bit `from`. */
  function Unpart(imm: bv32, from: bv7, mask: bv32, at: bv6): bv64
    requires from < 64 && at < 32
  {
    (((imm >> at) & mask) as bv64) << from
  }

  /** Instruction bit 31 copied to immediate bits `at` and up. */
  function Sign31(inst: bv64, at: bv6): bv32
    requires at < 32
  {
    Trunc32(Copies(((inst >> 31) & 1) as bv1)) << at
  }

  /** Instruction bit 12 copied to immediate bits `at` and up. */
  function Sign12(inst: bv64, at: bv6): bv32
    requires at < 32
  {
    Trunc32(Copies(((inst >> 12) & 1) as bv1)) << at
  }

  /** All the bits under the mask are equal: a signed value whose sign bit is the lowest of them. */
  predicate SignBits(imm: bv32, high: bv32) {
    imm & high == 0 || imm & high == high
  }

  /** Two words hold the same bits under the mask. */
  predicate AgreeOn(mask: bv64, inst: bv64, other: bv64) {
    inst & mask == other & mask
  }

  // ----- imm[11:0] in bits 31:20

  function OperandImm12(inst: bv64): bv32 { Trunc32(Sar(inst << 32, 52)) }

  function ImmI(inst: bv64): bv32 { Sign31(inst, 12) | Part(inst, 20, 0xFFF, 0) }

  function PlaceI(imm: bv32): bv64 { Unpart(imm, 20, 0xFFF, 0) }

  predicate RangeI(imm: bv32) { SignBits(imm, 0xFFFF_F800) }

  lemma ExtractI(inst: bv64)
    ensures OperandImm12(inst) == ImmI(inst)
  {}

  lemma GatherI(inst: bv64)
    ensures RangeI(ImmI(inst))
    ensures PlaceI(ImmI(inst)) == inst & 0xFFF0_0000
  {}

  lemma ScatterI(imm: bv32)
    requires RangeI(imm)
    ensures ImmI(PlaceI(imm)) == imm
  {}

  // ----- imm[31:12] in bits 31:12

  function OperandImm20(inst: bv64): bv32 { Trunc32(Sar(inst << 32, 44) << 12) }

  function ImmU(inst: bv64): bv32 { Part(inst, 12, 0xFFFFF, 12) }

  function PlaceU(imm: bv32): bv64 { Unpart(imm, 12, 0xFFFFF, 12) }

  predicate RangeU(imm: bv32) { imm & 0xFFF == 0 }

  lemma ExtractU(inst: bv64)
    ensures OperandImm20(inst) == ImmU(inst)
  {}

  lemma GatherU(inst: bv64)
    ensures RangeU(ImmU(inst))
    ensures PlaceU(ImmU(inst)) == inst & 0xFFFF_F000
  {}

  lemma ScatterU(imm: bv32)
    requires RangeU(imm)
    ensures ImmU(PlaceU(imm)) == imm
  {}

  // ----- imm[20|10:1|11|19:12] in bits 31:12

  function OperandJimm20(inst: bv64): bv32 {
    Trunc32(
      (Sar(inst << 32, 63) << 20) | (((inst << 33) >> 54) << 1) |
      (((inst << 43) >> 63) << 11) | (((inst << 44) >> 56) << 12))
  }

  function ImmJ(inst: bv64): bv32 {
    Sign31(inst, 20) | Part(inst, 12, 0xFF, 12) | Part(inst, 20, 1, 11) | Part(inst, 21, 0x3FF, 1)
  }

  function PlaceJ(imm: bv32): bv64 {
    Unpart(imm, 31, 1, 20) | Unpart(imm, 12, 0xFF, 12) | Unpart(imm, 20, 1, 11) | Unpart(imm, 21, 0x3FF, 1)
  }

  predicate RangeJ(imm: bv32) { SignBits(imm, 0xFFF0_0000) && imm & 1 == 0 }

  lemma ExtractJ(inst: bv64)
    ensures OperandJimm20(inst) == ImmJ(inst)
  {}

  lemma GatherJ(inst: bv64)
    ensures RangeJ(ImmJ(inst))
    ensures PlaceJ(ImmJ(inst)) == inst & 0xFFFF_F000
  {}

  lemma ScatterJ(imm: bv32)
    requires RangeJ(imm)
    ensures ImmJ(PlaceJ(imm)) == imm
  {}

  // ----- imm[11:5] in bits 31:25, imm[4:0] in bits 11:7

  function OperandSimm12(inst: bv64): bv32 { Trunc32((Sar(inst << 32, 57) << 5) | ((inst << 52) >> 59)) }

  function ImmS(inst: bv64): bv32 { Sign31(inst, 12) | Part(inst, 25, 0x7F, 5) | Part(inst, 7, 0x1F, 0) }

  function PlaceS(imm: bv32): bv64 { Unpart(imm, 25, 0x7F, 5) | Unpart(imm, 7, 0x1F, 0) }

  predicate RangeS(imm: bv32) { SignBits(imm, 0xFFFF_F800) }

  lemma ExtractS(inst: bv64)
    ensures OperandSimm12(inst) == ImmS(inst)
  {}

  lemma GatherS(inst: bv64)
    ensures RangeS(ImmS(inst))
    ensures PlaceS(ImmS(inst)) == inst & 0xFE00_0F80
  {}

  lemma ScatterS(imm: bv32)
    requires RangeS(imm)
    ensures ImmS(PlaceS(imm)) == imm
  {}

  // ----- imm[12|10:5] in bits 31:25, imm[4:1|11] in bits 11:7

  function OperandSbimm12(inst: bv64): bv32 {
    Trunc32(
      (Sar(inst << 32, 63) << 12) | (((inst << 33) >> 58) << 5) |
      (((inst << 52) >> 60) << 1) | (((inst << 56) >> 63) << 11))
  }

  function ImmB(inst: bv64): bv32 {
    Sign31(inst, 12) | Part(inst, 7, 1, 11) | Part(inst, 25, 0x3F, 5) | Part(inst, 8, 0xF, 1)
  }

  function PlaceB(imm: bv32): bv64 {
    Unpart(imm, 31, 1, 12) | Unpart(imm, 7, 1, 11) | Unpart(imm, 25, 0x3F, 5) | Unpart(imm, 8, 0xF, 1)
  }

  predicate RangeB(imm: bv32) { SignBits(imm, 0xFFFF_F000) && imm & 1 == 0 }

  lemma ExtractB(inst: bv64)
    ensures OperandSbimm12(inst) == ImmB(inst)
  {}

  lemma GatherB(inst: bv64)
    ensures RangeB(ImmB(inst))
    ensures PlaceB(ImmB(inst)) == inst & 0xFE00_0F80
  {}

  lemma ScatterB(imm: bv32)
    requires RangeB(imm)
    ensures ImmB(PlaceB(imm)) == imm
  {}

  // ----- shamt[4:0] in bits 24:20

  function OperandShamt5(inst: bv64): bv32 { Trunc32((inst << 39) >> 59) }

  function ImmShamt5(inst: bv64): bv32 { Part(inst, 20, 0x1F, 0) }

  function PlaceShamt5(imm: bv32): bv64 { Unpart(imm, 20, 0x1F, 0) }

  predicate RangeShamt5(imm: bv32) { imm < 32 }

  lemma ExtractShamt5(inst: bv64)
    ensures OperandShamt5(inst) == ImmShamt5(inst)
  {}

  lemma GatherShamt5(inst: bv64)
    ensures RangeShamt5(ImmShamt5(inst))
    ensures PlaceShamt5(ImmShamt5(inst)) == inst & 0x01F0_0000
  {}

  lemma ScatterShamt5(imm: bv32)
    requires RangeShamt5(imm)
    ensures ImmShamt5(PlaceShamt5(imm)) == imm
  {}

  // ----- shamt[5:0] in bits 25:20

  function OperandShamt6(inst: bv64): bv32 { Trunc32((inst << 38) >> 58) }

  function ImmShamt6(inst: bv64): bv32 { Part(inst, 20, 0x3F, 0) }

  function PlaceShamt6(imm: bv32): bv64 { Unpart(imm, 20, 0x3F, 0) }

  predicate RangeShamt6(imm: bv32) { imm < 64 }

  lemma ExtractShamt6(inst: bv64)
    ensures OperandShamt6(inst) == ImmShamt6(inst)
  {}

  lemma GatherShamt6(inst: bv64)
    ensures RangeShamt6(ImmShamt6(inst))
    ensures PlaceShamt6(ImmShamt6(inst)) == inst & 0x03F0_0000
  {}

  lemma ScatterShamt6(imm: bv32)
    requires RangeShamt6(imm)
    ensures ImmShamt6(PlaceShamt6(imm)) == imm
  {}

  // ----- shamt[6:0] in bits 26:20

  function OperandShamt7(inst: bv64): bv32 { Trunc32((inst << 37) >> 57) }

  function ImmShamt7(inst: bv64): bv32 { Part(inst, 20, 0x7F, 0) }

  function PlaceShamt7(imm: bv32): bv64 { Unpart(imm, 20, 0x7F, 0) }

  predicate RangeShamt7(imm: bv32) { imm < 128 }

  lemma ExtractShamt7(inst: bv64)
    ensures OperandShamt7(inst) == ImmShamt7(inst)
  {}

  lemma GatherShamt7(inst: bv64)
    ensures RangeShamt7(ImmShamt7(inst))
    ensures PlaceShamt7(ImmShamt7(inst)) == inst & 0x07F0_0000
  {}

  lemma ScatterShamt7(imm: bv32)
    requires RangeShamt7(imm)
    ensures ImmShamt7(PlaceShamt7(imm)) == imm
  {}

  // ----- csr[11:0] in bits 31:20

  function OperandCsr12(inst: bv64): bv32 { Trunc32((inst << 32) >> 52) }

  function ImmCsr(inst: bv64): bv32 { Part(inst, 20, 0xFFF, 0) }

  function PlaceCsr(imm: bv32): bv64 { Unpart(imm, 20, 0xFFF, 0) }

  predicate RangeCsr(imm: bv32) { imm < 0x1000 }

  lemma ExtractCsr(inst: bv64)
    ensures OperandCsr12(inst) == ImmCsr(inst)
  {}

  lemma GatherCsr(inst: bv64)
    ensures RangeCsr(ImmCsr(inst))
    ensures PlaceCsr(ImmCsr(inst)) == inst & 0xFFF0_0000
  {}

  lemma ScatterCsr(imm: bv32)
    requires RangeCsr(imm)
    ensures ImmCsr(PlaceCsr(imm)) == imm
  {}

  // ----- shamt[4:0] in bits 6:2

  function OperandCimmsh5(inst: bv64): bv32 { Trunc32((inst << 57) >> 59) }

  function ImmCSh5(inst: bv64): bv32 { Part(inst, 2, 0x1F, 0) }

  function PlaceCSh5(imm: bv32): bv64 { Unpart(imm, 2, 0x1F, 0) }

  predicate RangeCSh5(imm: bv32) { imm < 32 }

  lemma ExtractCSh5(inst: bv64)
    ensures OperandCimmsh5(inst) == ImmCSh5(inst)
  {}

  lemma GatherCSh5(inst: bv64)
    ensures RangeCSh5(ImmCSh5(inst))
    ensures PlaceCSh5(ImmCSh5(inst)) == inst & 0x007C
  {}

  lemma ScatterCSh5(imm: bv32)
    requires RangeCSh5(imm)
    ensures ImmCSh5(PlaceCSh5(imm)) == imm
  {}

  lemma DependsCSh5(inst: bv64, other: bv64)
    requires AgreeOn(0x007C, inst, other)
    ensures ImmCSh5(inst) == ImmCSh5(other)
  {
    hide ImmCSh5, PlaceCSh5, RangeCSh5;
    GatherCSh5(inst);
    GatherCSh5(other);
    ScatterCSh5(ImmCSh5(inst));
    ScatterCSh5(ImmCSh5(other));
  }

  // ----- shamt[5] in bit 12, shamt[4:0] in bits 6:2

  function OperandCimmsh6(inst: bv64): bv32 { Trunc32((((inst << 51) >> 63) << 5) | ((inst << 57) >> 59)) }

  function ImmCSh6(inst: bv64): bv32 { Part(inst, 12, 1, 5) | Part(inst, 2, 0x1F, 0) }

  function PlaceCSh6(imm: bv32): bv64 { Unpart(imm, 12, 1, 5) | Unpart(imm, 2, 0x1F, 0) }

  predicate RangeCSh6(imm: bv32) { imm < 64 }

  lemma ExtractCSh6(inst: bv64)
    ensures OperandCimmsh6(inst) == ImmCSh6(inst)
  {}

  lemma GatherCSh6(inst: bv64)
    ensures RangeCSh6(ImmCSh6(inst))
    ensures PlaceCSh6(ImmCSh6(inst)) == inst & 0x107C
  {}

  lemma ScatterCSh6(imm: bv32)
    requires RangeCSh6(imm)
    ensures ImmCSh6(PlaceCSh6(imm)) == imm
  {}

  lemma DependsCSh6(inst: bv64, other: bv64)
    requires AgreeOn(0x107C, inst, other)
    ensures ImmCSh6(inst) == ImmCSh6(other)
  {
    hide ImmCSh6, PlaceCSh6, RangeCSh6;
    GatherCSh6(inst);
    GatherCSh6(other);
    ScatterCSh6(ImmCSh6(inst));
    ScatterCSh6(ImmCSh6(other));
  }

  // ----- imm[5] in bit 12, imm[4:0] in bits 6:2

  function OperandCimmi(inst: bv64): bv32 { Trunc32((Sar(inst << 51, 63) << 5) | ((inst << 57) >> 59)) }

  function ImmCI(inst: bv64): bv32 { Sign12(inst, 5) | Part(inst, 2, 0x1F, 0) }

  function PlaceCI(imm: bv32): bv64 { Unpart(imm, 12, 1, 5) | Unpart(imm, 2, 0x1F, 0) }

  predicate RangeCI(imm: bv32) { SignBits(imm, 0xFFFF_FFE0) }

  lemma ExtractCI(inst: bv64)
    ensures OperandCimmi(inst) == ImmCI(inst)
  {}

  lemma GatherCI(inst: bv64)
    ensures RangeCI(ImmCI(inst))
    ensures PlaceCI(ImmCI(inst)) == inst & 0x107C
  {}

  lemma ScatterCI(imm: bv32)
    requires RangeCI(imm)
    ensures ImmCI(PlaceCI(imm)) == imm
  {}

  lemma DependsCI(inst: bv64, other: bv64)
    requires AgreeOn(0x107C, inst, other)
    ensures ImmCI(inst) == ImmCI(other)
  {
    hide ImmCI, PlaceCI, RangeCI;
    GatherCI(inst);
    GatherCI(other);
    ScatterCI(ImmCI(inst));
    ScatterCI(ImmCI(other));
  }

  // ----- imm[17] in bit 12, imm[16:12] in bits 6:2

  function OperandCimmui(inst: bv64): bv32 { Trunc32((Sar(inst << 51, 63) << 17) | (((inst << 57) >> 59) << 12)) }

  function ImmCLui(inst: bv64): bv32 { Sign12(inst, 17) | Part(inst, 2, 0x1F, 12) }

  function PlaceCLui(imm: bv32): bv64 { Unpart(imm, 12, 1, 17) | Unpart(imm, 2, 0x1F, 12) }

  predicate RangeCLui(imm: bv32) { SignBits(imm, 0xFFFE_0000) && imm & 0xFFF == 0 }

  lemma ExtractCLui(inst: bv64)
    ensures OperandCimmui(inst) == ImmCLui(inst)
  {}

  lemma GatherCLui(inst: bv64)
    ensures RangeCLui(ImmCLui(inst))
    ensures PlaceCLui(ImmCLui(inst)) == inst & 0x107C
  {}

  lemma ScatterCLui(imm: bv32)
    requires RangeCLui(imm)
    ensures ImmCLui(PlaceCLui(imm)) == imm
  {}

  lemma DependsCLui(inst: bv64, other: bv64)
    requires AgreeOn(0x107C, inst, other)
    ensures ImmCLui(inst) == ImmCLui(other)
  {
    hide ImmCLui, PlaceCLui, RangeCLui;
    GatherCLui(inst);
    GatherCLui(other);
    ScatterCLui(ImmCLui(inst));
    ScatterCLui(ImmCLui(other));
  }

  // ----- imm[5] in bit 12, imm[4:2|7:6] in bits 6:2

  function OperandCimmlwsp(inst: bv64): bv32 {
    Trunc32((((inst << 51) >> 63) << 5) | (((inst << 57) >> 61) << 2) | (((inst << 60) >> 62) << 6))
  }

  function ImmCLwsp(inst: bv64): bv32 { Part(inst, 2, 3, 6) | Part(inst, 12, 1, 5) | Part(inst, 4, 7, 2) }

  function PlaceCLwsp(imm: bv32): bv64 { Unpart(imm, 2, 3, 6) | Unpart(imm, 12, 1, 5) | Unpart(imm, 4, 7, 2) }

  predicate RangeCLwsp(imm: bv32) { imm < 256 && imm & 3 == 0 }

  lemma ExtractCLwsp(inst: bv64)
    ensures OperandCimmlwsp(inst) == ImmCLwsp(inst)
  {}

  lemma GatherCLwsp(inst: bv64)
    ensures RangeCLwsp(ImmCLwsp(inst))
    ensures PlaceCLwsp(ImmCLwsp(inst)) == inst & 0x107C
  {}

  lemma ScatterCLwsp(imm: bv32)
    requires RangeCLwsp(imm)
    ensures ImmCLwsp(PlaceCLwsp(imm)) == imm
  {}

  lemma DependsCLwsp(inst: bv64, other: bv64)
    requires AgreeOn(0x107C, inst, other)
    ensures ImmCLwsp(inst) == ImmCLwsp(other)
  {
    hide ImmCLwsp, PlaceCLwsp, RangeCLwsp;
    GatherCLwsp(inst);
    GatherCLwsp(other);
    ScatterCLwsp(ImmCLwsp(inst));
    ScatterCLwsp(ImmCLwsp(other));
  }

  // ----- imm[5] in bit 12, imm[4:3|8:6] in bits 6:2

  function OperandCimmldsp(inst: bv64): bv32 {
    Trunc32((((inst << 51) >> 63) << 5) | (((inst << 57) >> 62) << 3) | (((inst << 59) >> 61) << 6))
  }

  function ImmCLdsp(inst: bv64): bv32 { Part(inst, 2, 7, 6) | Part(inst, 12, 1, 5) | Part(inst, 5, 3, 3) }

  function PlaceCLdsp(imm: bv32): bv64 { Unpart(imm, 2, 7, 6) | Unpart(imm, 12, 1, 5) | Unpart(imm, 5, 3, 3) }

  predicate RangeCLdsp(imm: bv32) { imm < 512 && imm & 7 == 0 }

  lemma ExtractCLdsp(inst: bv64)
    ensures OperandCimmldsp(inst) == ImmCLdsp(inst)
  {}

  lemma GatherCLdsp(inst: bv64)
    ensures RangeCLdsp(ImmCLdsp(inst))
    ensures PlaceCLdsp(ImmCLdsp(inst)) == inst & 0x107C
  {}

  lemma ScatterCLdsp(imm: bv32)
    requires RangeCLdsp(imm)
    ensures ImmCLdsp(PlaceCLdsp(imm)) == imm
  {}

  lemma DependsCLdsp(inst: bv64, other: bv64)
    requires AgreeOn(0x107C, inst, other)
    ensures ImmCLdsp(inst) == ImmCLdsp(other)
  {
    hide ImmCLdsp, PlaceCLdsp, RangeCLdsp;
    GatherCLdsp(inst);
    GatherCLdsp(other);
    ScatterCLdsp(ImmCLdsp(inst));
    ScatterCLdsp(ImmCLdsp(other));
  }

  // ----- imm[5] in bit 12, imm[4|9:6] in bits 6:2

  function OperandCimmlqsp(inst: bv64): bv32 {
    Trunc32((((inst << 51) >> 63) << 5) | (((inst << 57) >> 63) << 4) | (((inst << 58) >> 60) << 6))
  }

  function ImmCLqsp(inst: bv64): bv32 { Part(inst, 2, 0xF, 6) | Part(inst, 12, 1, 5) | Part(inst, 6, 1, 4) }

  function PlaceCLqsp(imm: bv32): bv64 { Unpart(imm, 2, 0xF, 6) | Unpart(imm, 12, 1, 5) | Unpart(imm, 6, 1, 4) }

  predicate RangeCLqsp(imm: bv32) { imm < 1024 && imm & 0xF == 0 }

  lemma ExtractCLqsp(inst: bv64)
    ensures OperandCimmlqsp(inst) == ImmCLqsp(inst)
  {}

  lemma GatherCLqsp(inst: bv64)
    ensures RangeCLqsp(ImmCLqsp(inst))
    ensures PlaceCLqsp(ImmCLqsp(inst)) == inst & 0x107C
  {}

  lemma ScatterCLqsp(imm: bv32)
    requires RangeCLqsp(imm)
    ensures ImmCLqsp(PlaceCLqsp(imm)) == imm
  {}

  lemma DependsCLqsp(inst: bv64, other: bv64)
    requires AgreeOn(0x107C, inst, other)
    ensures ImmCLqsp(inst) == ImmCLqsp(other)
  {
    hide ImmCLqsp, PlaceCLqsp, RangeCLqsp;
    GatherCLqsp(inst);
    GatherCLqsp(other);
    ScatterCLqsp(ImmCLqsp(inst));
    ScatterCLqsp(ImmCLqsp(other));
  }

  // ----- imm[9] in bit 12, imm[4|6|8:7|5] in bits 6:2

  function OperandCimm16sp(inst: bv64): bv32 {
    Trunc32(
      (Sar(inst << 51, 63) << 9) | (((inst << 57) >> 63) << 4) | (((inst << 58) >> 63) << 6) |
      (((inst << 59) >> 62) << 7) | (((inst << 61) >> 63) << 5))
  }

  function ImmC16sp(inst: bv64): bv32 {
    Sign12(inst, 9) | Part(inst, 3, 3, 7) | Part(inst, 5, 1, 6) | Part(inst, 2, 1, 5) | Part(inst, 6, 1, 4)
  }

  function PlaceC16sp(imm: bv32): bv64 {
    Unpart(imm, 12, 1, 9) | Unpart(imm, 3, 3, 7) | Unpart(imm, 5, 1, 6) | Unpart(imm, 2, 1, 5) | Unpart(imm, 6, 1, 4)
  }

  predicate RangeC16sp(imm: bv32) { SignBits(imm, 0xFFFF_FE00) && imm & 0xF == 0 }

  lemma ExtractC16sp(inst: bv64)
    ensures OperandCimm16sp(inst) == ImmC16sp(inst)
  {}

  lemma GatherC16sp(inst: bv64)
    ensures RangeC16sp(ImmC16sp(inst))
    ensures PlaceC16sp(ImmC16sp(inst)) == inst & 0x107C
  {}

  lemma ScatterC16sp(imm: bv32)
    requires RangeC16sp(imm)
    ensures ImmC16sp(PlaceC16sp(imm)) == imm
  {}

  lemma DependsC16sp(inst: bv64, other: bv64)
    requires AgreeOn(0x107C, inst, other)
    ensures ImmC16sp(inst) == ImmC16sp(other)
  {
    hide ImmC16sp, PlaceC16sp, RangeC16sp;
    GatherC16sp(inst);
    GatherC16sp(other);
    ScatterC16sp(ImmC16sp(inst));
    ScatterC16sp(ImmC16sp(other));
  }

  // ----- imm[11|4|9:8|10|6|7|3:1|5] in bits 12:2

  function OperandCimmj(inst: bv64): bv32 {
    Trunc32(
      (Sar(inst << 51, 63) << 11) | (((inst << 52) >> 63) << 4) | (((inst << 53) >> 62) << 8) |
      (((inst << 55) >> 63) << 10) | (((inst << 56) >> 63) << 6) | (((inst << 57) >> 63) << 7) |
      (((inst << 58) >> 61) << 1) | (((inst << 61) >> 63) << 5))
  }

  function ImmCJ(inst: bv64): bv32 {
    Sign12(inst, 11) | Part(inst, 8, 1, 10) | Part(inst, 9, 3, 8) | Part(inst, 6, 1, 7) |
    Part(inst, 7, 1, 6) | Part(inst, 2, 1, 5) | Part(inst, 11, 1, 4) | Part(inst, 3, 7, 1)
  }

  function PlaceCJ(imm: bv32): bv64 {
    Unpart(imm, 12, 1, 11) | Unpart(imm, 8, 1, 10) | Unpart(imm, 9, 3, 8) | Unpart(imm, 6, 1, 7) |
    Unpart(imm, 7, 1, 6) | Unpart(imm, 2, 1, 5) | Unpart(imm, 11, 1, 4) | Unpart(imm, 3, 7, 1)
  }

  predicate RangeCJ(imm: bv32) { SignBits(imm, 0xFFFF_F800) && imm & 1 == 0 }

  lemma ExtractCJ(inst: bv64)
    ensures OperandCimmj(inst) == ImmCJ(inst)
  {}

  lemma GatherCJ(inst: bv64)
    ensures RangeCJ(ImmCJ(inst))
    ensures PlaceCJ(ImmCJ(inst)) == inst & 0x1FFC
  {}

  lemma ScatterCJ(imm: bv32)
    requires RangeCJ(imm)
    ensures ImmCJ(PlaceCJ(imm)) == imm
  {}

  lemma DependsCJ(inst: bv64, other: bv64)
    requires AgreeOn(0x1FFC, inst, other)
    ensures ImmCJ(inst) == ImmCJ(other)
  {
    hide ImmCJ, PlaceCJ, RangeCJ;
    GatherCJ(inst);
    GatherCJ(other);
    ScatterCJ(ImmCJ(inst));
    ScatterCJ(ImmCJ(other));
  }

  // ----- imm[8|4:3] in bits 12:10, imm[7:6|2:1|5] in bits 6:2

  function OperandCimmb(inst: bv64): bv32 {
    Trunc32(
      (Sar(inst << 51, 63) << 8) | (((inst << 52) >> 62) << 3) | (((inst << 57) >> 62) << 6) |
      (((inst << 59) >> 62) << 1) | (((inst << 61) >> 63) << 5))
  }

  function ImmCB(inst: bv64): bv32 {
    Sign12(inst, 8) | Part(inst, 5, 3, 6) | Part(inst, 2, 1, 5) | Part(inst, 10, 3, 3) | Part(inst, 3, 3, 1)
  }

  function PlaceCB(imm: bv32): bv64 {
    Unpart(imm, 12, 1, 8) | Unpart(imm, 5, 3, 6) | Unpart(imm, 2, 1, 5) | Unpart(imm, 10, 3, 3) | Unpart(imm, 3, 3, 1)
  }

  predicate RangeCB(imm: bv32) { SignBits(imm, 0xFFFF_FF00) && imm & 1 == 0 }

  lemma ExtractCB(inst: bv64)
    ensures OperandCimmb(inst) == ImmCB(inst)
  {}

  lemma GatherCB(inst: bv64)
    ensures RangeCB(ImmCB(inst))
    ensures PlaceCB(ImmCB(inst)) == inst & 0x1C7C
  {}

  lemma ScatterCB(imm: bv32)
    requires RangeCB(imm)
    ensures ImmCB(PlaceCB(imm)) == imm
  {}

  lemma DependsCB(inst: bv64, other: bv64)
    requires AgreeOn(0x1C7C, inst, other)
    ensures ImmCB(inst) == ImmCB(other)
  {
    hide ImmCB, PlaceCB, RangeCB;
    GatherCB(inst);
    GatherCB(other);
    ScatterCB(ImmCB(inst));
    ScatterCB(ImmCB(other));
  }

  // ----- imm[5:2|7:6] in bits 12:7

  function OperandCimmswsp(inst: bv64): bv32 { Trunc32((((inst << 51) >> 60) << 2) | (((inst << 55) >> 62) << 6)) }

  function ImmCSwsp(inst: bv64): bv32 { Part(inst, 7, 3, 6) | Part(inst, 9, 0xF, 2) }

  function PlaceCSwsp(imm: bv32): bv64 { Unpart(imm, 7, 3, 6) | Unpart(imm, 9, 0xF, 2) }

  predicate RangeCSwsp(imm: bv32) { imm < 256 && imm & 3 == 0 }

  lemma ExtractCSwsp(inst: bv64)
    ensures OperandCimmswsp(inst) == ImmCSwsp(inst)
  {}

  lemma GatherCSwsp(inst: bv64)
    ensures RangeCSwsp(ImmCSwsp(inst))
    ensures PlaceCSwsp(ImmCSwsp(inst)) == inst & 0x1F80
  {}

  lemma ScatterCSwsp(imm: bv32)
    requires RangeCSwsp(imm)
    ensures ImmCSwsp(PlaceCSwsp(imm)) == imm
  {}

  lemma DependsCSwsp(inst: bv64, other: bv64)
    requires AgreeOn(0x1F80, inst, other)
    ensures ImmCSwsp(inst) == ImmCSwsp(other)
  {
    hide ImmCSwsp, PlaceCSwsp, RangeCSwsp;
    GatherCSwsp(inst);
    GatherCSwsp(other);
    ScatterCSwsp(ImmCSwsp(inst));
    ScatterCSwsp(ImmCSwsp(other));
  }

  // ----- imm[5:3|8:6] in bits 12:7

  function OperandCimmsdsp(inst: bv64): bv32 { Trunc32((((inst << 51) >> 61) << 3) | (((inst << 54) >> 61) << 6)) }

  function ImmCSdsp(inst: bv64): bv32 { Part(inst, 7, 7, 6) | Part(inst, 10, 7, 3) }

  function PlaceCSdsp(imm: bv32): bv64 { Unpart(imm, 7, 7, 6) | Unpart(imm, 10, 7, 3) }

  predicate RangeCSdsp(imm: bv32) { imm < 512 && imm & 7 == 0 }

  lemma ExtractCSdsp(inst: bv64)
    ensures OperandCimmsdsp(inst) == ImmCSdsp(inst)
  {}

  lemma GatherCSdsp(inst: bv64)
    ensures RangeCSdsp(ImmCSdsp(inst))
    ensures PlaceCSdsp(ImmCSdsp(inst)) == inst & 0x1F80
  {}

  lemma ScatterCSdsp(imm: bv32)
    requires RangeCSdsp(imm)
    ensures ImmCSdsp(PlaceCSdsp(imm)) == imm
  {}

  lemma DependsCSdsp(inst: bv64, other: bv64)
    requires AgreeOn(0x1F80, inst, other)
    ensures ImmCSdsp(inst) == ImmCSdsp(other)
  {
    hide ImmCSdsp, PlaceCSdsp, RangeCSdsp;
    GatherCSdsp(inst);
    GatherCSdsp(other);
    ScatterCSdsp(ImmCSdsp(inst));
    ScatterCSdsp(ImmCSdsp(other));
  }

  // ----- imm[5:4|9:6] in bits 12:7

  function OperandCimmsqsp(inst: bv64): bv32 { Trunc32((((inst << 51) >> 62) << 4) | (((inst << 53) >> 60) << 6)) }

  function ImmCSqsp(inst: bv64): bv32 { Part(inst, 7, 0xF, 6) | Part(inst, 11, 3, 4) }

  function PlaceCSqsp(imm: bv32): bv64 { Unpart(imm, 7, 0xF, 6) | Unpart(imm, 11, 3, 4) }

  predicate RangeCSqsp(imm: bv32) { imm < 1024 && imm & 0xF == 0 }

  lemma ExtractCSqsp(inst: bv64)
    ensures OperandCimmsqsp(inst) == ImmCSqsp(inst)
  {}

  lemma GatherCSqsp(inst: bv64)
    ensures RangeCSqsp(ImmCSqsp(inst))
    ensures PlaceCSqsp(ImmCSqsp(inst)) == inst & 0x1F80
  {}

  lemma ScatterCSqsp(imm: bv32)
    requires RangeCSqsp(imm)
    ensures ImmCSqsp(PlaceCSqsp(imm)) == imm
  {}

  lemma DependsCSqsp(inst: bv64, other: bv64)
    requires AgreeOn(0x1F80, inst, other)
    ensures ImmCSqsp(inst) == ImmCSqsp(other)
  {
    hide ImmCSqsp, PlaceCSqsp, RangeCSqsp;
    GatherCSqsp(inst);
    GatherCSqsp(other);
    ScatterCSqsp(ImmCSqsp(inst));
    ScatterCSqsp(ImmCSqsp(other));
  }

  // ----- imm[5:4|9:6|2|3] in bits 12:5

  function OperandCimm4spn(inst: bv64): bv32 {
    Trunc32(
      (((inst << 51) >> 62) << 4) | (((inst << 53) >> 60) << 6) |
      (((inst << 57) >> 63) << 2) | (((inst << 58) >> 63) << 3))
  }

  function ImmC4spn(inst: bv64): bv32 {
    Part(inst, 7, 0xF, 6) | Part(inst, 11, 3, 4) | Part(inst, 5, 1, 3) | Part(inst, 6, 1, 2)
  }

  function PlaceC4spn(imm: bv32): bv64 {
    Unpart(imm, 7, 0xF, 6) | Unpart(imm, 11, 3, 4) | Unpart(imm, 5, 1, 3) | Unpart(imm, 6, 1, 2)
  }

  predicate RangeC4spn(imm: bv32) { imm < 1024 && imm & 3 == 0 }

  lemma ExtractC4spn(inst: bv64)
    ensures OperandCimm4spn(inst) == ImmC4spn(inst)
  {}

  lemma GatherC4spn(inst: bv64)
    ensures RangeC4spn(ImmC4spn(inst))
    ensures PlaceC4spn(ImmC4spn(inst)) == inst & 0x1FE0
  {}

  lemma ScatterC4spn(imm: bv32)
    requires RangeC4spn(imm)
    ensures ImmC4spn(PlaceC4spn(imm)) == imm
  {}

  lemma DependsC4spn(inst: bv64, other: bv64)
    requires AgreeOn(0x1FE0, inst, other)
    ensures ImmC4spn(inst) == ImmC4spn(other)
  {
    hide ImmC4spn, PlaceC4spn, RangeC4spn;
    GatherC4spn(inst);
    GatherC4spn(other);
    ScatterC4spn(ImmC4spn(inst));
    ScatterC4spn(ImmC4spn(other));
  }

  // ----- imm[5:3] in bits 12:10, imm[2|6] in bits 6:5

  function OperandCimmw(inst: bv64): bv32 {
    Trunc32((((inst << 51) >> 61) << 3) | (((inst << 57) >> 63) << 2) | (((inst << 58) >> 63) << 6))
  }

  function ImmCW(inst: bv64): bv32 { Part(inst, 5, 1, 6) | Part(inst, 10, 7, 3) | Part(inst, 6, 1, 2) }

  function PlaceCW(imm: bv32): bv64 { Unpart(imm, 5, 1, 6) | Unpart(imm, 10, 7, 3) | Unpart(imm, 6, 1, 2) }

  predicate RangeCW(imm: bv32) { imm < 128 && imm & 3 == 0 }

  lemma ExtractCW(inst: bv64)
    ensures OperandCimmw(inst) == ImmCW(inst)
  {}

  lemma GatherCW(inst: bv64)
    ensures RangeCW(ImmCW(inst))
    ensures PlaceCW(ImmCW(inst)) == inst & 0x1C60
  {}

  lemma ScatterCW(imm: bv32)
    requires RangeCW(imm)
    ensures ImmCW(PlaceCW(imm)) == imm
  {}

  lemma DependsCW(inst: bv64, other: bv64)
    requires AgreeOn(0x1C60, inst, other)
    ensures ImmCW(inst) == ImmCW(other)
  {
    hide ImmCW, PlaceCW, RangeCW;
    GatherCW(inst);
    GatherCW(other);
    ScatterCW(ImmCW(inst));
    ScatterCW(ImmCW(other));
  }

  // ----- imm[5:3] in bits 12:10, imm[7:6] in bits 6:5

  function OperandCimmd(inst: bv64): bv32 { Trunc32((((inst << 51) >> 61) << 3) | (((inst << 57) >> 62) << 6)) }

  function ImmCD(inst: bv64): bv32 { Part(inst, 5, 3, 6) | Part(inst, 10, 7, 3) }

  function PlaceCD(imm: bv32): bv64 { Unpart(imm, 5, 3, 6) | Unpart(imm, 10, 7, 3) }

  predicate RangeCD(imm: bv32) { imm < 256 && imm & 7 == 0 }

  lemma ExtractCD(inst: bv64)
    ensures OperandCimmd(inst) == ImmCD(inst)
  {}

  lemma GatherCD(inst: bv64)
    ensures RangeCD(ImmCD(inst))
    ensures PlaceCD(ImmCD(inst)) == inst & 0x1C60
  {}

  lemma ScatterCD(imm: bv32)
    requires RangeCD(imm)
    ensures ImmCD(PlaceCD(imm)) == imm
  {}

  lemma DependsCD(inst: bv64, other: bv64)
    requires AgreeOn(0x1C60, inst, other)
    ensures ImmCD(inst) == ImmCD(other)
  {
    hide ImmCD, PlaceCD, RangeCD;
    GatherCD(inst);
    GatherCD(other);
    ScatterCD(ImmCD(inst));
    ScatterCD(ImmCD(other));
  }

  // ----- imm[5|4|8] in bits 12:10, imm[7:6] in bits 6:5

  function OperandCimmq(inst: bv64): bv32 {
    Trunc32((((inst << 51) >> 62) << 4) | (((inst << 53) >> 63) << 8) | (((inst << 57) >> 62) << 6))
  }

  function ImmCQ(inst: bv64): bv32 { Part(inst, 10, 1, 8) | Part(inst, 5, 3, 6) | Part(inst, 11, 3, 4) }

  function PlaceCQ(imm: bv32): bv64 { Unpart(imm, 10, 1, 8) | Unpart(imm, 5, 3, 6) | Unpart(imm, 11, 3, 4) }

  predicate RangeCQ(imm: bv32) { imm < 512 && imm & 0xF == 0 }

  lemma ExtractCQ(inst: bv64)
    ensures OperandCimmq(inst) == ImmCQ(inst)
  {}

  lemma GatherCQ(inst: bv64)
    ensures RangeCQ(ImmCQ(inst))
    ensures PlaceCQ(ImmCQ(inst)) == inst & 0x1C60
  {}

  lemma ScatterCQ(imm: bv32)
    requires RangeCQ(imm)
    ensures ImmCQ(PlaceCQ(imm)) == imm
  {}

  lemma DependsCQ(inst: bv64, other: bv64)
    requires AgreeOn(0x1C60, inst, other)
    ensures ImmCQ(inst) == ImmCQ(other)
  {
    hide ImmCQ, PlaceCQ, RangeCQ;
    GatherCQ(inst);
    GatherCQ(other);
    ScatterCQ(ImmCQ(inst));
    ScatterCQ(ImmCQ(other));
  }

  // ----- what the sign masks mean as intervals

  /** The value of a signed 32-bit word. */
  function Value(imm: bv32): int {
    if imm < 0x8000_0000 then imm as int else imm as int - 0x1_0000_0000
  }

  lemma Signed6Bits(imm: bv32)
    requires SignBits(imm, 0xFFFF_FFE0)
    ensures -32 <= Value(imm) < 32
  {}

  lemma Signed9Bits(imm: bv32)
    requires SignBits(imm, 0xFFFF_FF00)
    ensures -256 <= Value(imm) < 256
  {}

  lemma Signed10Bits(imm: bv32)
    requires SignBits(imm, 0xFFFF_FE00)
    ensures -512 <= Value(imm) < 512
  {}

  lemma Signed12Bits(imm: bv32)
    requires SignBits(imm, 0xFFFF_F800)
    ensures -2048 <= Value(imm) < 2048
  {}

  lemma Signed13Bits(imm: bv32)
    requires SignBits(imm, 0xFFFF_F000)
    ensures -4096 <= Value(imm) < 4096
  {}

  lemma Signed18Bits(imm: bv32)
    requires SignBits(imm, 0xFFFE_0000)
    ensures -131072 <= Value(imm) < 131072
  {}

  lemma Signed21Bits(imm: bv32)
    requires SignBits(imm, 0xFFF0_0000)
    ensures -1048576 <= Value(imm) < 1048576
  {}

  lemma ValueInjective(x: bv32, y: bv32)
    requires Value(x) == Value(y)
    ensures x == y
  {
    assert x as int as bv32 == x && y as int as bv32 == y;
  }
}
