/**
 The printed text identifies the instruction, the exceptions spelled out, for
 decoded records and for words.
*/
module Injectivity {
  import opened Opcodes
  import opened Encodings
  import opened Operands
  import opened Decoding
  import opened Compression
  import opened Formats
  import opened Identification
  import opened Layout
  import opened Locality
  import opened OpcodeDecoder
  import opened PseudoInstructions
  import opened Text

  /** A record that decoding and decompression can leave: a 32-bit instruction and operands that it can carry. */
  predicate Expanded(e: Decoded) {
    e.op.Wide? && Encodable(e.op.wide, e.args)
  }

  /** What the disassembler prints for an expanded record. */
  function TextOf(e: Decoded, csr: CsrNames): string {
    PrintedText(Lift(e), csr)
  }

  lemma ExpandedInTables(e: Decoded)
    requires Expanded(e)
    ensures InTables(e.args)
  {
    hide InCodec, InTables, Agrees;
    InCodecInTables(WideCodec(e.op.wide), e.args);
  }

  lemma LiftedIsPrintable(e: Decoded)
    requires Expanded(e)
    ensures Printable(Lift(e)) && Lift(e).args == e.args && Lift(e).pc == e.pc
  {
    hide Encodable, InTables, FirstMatch, Candidates;
    ExpandedInTables(e);
  }

  // ----- records

  lemma {:induction false} SameUpToRoundingShows(f: string, i: nat, o1: Operands, o2: Operands)
    requires SameUpToRounding(o1, o2)
    ensures SameShown(f, i, o1, o2)
    decreases |f| - i
  {
    hide IsOperand;
    if i < |f| {
      SameUpToRoundingShows(f, i + 1, o1, o2);
    }
  }

  lemma SameUpToRoundingIsVisible(f: string, o1: Operands, o2: Operands)
    requires SameUpToRounding(o1, o2)
    ensures SameOn(f, o1, o2)
  {
    hide SameShown, ReservedRounding;
    SameUpToRoundingShows(f, 2, o1, o2);
    SameUpToRoundingShows(f, 4, o1, o2);
  }

  lemma {:induction false} MatchIgnoresRounding(candidates: seq<PseudoOp>, o1: Operands, o2: Operands)
    requires o1.(rm := o2.rm) == o2
    ensures FirstMatch(candidates, o1) == FirstMatch(candidates, o2)
  {
    hide ConstraintsOf;
    if candidates != [] {
      MatchIgnoresRounding(candidates[1..], o1, o2);
      assert AllHold(ConstraintsOf(candidates[0]), o1) == AllHold(ConstraintsOf(candidates[0]), o2);
    }
  }

  lemma LiftIgnoresRounding(e1: Decoded, e2: Decoded)
    requires Expanded(e1) && Expanded(e2) && e1.op == e2.op && SameUpToRounding(e1.args, e2.args)
    ensures Lift(e1).op == Lift(e2).op
  {
    hide Encodable, FirstMatch, Candidates, ReservedRounding;
    MatchIgnoresRounding(Candidates(e1.op.wide), e1.args, e2.args);
  }

  /**
   Two expanded records at one address print the same text exactly when they
   hold the same instruction, up to the reserved rounding modes, or are both
   printed as `ret`.
  */
  lemma TextIdentifiesRecord(e1: Decoded, e2: Decoded, csr: CsrNames)
    requires Expanded(e1) && Expanded(e2) && e1.pc == e2.pc && GoodCsrNames(csr)
    ensures TextOf(e1, csr) == TextOf(e2, csr)
       <==> || (e1.op == e2.op && SameUpToRounding(e1.args, e2.args))
            || (Lift(e1).op == Pseudo(Ret) && Lift(e2).op == Pseudo(Ret))
  {
    hide Encodable, Printable, PrintedText, GoodCsrNames, Lift, SameOn, SameUpToRounding, Condition, BaseOf;
    hide WideFormat, PseudoFormat;
    LiftedIsPrintable(e1);
    LiftedIsPrintable(e2);
    SameText(Lift(e1), Lift(e2), csr);
    LiftedFrom(e1);
    LiftedFrom(e2);
    if e1.op == e2.op && SameUpToRounding(e1.args, e2.args) {
      LiftIgnoresRounding(e1, e2);
      SameUpToRoundingIsVisible(FormatOf(Lift(e1).op), e1.args, e2.args);
    } else if Lift(e1).op == Pseudo(Ret) && Lift(e2).op == Pseudo(Ret) {
      RetShowsNothing(e1.args, e2.args);
    } else if TextOf(e1, csr) == TextOf(e2, csr) {
      if Lift(e1).op.Pseudo? {
        PseudoOperandsShown(Lift(e1).op.pseudo, e1.args, e2.args);
      } else {
        WideOperandsShown(e1.op.wide, e1.args, e2.args);
      }
    }
  }

  lemma RetShowsNothing(o1: Operands, o2: Operands)
    ensures SameOn(PseudoFormat(Ret), o1, o2)
  {
    hide SameOn;
    ShownFieldsA(o1, o2);
  }

  // ----- words

  lemma FullWordIsExpanded(pc: bv64, inst: bv64, isa: Isa)
    requires OpcodeOf(inst, isa).Wide?
    ensures var e := Expand(pc, inst, isa);
      && Expanded(e) && e.pc == pc && e.op == OpcodeOf(inst, isa)
      && e.args == OperandsOf(CodecOf(OpcodeOf(inst, isa)), inst, NO_OPERANDS)
  {
    hide OpcodeOf, OperandsOf, Encodable, WideCodec;
    DecodedIsEncodable(inst, isa, OpcodeOf(inst, isa).wide);
  }

  predicate SameOutsideRounding(x: bv64, y: bv64) { x & 0xFFFF_8FFF == y & 0xFFFF_8FFF }

  predicate Rounds(op: WideOp) { WideCodec(op) == CodecRM || WideCodec(op) == CodecR4M }

  /** The words differ at most in the rounding mode, which is reserved in both. */
  predicate SameButReservedRounding(w1: bv64, w2: bv64) {
    SameOutsideRounding(w1, w2) && ReservedRounding(RmAt(w1)) && ReservedRounding(RmAt(w2))
  }

  lemma FieldsOutsideRounding(w: bv64)
    ensures RdAt(w) == RdAt(w & 0xFFFF_8FFF) && Rs1At(w) == Rs1At(w & 0xFFFF_8FFF)
    ensures Rs2At(w) == Rs2At(w & 0xFFFF_8FFF) && Rs3At(w) == Rs3At(w & 0xFFFF_8FFF)
  {}

  lemma SameFieldsOutsideRounding(w1: bv64, w2: bv64)
    requires SameOutsideRounding(w1, w2)
    ensures RdAt(w1) == RdAt(w2) && Rs1At(w1) == Rs1At(w2) && Rs2At(w1) == Rs2At(w2) && Rs3At(w1) == Rs3At(w2)
  {
    hide RdAt, Rs1At, Rs2At, Rs3At;
    FieldsOutsideRounding(w1);
    FieldsOutsideRounding(w2);
  }

  lemma RoundingBits(fixed: bv64, codec: Codec, o: Operands, rm: bv8)
    requires codec == CodecRM || codec == CodecR4M
    ensures SameOutsideRounding(fixed | OperandBits(codec, o), fixed | OperandBits(codec, o.(rm := rm)))
  {
    hide PutRd, PutRs1, PutRs2, PutRs3;
  }

  lemma EncodedRounding(op: WideOp, o: Operands, rm: bv8)
    requires Rounds(op)
    ensures SameOutsideRounding(Encode(op, o), Encode(op, o.(rm := rm)))
  {
    hide OperandBits, FixedBits, FixedOf, WideCodec, SameOutsideRounding;
    RoundingBits(FixedBits(FixedOf(op)), WideCodec(op), o, rm);
  }

  lemma LowWords(w1: bv64, w2: bv64)
    ensures SameOutsideRounding(LowWord(w1), LowWord(w2)) ==> SameOutsideRounding(w1, w2)
  {}

  lemma OnlyRoundedCodecsRound(codec: Codec, o: Operands)
    requires InCodec(codec, o) && ReservedRounding(o.rm)
    ensures codec == CodecRM || codec == CodecR4M
  {}

  lemma RoundedFields(codec: Codec, w: bv64)
    requires codec == CodecRM || codec == CodecR4M
    ensures OperandsOf(codec, w, NO_OPERANDS) ==
      NO_OPERANDS.(
        rd := RdAt(w), rs1 := Rs1At(w), rs2 := Rs2At(w),
        rs3 := if codec == CodecR4M then Rs3At(w) else 0, rm := RmAt(w))
  {
    hide RdAt, Rs1At, Rs2At, Rs3At, RmAt;
  }

  function OperandsIn(inst: bv64, op: WideOp): Operands { OperandsOf(WideCodec(op), inst, NO_OPERANDS) }

  lemma WordIsEncoding(inst: bv64, isa: Isa, op: WideOp)
    requires OpcodeOf(inst, isa) == Wide(op) && op != Fence && op != FenceI
    ensures Encode(op, OperandsIn(inst, op)) == LowWord(inst)
    ensures InCodec(WideCodec(op), OperandsIn(inst, op))
  {
    hide OpcodeOf, WideCodec, InCodec, Agrees, FixedOf, OperandsOf, Encode;
    EncodeKeepsOthers(inst, isa, op);
    DecodedIsEncodable(inst, isa, op);
  }

  /** Equal operands come from equal words, the reserved rounding modes apart. */
  lemma SameOperandsSameWord(w1: bv64, w2: bv64, isa: Isa, op: WideOp)
    requires OpcodeOf(w1, isa) == Wide(op) && OpcodeOf(w2, isa) == Wide(op) && op != Fence && op != FenceI
    requires SameUpToRounding(OperandsIn(w1, op), OperandsIn(w2, op))
    ensures LowWord(w1) == LowWord(w2) || (Rounds(op) && SameButReservedRounding(w1, w2))
  {
    hide OpcodeOf, WideCodec, InCodec, SameOutsideRounding, ReservedRounding, OperandsOf, LowWord, Encode, RmAt, RdAt;
    hide Rs1At, Rs2At, Rs3At;
    WordIsEncoding(w1, isa, op);
    WordIsEncoding(w2, isa, op);
    var o1, o2 := OperandsIn(w1, op), OperandsIn(w2, op);
    if o1 != o2 {
      OnlyRoundedCodecsRound(WideCodec(op), o1);
      EncodedRounding(op, o1, o2.rm);
      LowWords(w1, w2);
      RoundedFields(WideCodec(op), w1);
      RoundedFields(WideCodec(op), w2);
    }
  }

  /** Words that differ in the reserved rounding modes only hold the same operands up to them. */
  lemma SameWordSameOperands(w1: bv64, w2: bv64, op: WideOp)
    requires Rounds(op) && SameButReservedRounding(w1, w2)
    ensures SameUpToRounding(OperandsIn(w1, op), OperandsIn(w2, op))
  {
    hide WideCodec, SameOutsideRounding, ReservedRounding, OperandsOf, RmAt, RdAt, Rs1At, Rs2At, Rs3At;
    SameFieldsOutsideRounding(w1, w2);
    RoundedFields(WideCodec(op), w1);
    RoundedFields(WideCodec(op), w2);
  }

  /** The text of a word. */
  function Disassembled(pc: bv64, inst: bv64, isa: Isa, csr: CsrNames): string {
    TextOf(Expand(pc, inst, isa), csr)
  }

  /** `jalr x0, imm(ra)`, which prints as `ret` whatever the immediate. */
  predicate IsReturn(inst: bv64, isa: Isa) {
    OpcodeOf(inst, isa) == Wide(Jalr) && RdAt(inst) == 0 && Rs1At(inst) == 1
  }

  lemma JalrFields(inst: bv64)
    ensures OperandsIn(inst, Jalr).rd == RdAt(inst) && OperandsIn(inst, Jalr).rs1 == Rs1At(inst)
  {
    hide RdAt, Rs1At;
  }

  lemma ReturnsPrintRet(pc: bv64, inst: bv64, isa: Isa)
    requires OpcodeOf(inst, isa).Wide?
    ensures Lift(Expand(pc, inst, isa)).op == Pseudo(Ret) <==> IsReturn(inst, isa)
  {
    hide OpcodeOf, Expand, Expanded, Lift, RdAt, Rs1At, OperandsOf;
    FullWordIsExpanded(pc, inst, isa);
    var e := Expand(pc, inst, isa);
    ReturnsLift(e);
    JalrFields(inst);
  }

  /** Two 4-byte words that the text cannot tell apart: the exceptions to the identification of words by their text. */
  predicate Confused(w1: bv64, w2: bv64, isa: Isa) {
    || (OpcodeOf(w1, isa) == OpcodeOf(w2, isa) == Wide(Fence) && PredAt(w1) == PredAt(w2) && SuccAt(w1) == SuccAt(w2))
    || (OpcodeOf(w1, isa) == OpcodeOf(w2, isa) == Wide(FenceI))
    || (IsReturn(w1, isa) && IsReturn(w2, isa))
    || (OpcodeOf(w1, isa) == OpcodeOf(w2, isa) && OpcodeOf(w1, isa).Wide? && Rounds(OpcodeOf(w1, isa).wide)
        && SameButReservedRounding(w1, w2))
  }

  lemma FenceFields(w: bv64)
    ensures OperandsIn(w, Fence) == NO_OPERANDS.(pred := PredAt(w), succ := SuccAt(w))
    ensures OperandsIn(w, FenceI) == NO_OPERANDS
  {
    hide PredAt, SuccAt;
  }

  lemma SameWordSameRecord(pc: bv64, w1: bv64, w2: bv64, isa: Isa)
    requires Fetch.InstLength(w1) == 4 && LowWord(w1) == LowWord(w2)
    ensures Expand(pc, w2, isa) == Expand(pc, w1, isa).(inst := w2)
  {
    hide Expand, LowWord, LowHalf;
    JunkAboveIsIgnored(pc, w1, w2, isa);
  }

  lemma SameOpcodeSameOperands(w1: bv64, w2: bv64, isa: Isa, op: WideOp)
    requires OpcodeOf(w1, isa) == Wide(op) && OpcodeOf(w2, isa) == Wide(op)
    ensures SameUpToRounding(OperandsIn(w1, op), OperandsIn(w2, op)) ==>
      || LowWord(w1) == LowWord(w2)
      || (op == Fence && PredAt(w1) == PredAt(w2) && SuccAt(w1) == SuccAt(w2))
      || op == FenceI
      || (Rounds(op) && SameButReservedRounding(w1, w2))
    ensures op == Fence && PredAt(w1) == PredAt(w2) && SuccAt(w1) == SuccAt(w2) ==>
      SameUpToRounding(OperandsIn(w1, op), OperandsIn(w2, op))
    ensures op == FenceI ==> SameUpToRounding(OperandsIn(w1, op), OperandsIn(w2, op))
    ensures Rounds(op) && SameButReservedRounding(w1, w2) ==> SameUpToRounding(OperandsIn(w1, op), OperandsIn(w2, op))
  {
    hide OpcodeOf, WideCodec, SameButReservedRounding, OperandsIn, LowWord, PredAt, SuccAt, ReservedRounding;
    FenceFields(w1);
    FenceFields(w2);
    if op != Fence && op != FenceI && SameUpToRounding(OperandsIn(w1, op), OperandsIn(w2, op)) {
      SameOperandsSameWord(w1, w2, isa, op);
    }
    if Rounds(op) && SameButReservedRounding(w1, w2) {
      SameWordSameOperands(w1, w2, op);
    }
  }

  /**
   The printed text identifies a 4-byte instruction: two legal words at one
   address print the same text exactly when they are the same word, or are one
   of the pairs that the text confuses.
  */
  lemma TextIdentifiesWord(pc: bv64, w1: bv64, w2: bv64, isa: Isa, csr: CsrNames)
    requires Fetch.InstLength(w1) == 4 && Fetch.InstLength(w2) == 4
    requires OpcodeOf(w1, isa) != Illegal && OpcodeOf(w2, isa) != Illegal && GoodCsrNames(csr)
    ensures Disassembled(pc, w1, isa, csr) == Disassembled(pc, w2, isa, csr)
       <==> LowWord(w1) == LowWord(w2) || Confused(w1, w2, isa)
  {
    hide OpcodeOf, Expand, Expanded, TextOf, Lift, LowWord, WideCodec, Rounds, SameUpToRounding, GoodCsrNames;
    hide SameButReservedRounding, IsReturn, PredAt, SuccAt, OperandsOf, Fetch.InstLength;
    OpcodeMatchesLength(w1, isa);
    OpcodeMatchesLength(w2, isa);
    FullWordIsExpanded(pc, w1, isa);
    FullWordIsExpanded(pc, w2, isa);
    ReturnsPrintRet(pc, w1, isa);
    ReturnsPrintRet(pc, w2, isa);
    var e1, e2 := Expand(pc, w1, isa), Expand(pc, w2, isa);
    TextIdentifiesRecord(e1, e2, csr);
    if e1.op == e2.op {
      SameOpcodeSameOperands(w1, w2, isa, e1.op.wide);
    }
    if LowWord(w1) == LowWord(w2) {
      SameWordSameRecord(pc, w1, w2, isa);
      SameOperandsAreSame(e1.args);
    }
  }

  lemma SameOperandsAreSame(o: Operands)
    ensures SameUpToRounding(o, o)
  {}

  /** A compressed instruction prints exactly what the 32-bit word that it expands to prints. */
  lemma CompressedTextIsExpandedText(pc: bv64, inst: bv64, isa: Isa, wideInst: bv64, wideIsa: Isa, csr: CsrNames)
    requires inst & 3 != 3 && Expand(pc, inst, isa).op != Illegal && GoodCsrNames(csr)
    ensures Expand(pc, inst, isa).op.Wide?
    ensures wideInst & 0xFFFF_FFFF == Encode(Expand(pc, inst, isa).op.wide, Expand(pc, inst, isa).args) ==>
      Disassembled(pc, wideInst, wideIsa, csr) == Disassembled(pc, inst, isa, csr)
  {
    hide Expand, Encode, TextOf, Encodable, Lift, SameUpToRounding, GoodCsrNames;
    var e := Expand(pc, inst, isa);
    ExpansionIsEncodable(pc, inst, isa);
    DecompressionPreservesMeaning(pc, inst, isa, wideInst, wideIsa);
    SameOperandsAreSame(e.args);
    TextIdentifiesRecord(e, e.(inst := wideInst), csr);
  }

  // ----- words of either length

  /** A word of 2 or 4 bytes that is an instruction. */
  predicate IsLegal(pc: bv64, inst: bv64, isa: Isa) { Expand(pc, inst, isa).op != Illegal }

  lemma LegalIsExpanded(pc: bv64, inst: bv64, isa: Isa)
    requires IsLegal(pc, inst, isa)
    ensures Expanded(Expand(pc, inst, isa)) && Expand(pc, inst, isa).pc == pc
  {
    if inst & 3 == 3 {
      FullWordIsLegal(pc, inst, isa);
      hide Expand, Expanded, OpcodeOf, OperandsOf;
      FullWordIsExpanded(pc, inst, isa);
    } else {
      hide Expand, Encodable, WideCodec;
      ExpansionIsEncodable(pc, inst, isa);
    }
  }

  lemma FullWordIsLegal(pc: bv64, inst: bv64, isa: Isa)
    requires inst & 3 == 3 && IsLegal(pc, inst, isa)
    ensures OpcodeOf(inst, isa).Wide?
  {
    hide WideOpOf, CompressedOpOf, WideOperandsOf, ShortOperandsOf, WideCodec;
  }

  /** The 32-bit word that encodes an instruction of either length. */
  function EncodingOf(pc: bv64, inst: bv64, isa: Isa): bv64
    requires Expand(pc, inst, isa).op.Wide?
  {
    Encode(Expand(pc, inst, isa).op.wide, Expand(pc, inst, isa).args)
  }

  predicate In32Bits(w: bv64) { w & 0xFFFF_FFFF == w }

  lemma Join32Bits(fixed: bv64, bits: bv64)
    requires Within(fixed, 0xFFFF_FFFF) && Within(bits, 0xFFFF_FFFF)
    ensures In32Bits(fixed | bits)
  {}

  lemma WithinWider(x: bv64, m: bv64)
    requires Within(x, m) && Within(m, 0xFFFF_FFFF)
    ensures Within(x, 0xFFFF_FFFF)
  {}

  lemma EncodedIn32Bits(op: WideOp, o: Operands)
    requires Encodable(op, o)
    ensures In32Bits(Encode(op, o))
  {
    hide InCodec, Agrees, Within, In32Bits, FixedBits, FixedMask, FixedOf, OperandBits, OperandMask, WideCodec;
    FixedBitsInMask(FixedOf(op));
    FixedMaskIn32Bits(FixedOf(op));
    WithinWider(FixedBits(FixedOf(op)), FixedMask(FixedOf(op)));
    OperandBitsInMask(WideCodec(op), o);
    OperandMaskIn32Bits(WideCodec(op));
    WithinWider(OperandBits(WideCodec(op), o), OperandMask(WideCodec(op)));
    Join32Bits(FixedBits(FixedOf(op)), OperandBits(WideCodec(op), o));
  }

  lemma EncodedRecord(e: Decoded, isa: Isa)
    requires Expanded(e)
    ensures var w := Encode(e.op.wide, e.args);
      && In32Bits(w) && Fetch.InstLength(w) == 4 && OpcodeOf(w, isa) == e.op
      && Expand(e.pc, w, isa).op == e.op && Expand(e.pc, w, isa).args == e.args && Expand(e.pc, w, isa).pc == e.pc
  {
    hide Encode, Encodable, OpcodeOf, OperandsOf, Fetch.InstLength, CodecOf, WideCodec;
    var w := Encode(e.op.wide, e.args);
    EncodedIn32Bits(e.op.wide, e.args);
    DecodeUndoesEncode(w, isa, e.op.wide, e.args);
    OpcodeMatchesLength(w, isa);
  }

  /** An instruction prints what its 32-bit encoding prints, on any instruction set. */
  lemma EncodingPrintsTheSame(pc: bv64, inst: bv64, isa: Isa, other: Isa, csr: CsrNames)
    requires IsLegal(pc, inst, isa) && GoodCsrNames(csr)
    ensures Expand(pc, inst, isa).op.Wide?
    ensures var w := EncodingOf(pc, inst, isa);
      && In32Bits(w) && Fetch.InstLength(w) == 4 && OpcodeOf(w, other).Wide?
      && Disassembled(pc, w, other, csr) == Disassembled(pc, inst, isa, csr)
  {
    hide Encode, Encodable, OpcodeOf, Expand, TextOf, Lift, SameUpToRounding, GoodCsrNames, Fetch.InstLength, In32Bits;
    var e := Expand(pc, inst, isa);
    LegalIsExpanded(pc, inst, isa);
    EncodedRecord(e, other);
    var w := EncodingOf(pc, inst, isa);
    FullWordIsExpanded(pc, w, other);
    SameOperandsAreSame(e.args);
    TextIdentifiesRecord(e, Expand(pc, w, other), csr);
  }

  /**
   The printed text identifies any instruction: two legal words of either
   length, on any instruction sets, print the same text at one address exactly
   when their 32-bit encodings are equal or confused.
  */
  lemma TextIdentifiesInstruction(pc: bv64, w1: bv64, isa1: Isa, w2: bv64, isa2: Isa, csr: CsrNames)
    requires IsLegal(pc, w1, isa1) && IsLegal(pc, w2, isa2) && GoodCsrNames(csr)
    ensures Expand(pc, w1, isa1).op.Wide? && Expand(pc, w2, isa2).op.Wide?
    ensures Disassembled(pc, w1, isa1, csr) == Disassembled(pc, w2, isa2, csr)
       <==> || EncodingOf(pc, w1, isa1) == EncodingOf(pc, w2, isa2)
            || Confused(EncodingOf(pc, w1, isa1), EncodingOf(pc, w2, isa2), Rv32)
  {
    hide Expand, EncodingOf, Disassembled, Confused, OpcodeOf, GoodCsrNames, Fetch.InstLength, IsLegal;
    EncodingPrintsTheSame(pc, w1, isa1, Rv32, csr);
    EncodingPrintsTheSame(pc, w2, isa2, Rv32, csr);
    TextIdentifiesWord(pc, EncodingOf(pc, w1, isa1), EncodingOf(pc, w2, isa2), Rv32, csr);
  }

  // ----- the text does not depend on the word beyond its decoded fields

  lemma {:induction false} RenderedIgnoresWord(f: string, i: nat, d: Decoded, inst: bv64, csr: CsrNames, col: nat)
    ensures Rendered(f, i, TAB, d.(inst := inst), csr, col) == Rendered(f, i, TAB, d, csr, col)
    decreases |f| - i
  {
    hide Directive;
    if i < |f| {
      DirectiveIgnoresWord(f[i], d, inst, csr, col);
      RenderedIgnoresWord(f, i + 1, d, inst, csr, col + |Directive(f[i], TAB, d, csr, col)|);
    }
  }

  lemma DirectiveIgnoresWord(c: char, d: Decoded, inst: bv64, csr: CsrNames, col: nat)
    ensures Directive(c, TAB, d.(inst := inst), csr, col) == Directive(c, TAB, d, csr, col)
  {
  }

  /** Words with the same first bytes, as many as the length names, print the same text. */
  lemma JunkChangesNoText(pc: bv64, inst: bv64, other: bv64, isa: Isa, csr: CsrNames)
    requires SameBytes(inst, other)
    ensures Disassembled(pc, other, isa, csr) == Disassembled(pc, inst, isa, csr)
  {
    hide Expand, Rendered, FormatOf, FirstMatch, Candidates, SameBytes;
    JunkAboveIsIgnored(pc, inst, other, isa);
    var d := Lift(Expand(pc, inst, isa));
    RenderedIgnoresWord(FormatOf(d.op), 0, d, other, csr, 0);
  }
}
