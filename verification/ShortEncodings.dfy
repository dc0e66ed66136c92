/**
 Selection of compressed opcodes, against the instruction listings of the C
 extension: tables 16.5 to 16.7 of the RISC-V Unprivileged ISA, version
 20191213.  The switch follows the listings but for the words that these mark
 as reserved (RES) or left to custom extensions (NSE) within a row, which it
 takes for the row all the same, and for the c.nop hints.
*/
module ShortEncodings {
  import opened Opcodes
  import opened OpcodeDecoder
  import opened Encodings
  import opened Immediates
  import opened Operands
  import opened Decoding
  import opened Compression

  /** Table 16.5, quadrant 0: the words of each row, its hints included. */
  predicate InTable0(op: CompressedOp, isa: Isa, inst: bv64) {
    match op
    case CAddi4spn => Selects(inst, 0xE000, 0x0000) && !Selects(inst, 0x1FE0, 0x0000)
    case CFld => Selects(inst, 0xE000, 0x2000) && isa != Rv128
    case CLq => Selects(inst, 0xE000, 0x2000) && isa == Rv128
    case CLw => Selects(inst, 0xE000, 0x4000)
    case CFlw => Selects(inst, 0xE000, 0x6000) && isa == Rv32
    case CLd => Selects(inst, 0xE000, 0x6000) && isa != Rv32
    case CFsd => Selects(inst, 0xE000, 0xA000) && isa != Rv128
    case CSq => Selects(inst, 0xE000, 0xA000) && isa == Rv128
    case CSw => Selects(inst, 0xE000, 0xC000)
    case CFsw => Selects(inst, 0xE000, 0xE000) && isa == Rv32
    case CSd => Selects(inst, 0xE000, 0xE000) && isa != Rv32
    case _ => false
  }

  /** The words of quadrant 0 that the switch takes for an instruction outside its row. */
  predicate OutsideTable0(op: CompressedOp, isa: Isa, inst: bv64) {
    match op
    case CAddi4spn => Selects(inst, 0xFFE0, 0x0000)
    case _ => false
  }

  /** Table 16.6, quadrant 1: the words of each row, its hints included. */
  predicate InTable1(op: CompressedOp, isa: Isa, inst: bv64) {
    match op
    case CNop => Selects(inst, 0xEF80, 0x0000)
    case CAddi => Selects(inst, 0xE000, 0x0000) && !Selects(inst, 0x0F80, 0x0000)
    case CJal => Selects(inst, 0xE000, 0x2000) && isa == Rv32
    case CAddiw => Selects(inst, 0xE000, 0x2000) && !Selects(inst, 0x0F80, 0x0000) && isa != Rv32
    case CLi => Selects(inst, 0xE000, 0x4000)
    case CAddi16sp => Selects(inst, 0xEF80, 0x6100) && !Selects(inst, 0x107C, 0x0000)
    case CLui => Selects(inst, 0xE000, 0x6000) && !Selects(inst, 0x0F80, 0x0100) && !Selects(inst, 0x107C, 0x0000)
    case CSrli => Selects(inst, 0xEC00, 0x8000) && (isa == Rv32 ==> Selects(inst, 0x1000, 0x0000))
    case CSrai => Selects(inst, 0xEC00, 0x8400) && (isa == Rv32 ==> Selects(inst, 0x1000, 0x0000))
    case CAndi => Selects(inst, 0xEC00, 0x8800)
    case CSub => Selects(inst, 0xFC60, 0x8C00)
    case CXor => Selects(inst, 0xFC60, 0x8C20)
    case COr => Selects(inst, 0xFC60, 0x8C40)
    case CAnd => Selects(inst, 0xFC60, 0x8C60)
    case CSubw => Selects(inst, 0xFC60, 0x9C00) && isa != Rv32
    case CAddw => Selects(inst, 0xFC60, 0x9C20) && isa != Rv32
    case CJ => Selects(inst, 0xE000, 0xA000)
    case CBeqz => Selects(inst, 0xE000, 0xC000)
    case CBnez => Selects(inst, 0xE000, 0xE000)
    case _ => false
  }

  /** The words of quadrant 1 that the switch takes for an instruction outside its row. */
  predicate OutsideTable1(op: CompressedOp, isa: Isa, inst: bv64) {
    match op
    case CAddi => Selects(inst, 0xEF80, 0x0000) && !Selects(inst, 0x107C, 0x0000)
    case CAddiw => Selects(inst, 0xEF80, 0x2000) && isa != Rv32
    case CAddi16sp => Selects(inst, 0xFFFC, 0x6100)
    case CLui => Selects(inst, 0xF07C, 0x6000) && !Selects(inst, 0x0F80, 0x0100)
    case CSrli => Selects(inst, 0xFC00, 0x9000) && isa == Rv32
    case CSrai => Selects(inst, 0xFC00, 0x9400) && isa == Rv32
    case CSubw => Selects(inst, 0xFC60, 0x9C00) && isa == Rv32
    case CAddw => Selects(inst, 0xFC60, 0x9C20) && isa == Rv32
    case _ => false
  }

  /** Table 16.7, quadrant 2: the words of each row, its hints included. */
  predicate InTable2(op: CompressedOp, isa: Isa, inst: bv64) {
    match op
    case CSlli => Selects(inst, 0xE000, 0x0000) && (isa == Rv32 ==> Selects(inst, 0x1000, 0x0000))
    case CFldsp => Selects(inst, 0xE000, 0x2000) && isa != Rv128
    case CLqsp => Selects(inst, 0xE000, 0x2000) && !Selects(inst, 0x0F80, 0x0000) && isa == Rv128
    case CLwsp => Selects(inst, 0xE000, 0x4000) && !Selects(inst, 0x0F80, 0x0000)
    case CFlwsp => Selects(inst, 0xE000, 0x6000) && isa == Rv32
    case CLdsp => Selects(inst, 0xE000, 0x6000) && !Selects(inst, 0x0F80, 0x0000) && isa != Rv32
    case CJr => Selects(inst, 0xF07C, 0x8000) && !Selects(inst, 0x0F80, 0x0000)
    case CMv => Selects(inst, 0xF000, 0x8000) && !Selects(inst, 0x007C, 0x0000)
    case CEbreak => Selects(inst, 0xFFFC, 0x9000)
    case CJalr => Selects(inst, 0xF07C, 0x9000) && !Selects(inst, 0x0F80, 0x0000)
    case CAdd => Selects(inst, 0xF000, 0x9000) && !Selects(inst, 0x007C, 0x0000)
    case CFsdsp => Selects(inst, 0xE000, 0xA000) && isa != Rv128
    case CSqsp => Selects(inst, 0xE000, 0xA000) && isa == Rv128
    case CSwsp => Selects(inst, 0xE000, 0xC000)
    case CFswsp => Selects(inst, 0xE000, 0xE000) && isa == Rv32
    case CSdsp => Selects(inst, 0xE000, 0xE000) && isa != Rv32
    case _ => false
  }

  /** The words of quadrant 2 that the switch takes for an instruction outside its row. */
  predicate OutsideTable2(op: CompressedOp, isa: Isa, inst: bv64) {
    match op
    case CSlli => Selects(inst, 0xF000, 0x1000) && isa == Rv32
    case CLqsp => Selects(inst, 0xEF80, 0x2000) && isa == Rv128
    case CLwsp => Selects(inst, 0xEF80, 0x4000)
    case CLdsp => Selects(inst, 0xEF80, 0x6000) && isa != Rv32
    case CJr => Selects(inst, 0xFFFC, 0x8000)
    case _ => false
  }

  /** A row of the listings. */
  predicate InTable(op: CompressedOp, isa: Isa, inst: bv64) {
    match inst & 3
    case 0 => InTable0(op, isa, inst)
    case 1 => InTable1(op, isa, inst)
    case 2 => InTable2(op, isa, inst)
    case _ => false
  }

  /** A word that the listings keep out of the row, and the switch does not. */
  predicate OutsideTable(op: CompressedOp, isa: Isa, inst: bv64) {
    match inst & 3
    case 0 => OutsideTable0(op, isa, inst)
    case 1 => OutsideTable1(op, isa, inst)
    case 2 => OutsideTable2(op, isa, inst)
    case _ => false
  }

  /** A c.nop with an immediate, which the switch takes for c.addi. */
  predicate IsNopHint(inst: bv64) { Selects(inst, 0xEF80, 0x0000) && !Selects(inst, 0x107C, 0x0000) }

  /** The words that the switch takes for an instruction. */
  predicate Chosen(op: CompressedOp, isa: Isa, inst: bv64) {
    (InTable(op, isa, inst) && !(op == CNop && IsNopHint(inst))) || OutsideTable(op, isa, inst)
  }

  lemma Rows0A(inst: bv64, isa: Isa)
    requires inst & 3 == 0
    ensures Quadrant0(inst, isa) == Some(CAddi4spn)
       <==> (Selects(inst, 0xE000, 0x0000) && !Selects(inst, 0x1FE0, 0x0000)) || (Selects(inst, 0xFFE0, 0x0000))
    ensures Quadrant0(inst, isa) == Some(CFld) <==> Selects(inst, 0xE000, 0x2000) && isa != Rv128
    ensures Quadrant0(inst, isa) == Some(CLq) <==> Selects(inst, 0xE000, 0x2000) && isa == Rv128
    ensures Quadrant0(inst, isa) == Some(CLw) <==> Selects(inst, 0xE000, 0x4000)
  {}

  lemma Rows0B(inst: bv64, isa: Isa)
    requires inst & 3 == 0
    ensures Quadrant0(inst, isa) == Some(CFlw) <==> Selects(inst, 0xE000, 0x6000) && isa == Rv32
    ensures Quadrant0(inst, isa) == Some(CLd) <==> Selects(inst, 0xE000, 0x6000) && isa != Rv32
    ensures Quadrant0(inst, isa) == Some(CFsd) <==> Selects(inst, 0xE000, 0xA000) && isa != Rv128
    ensures Quadrant0(inst, isa) == Some(CSq) <==> Selects(inst, 0xE000, 0xA000) && isa == Rv128
  {}

  lemma Rows0C(inst: bv64, isa: Isa)
    requires inst & 3 == 0
    ensures Quadrant0(inst, isa) == Some(CSw) <==> Selects(inst, 0xE000, 0xC000)
    ensures Quadrant0(inst, isa) == Some(CFsw) <==> Selects(inst, 0xE000, 0xE000) && isa == Rv32
    ensures Quadrant0(inst, isa) == Some(CSd) <==> Selects(inst, 0xE000, 0xE000) && isa != Rv32
  {}

  lemma Rows1A(inst: bv64, isa: Isa)
    requires inst & 3 == 1
    ensures Quadrant1(inst, isa) == Some(CNop) <==> Selects(inst, 0xEF80, 0x0000) && !IsNopHint(inst)
    ensures Quadrant1(inst, isa) == Some(CAddi)
       <==> || (Selects(inst, 0xE000, 0x0000) && !Selects(inst, 0x0F80, 0x0000))
            || (Selects(inst, 0xEF80, 0x0000) && !Selects(inst, 0x107C, 0x0000))
    ensures Quadrant1(inst, isa) == Some(CJal) <==> Selects(inst, 0xE000, 0x2000) && isa == Rv32
  {}

  lemma Rows1B(inst: bv64, isa: Isa)
    requires inst & 3 == 1
    ensures Quadrant1(inst, isa) == Some(CAddiw)
       <==> || (Selects(inst, 0xE000, 0x2000) && !Selects(inst, 0x0F80, 0x0000) && isa != Rv32)
            || (Selects(inst, 0xEF80, 0x2000) && isa != Rv32)
    ensures Quadrant1(inst, isa) == Some(CLi) <==> Selects(inst, 0xE000, 0x4000)
  {}

  lemma Rows1C(inst: bv64, isa: Isa)
    requires inst & 3 == 1
    ensures Quadrant1(inst, isa) == Some(CAddi16sp)
       <==> (Selects(inst, 0xEF80, 0x6100) && !Selects(inst, 0x107C, 0x0000)) || (Selects(inst, 0xFFFC, 0x6100))
  {}

  lemma Rows1D(inst: bv64, isa: Isa)
    requires inst & 3 == 1
    ensures Quadrant1(inst, isa) == Some(CLui)
       <==> || (Selects(inst, 0xE000, 0x6000) && !Selects(inst, 0x0F80, 0x0100) && !Selects(inst, 0x107C, 0x0000))
            || (Selects(inst, 0xF07C, 0x6000) && !Selects(inst, 0x0F80, 0x0100))
  {
    LuiImmediate(inst);
    assert Quadrant1(inst, isa) == Some(CLui) <==> Selects(inst, 0xE000, 0x6000) && !Selects(inst, 0x0F80, 0x0100);
    hide Selects, Quadrant1;
  }

  lemma LuiImmediate(inst: bv64)
    ensures Selects(inst, 0xF07C, 0x6000) <==> Selects(inst, 0xE000, 0x6000) && Selects(inst, 0x107C, 0x0000)
  {}

  lemma Rows1E(inst: bv64, isa: Isa)
    requires inst & 3 == 1
    ensures Quadrant1(inst, isa) == Some(CSrli)
       <==> || (Selects(inst, 0xEC00, 0x8000) && (isa == Rv32 ==> Selects(inst, 0x1000, 0x0000)))
            || (Selects(inst, 0xFC00, 0x9000) && isa == Rv32)
    ensures Quadrant1(inst, isa) == Some(CSrai)
       <==> || (Selects(inst, 0xEC00, 0x8400) && (isa == Rv32 ==> Selects(inst, 0x1000, 0x0000)))
            || (Selects(inst, 0xFC00, 0x9400) && isa == Rv32)
    ensures Quadrant1(inst, isa) == Some(CAndi) <==> Selects(inst, 0xEC00, 0x8800)
  {}

  lemma Rows1F(inst: bv64, isa: Isa)
    requires inst & 3 == 1
    ensures Quadrant1(inst, isa) == Some(CSub) <==> Selects(inst, 0xFC60, 0x8C00)
    ensures Quadrant1(inst, isa) == Some(CXor) <==> Selects(inst, 0xFC60, 0x8C20)
    ensures Quadrant1(inst, isa) == Some(COr) <==> Selects(inst, 0xFC60, 0x8C40)
    ensures Quadrant1(inst, isa) == Some(CAnd) <==> Selects(inst, 0xFC60, 0x8C60)
  {}

  lemma Rows1G(inst: bv64, isa: Isa)
    requires inst & 3 == 1
    ensures Quadrant1(inst, isa) == Some(CSubw)
       <==> (Selects(inst, 0xFC60, 0x9C00) && isa != Rv32) || (Selects(inst, 0xFC60, 0x9C00) && isa == Rv32)
    ensures Quadrant1(inst, isa) == Some(CAddw)
       <==> (Selects(inst, 0xFC60, 0x9C20) && isa != Rv32) || (Selects(inst, 0xFC60, 0x9C20) && isa == Rv32)
  {}

  lemma Rows1H(inst: bv64, isa: Isa)
    requires inst & 3 == 1
    ensures Quadrant1(inst, isa) == Some(CJ) <==> Selects(inst, 0xE000, 0xA000)
    ensures Quadrant1(inst, isa) == Some(CBeqz) <==> Selects(inst, 0xE000, 0xC000)
    ensures Quadrant1(inst, isa) == Some(CBnez) <==> Selects(inst, 0xE000, 0xE000)
  {}

  lemma ShiftRowBits(inst: bv64)
    ensures Selects(inst, 0xF000, 0x1000) <==> Selects(inst, 0xE000, 0x0000) && !Selects(inst, 0x1000, 0x0000)
  {}

  lemma SlliRow(inst: bv64, isa: Isa)
    requires inst & 3 == 2
    ensures Quadrant2(inst, isa) == Some(CSlli) <==> Selects(inst, 0xE000, 0x0000)
  {}

  lemma Rows2A(inst: bv64, isa: Isa)
    requires inst & 3 == 2
    ensures Quadrant2(inst, isa) == Some(CSlli)
       <==> || (Selects(inst, 0xE000, 0x0000) && (isa == Rv32 ==> Selects(inst, 0x1000, 0x0000)))
            || (Selects(inst, 0xF000, 0x1000) && isa == Rv32)
  {
    hide Quadrant2, Selects;
    SlliRow(inst, isa);
    ShiftRowBits(inst);
  }

  lemma Rows2F(inst: bv64, isa: Isa)
    requires inst & 3 == 2
    ensures Quadrant2(inst, isa) == Some(CFldsp) <==> Selects(inst, 0xE000, 0x2000) && isa != Rv128
    ensures Quadrant2(inst, isa) == Some(CLqsp)
       <==> || (Selects(inst, 0xE000, 0x2000) && !Selects(inst, 0x0F80, 0x0000) && isa == Rv128)
            || (Selects(inst, 0xEF80, 0x2000) && isa == Rv128)
  {}

  lemma Rows2B(inst: bv64, isa: Isa)
    requires inst & 3 == 2
    ensures Quadrant2(inst, isa) == Some(CLwsp)
       <==> (Selects(inst, 0xE000, 0x4000) && !Selects(inst, 0x0F80, 0x0000)) || (Selects(inst, 0xEF80, 0x4000))
    ensures Quadrant2(inst, isa) == Some(CFlwsp) <==> Selects(inst, 0xE000, 0x6000) && isa == Rv32
    ensures Quadrant2(inst, isa) == Some(CLdsp)
       <==> || (Selects(inst, 0xE000, 0x6000) && !Selects(inst, 0x0F80, 0x0000) && isa != Rv32)
            || (Selects(inst, 0xEF80, 0x6000) && isa != Rv32)
  {}

  lemma Rows2C(inst: bv64, isa: Isa)
    requires inst & 3 == 2
    ensures Quadrant2(inst, isa) == Some(CJr)
       <==> (Selects(inst, 0xF07C, 0x8000) && !Selects(inst, 0x0F80, 0x0000)) || (Selects(inst, 0xFFFC, 0x8000))
    ensures Quadrant2(inst, isa) == Some(CMv) <==> Selects(inst, 0xF000, 0x8000) && !Selects(inst, 0x007C, 0x0000)
    ensures Quadrant2(inst, isa) == Some(CEbreak) <==> Selects(inst, 0xFFFC, 0x9000)
  {}

  lemma Rows2D(inst: bv64, isa: Isa)
    requires inst & 3 == 2
    ensures Quadrant2(inst, isa) == Some(CJalr) <==> Selects(inst, 0xF07C, 0x9000) && !Selects(inst, 0x0F80, 0x0000)
    ensures Quadrant2(inst, isa) == Some(CAdd) <==> Selects(inst, 0xF000, 0x9000) && !Selects(inst, 0x007C, 0x0000)
    ensures Quadrant2(inst, isa) == Some(CFsdsp) <==> Selects(inst, 0xE000, 0xA000) && isa != Rv128
  {}

  lemma Rows2E(inst: bv64, isa: Isa)
    requires inst & 3 == 2
    ensures Quadrant2(inst, isa) == Some(CSqsp) <==> Selects(inst, 0xE000, 0xA000) && isa == Rv128
    ensures Quadrant2(inst, isa) == Some(CSwsp) <==> Selects(inst, 0xE000, 0xC000)
    ensures Quadrant2(inst, isa) == Some(CFswsp) <==> Selects(inst, 0xE000, 0xE000) && isa == Rv32
    ensures Quadrant2(inst, isa) == Some(CSdsp) <==> Selects(inst, 0xE000, 0xE000) && isa != Rv32
  {}

  lemma Rows0ADecoded(inst: bv64, isa: Isa, op: CompressedOp)
    requires inst & 3 == 0 && (op.CAddi4spn? || op.CFld? || op.CLq? || op.CLw?)
    ensures Quadrant0(inst, isa) == Some(op) <==> Chosen(op, isa, inst)
  {
    hide Quadrant0, Selects, IsNopHint;
    Rows0A(inst, isa);
  }

  lemma Rows0BDecoded(inst: bv64, isa: Isa, op: CompressedOp)
    requires inst & 3 == 0 && (op.CFlw? || op.CLd? || op.CFsd? || op.CSq?)
    ensures Quadrant0(inst, isa) == Some(op) <==> Chosen(op, isa, inst)
  {
    hide Quadrant0, Selects, IsNopHint;
    Rows0B(inst, isa);
  }

  lemma Rows0CDecoded(inst: bv64, isa: Isa, op: CompressedOp)
    requires inst & 3 == 0 && (op.CSw? || op.CFsw? || op.CSd?)
    ensures Quadrant0(inst, isa) == Some(op) <==> Chosen(op, isa, inst)
  {
    hide Quadrant0, Selects, IsNopHint;
    Rows0C(inst, isa);
  }

  lemma Quadrant0Decoded(inst: bv64, isa: Isa, op: CompressedOp)
    requires inst & 3 == 0
    ensures Quadrant0(inst, isa) == Some(op) <==> Chosen(op, isa, inst)
  {
    hide Quadrant0, Chosen;
    if op.CAddi4spn? || op.CFld? || op.CLq? || op.CLw? {
      Rows0ADecoded(inst, isa, op);
    } else if op.CFlw? || op.CLd? || op.CFsd? || op.CSq? {
      Rows0BDecoded(inst, isa, op);
    } else if op.CSw? || op.CFsw? || op.CSd? {
      Rows0CDecoded(inst, isa, op);
    } else {
      NotInQuadrant0(inst, isa, op);
    }
  }

  lemma NotInQuadrant0(inst: bv64, isa: Isa, op: CompressedOp)
    requires inst & 3 == 0 && !Listed0(op)
    ensures Quadrant0(inst, isa) != Some(op) && !Chosen(op, isa, inst)
  {
    hide Selects;
  }

  predicate Listed0(op: CompressedOp) {
    || op.CAddi4spn? || op.CFld? || op.CLq? || op.CLw? || op.CFlw? || op.CLd? || op.CFsd? || op.CSq? || op.CSw?
    || op.CFsw? || op.CSd?
  }

  lemma Rows1ADecoded(inst: bv64, isa: Isa, op: CompressedOp)
    requires inst & 3 == 1 && (op.CNop? || op.CAddi? || op.CJal?)
    ensures Quadrant1(inst, isa) == Some(op) <==> Chosen(op, isa, inst)
  {
    hide Quadrant1, Selects, IsNopHint;
    Rows1A(inst, isa);
  }

  lemma Rows1BDecoded(inst: bv64, isa: Isa, op: CompressedOp)
    requires inst & 3 == 1 && (op.CAddiw? || op.CLi?)
    ensures Quadrant1(inst, isa) == Some(op) <==> Chosen(op, isa, inst)
  {
    hide Quadrant1, Selects, IsNopHint;
    Rows1B(inst, isa);
  }

  lemma Rows1CDecoded(inst: bv64, isa: Isa, op: CompressedOp)
    requires inst & 3 == 1 && (op.CAddi16sp?)
    ensures Quadrant1(inst, isa) == Some(op) <==> Chosen(op, isa, inst)
  {
    hide Quadrant1, Selects, IsNopHint;
    Rows1C(inst, isa);
  }

  lemma Rows1DDecoded(inst: bv64, isa: Isa, op: CompressedOp)
    requires inst & 3 == 1 && (op.CLui?)
    ensures Quadrant1(inst, isa) == Some(op) <==> Chosen(op, isa, inst)
  {
    hide Quadrant1, Selects, IsNopHint;
    Rows1D(inst, isa);
  }

  lemma Rows1EDecoded(inst: bv64, isa: Isa, op: CompressedOp)
    requires inst & 3 == 1 && (op.CSrli? || op.CSrai? || op.CAndi?)
    ensures Quadrant1(inst, isa) == Some(op) <==> Chosen(op, isa, inst)
  {
    hide Quadrant1, Selects, IsNopHint;
    Rows1E(inst, isa);
  }

  lemma Rows1FDecoded(inst: bv64, isa: Isa, op: CompressedOp)
    requires inst & 3 == 1 && (op.CSub? || op.CXor? || op.COr? || op.CAnd?)
    ensures Quadrant1(inst, isa) == Some(op) <==> Chosen(op, isa, inst)
  {
    hide Quadrant1, Selects, IsNopHint;
    Rows1F(inst, isa);
  }

  lemma Rows1GDecoded(inst: bv64, isa: Isa, op: CompressedOp)
    requires inst & 3 == 1 && (op.CSubw? || op.CAddw?)
    ensures Quadrant1(inst, isa) == Some(op) <==> Chosen(op, isa, inst)
  {
    hide Quadrant1, Selects, IsNopHint;
    Rows1G(inst, isa);
  }

  lemma Rows1HDecoded(inst: bv64, isa: Isa, op: CompressedOp)
    requires inst & 3 == 1 && (op.CJ? || op.CBeqz? || op.CBnez?)
    ensures Quadrant1(inst, isa) == Some(op) <==> Chosen(op, isa, inst)
  {
    hide Quadrant1, Selects, IsNopHint;
    Rows1H(inst, isa);
  }

  lemma Quadrant1Decoded(inst: bv64, isa: Isa, op: CompressedOp)
    requires inst & 3 == 1
    ensures Quadrant1(inst, isa) == Some(op) <==> Chosen(op, isa, inst)
  {
    hide Quadrant1, Chosen;
    if op.CNop? || op.CAddi? || op.CJal? {
      Rows1ADecoded(inst, isa, op);
    } else if op.CAddiw? || op.CLi? {
      Rows1BDecoded(inst, isa, op);
    } else if op.CAddi16sp? {
      Rows1CDecoded(inst, isa, op);
    } else if op.CLui? {
      Rows1DDecoded(inst, isa, op);
    } else if op.CSrli? || op.CSrai? || op.CAndi? {
      Rows1EDecoded(inst, isa, op);
    } else if op.CSub? || op.CXor? || op.COr? || op.CAnd? {
      Rows1FDecoded(inst, isa, op);
    } else if op.CSubw? || op.CAddw? {
      Rows1GDecoded(inst, isa, op);
    } else if op.CJ? || op.CBeqz? || op.CBnez? {
      Rows1HDecoded(inst, isa, op);
    } else {
      NotInQuadrant1(inst, isa, op);
    }
  }

  lemma NotInQuadrant1(inst: bv64, isa: Isa, op: CompressedOp)
    requires inst & 3 == 1 && !Listed1(op)
    ensures Quadrant1(inst, isa) != Some(op) && !Chosen(op, isa, inst)
  {
    hide Selects;
  }

  predicate Listed1(op: CompressedOp) {
    || op.CNop? || op.CAddi? || op.CJal? || op.CAddiw? || op.CLi? || op.CAddi16sp? || op.CLui? || op.CSrli?
    || op.CSrai? || op.CAndi? || op.CSub? || op.CXor? || op.COr? || op.CAnd? || op.CSubw? || op.CAddw? || op.CJ?
    || op.CBeqz? || op.CBnez?
  }

  lemma Rows2ADecoded(inst: bv64, isa: Isa, op: CompressedOp)
    requires inst & 3 == 2 && (op.CSlli? || op.CFldsp? || op.CLqsp?)
    ensures Quadrant2(inst, isa) == Some(op) <==> Chosen(op, isa, inst)
  {
    hide Quadrant2, Selects, IsNopHint;
    Rows2A(inst, isa);
    Rows2F(inst, isa);
  }

  lemma Rows2BDecoded(inst: bv64, isa: Isa, op: CompressedOp)
    requires inst & 3 == 2 && (op.CLwsp? || op.CFlwsp? || op.CLdsp?)
    ensures Quadrant2(inst, isa) == Some(op) <==> Chosen(op, isa, inst)
  {
    hide Quadrant2, Selects, IsNopHint;
    Rows2B(inst, isa);
  }

  lemma Rows2CDecoded(inst: bv64, isa: Isa, op: CompressedOp)
    requires inst & 3 == 2 && (op.CJr? || op.CMv? || op.CEbreak?)
    ensures Quadrant2(inst, isa) == Some(op) <==> Chosen(op, isa, inst)
  {
    hide Quadrant2, Selects, IsNopHint;
    Rows2C(inst, isa);
  }

  lemma Rows2DDecoded(inst: bv64, isa: Isa, op: CompressedOp)
    requires inst & 3 == 2 && (op.CJalr? || op.CAdd? || op.CFsdsp?)
    ensures Quadrant2(inst, isa) == Some(op) <==> Chosen(op, isa, inst)
  {
    hide Quadrant2, Selects, IsNopHint;
    Rows2D(inst, isa);
  }

  lemma Rows2EDecoded(inst: bv64, isa: Isa, op: CompressedOp)
    requires inst & 3 == 2 && (op.CSqsp? || op.CSwsp? || op.CFswsp? || op.CSdsp?)
    ensures Quadrant2(inst, isa) == Some(op) <==> Chosen(op, isa, inst)
  {
    hide Quadrant2, Selects, IsNopHint;
    Rows2E(inst, isa);
  }

  lemma Quadrant2Decoded(inst: bv64, isa: Isa, op: CompressedOp)
    requires inst & 3 == 2
    ensures Quadrant2(inst, isa) == Some(op) <==> Chosen(op, isa, inst)
  {
    hide Quadrant2, Chosen;
    if op.CSlli? || op.CFldsp? || op.CLqsp? {
      Rows2ADecoded(inst, isa, op);
    } else if op.CLwsp? || op.CFlwsp? || op.CLdsp? {
      Rows2BDecoded(inst, isa, op);
    } else if op.CJr? || op.CMv? || op.CEbreak? {
      Rows2CDecoded(inst, isa, op);
    } else if op.CJalr? || op.CAdd? || op.CFsdsp? {
      Rows2DDecoded(inst, isa, op);
    } else if op.CSqsp? || op.CSwsp? || op.CFswsp? || op.CSdsp? {
      Rows2EDecoded(inst, isa, op);
    } else {
      NotInQuadrant2(inst, isa, op);
    }
  }

  lemma NotInQuadrant2(inst: bv64, isa: Isa, op: CompressedOp)
    requires inst & 3 == 2 && !Listed2(op)
    ensures Quadrant2(inst, isa) != Some(op) && !Chosen(op, isa, inst)
  {
    hide Selects;
  }

  predicate Listed2(op: CompressedOp) {
    || op.CSlli? || op.CFldsp? || op.CLqsp? || op.CLwsp? || op.CFlwsp? || op.CLdsp? || op.CJr? || op.CMv?
    || op.CEbreak? || op.CJalr? || op.CAdd? || op.CFsdsp? || op.CSqsp? || op.CSwsp? || op.CFswsp? || op.CSdsp?
  }

  /**
   Opcode selection against the listings, for every compressed instruction, word
   and instruction set: the words of the row, without the c.nop hints, and the
   listed words outside it.
  */
  lemma DecodedByOpcodeMap(inst: bv64, isa: Isa, op: CompressedOp)
    ensures OpcodeOf(inst, isa) == Compressed(op)
       <==> (InTable(op, isa, inst) && !(op == CNop && IsNopHint(inst))) || OutsideTable(op, isa, inst)
  {
    hide OpcodeOf, InTable, OutsideTable, IsNopHint;
    ChosenExactly(inst, isa, op);
  }

  lemma ChosenExactly(inst: bv64, isa: Isa, op: CompressedOp)
    ensures OpcodeOf(inst, isa) == Compressed(op) <==> Chosen(op, isa, inst)
  {
    hide Quadrant0, Quadrant1, Quadrant2, WideOpOf, Chosen;
    if inst & 3 == 0 {
      Quadrant0Decoded(inst, isa, op);
    } else if inst & 3 == 1 {
      Quadrant1Decoded(inst, isa, op);
    } else if inst & 3 == 2 {
      Quadrant2Decoded(inst, isa, op);
    } else {
      NoneChosen(inst, isa, op);
    }
  }

  lemma NoneChosen(inst: bv64, isa: Isa, op: CompressedOp)
    requires inst & 3 == 3
    ensures !Chosen(op, isa, inst)
  {
    hide InTable0, InTable1, InTable2, OutsideTable0, OutsideTable1, OutsideTable2;
  }

  /** The words outside a row are indeed not in it. */
  lemma OutsideIsOutside(op: CompressedOp, isa: Isa, inst: bv64)
    requires OutsideTable(op, isa, inst)
    ensures !InTable(op, isa, inst)
  {
    hide InTable0, InTable1, InTable2, OutsideTable0, OutsideTable1, OutsideTable2;
    if inst & 3 == 0 {
      Outside0(op, isa, inst);
    } else if inst & 3 == 1 {
      Outside1(op, isa, inst);
    } else if inst & 3 == 2 {
      Outside2(op, isa, inst);
    }
  }

  lemma Outside0(op: CompressedOp, isa: Isa, inst: bv64)
    requires OutsideTable0(op, isa, inst)
    ensures !InTable0(op, isa, inst)
  {
    hide Selects;
    ReservedBits(inst);
  }

  lemma Outside1(op: CompressedOp, isa: Isa, inst: bv64)
    requires OutsideTable1(op, isa, inst)
    ensures !InTable1(op, isa, inst)
  {
    hide Selects;
    ReservedBits(inst);
  }

  lemma Outside2(op: CompressedOp, isa: Isa, inst: bv64)
    requires OutsideTable2(op, isa, inst)
    ensures !InTable2(op, isa, inst)
  {
    hide Selects;
    ReservedBits(inst);
  }

  lemma ReservedRegisters(inst: bv64)
    ensures Selects(inst, 0xEF80, 0x0000) || Selects(inst, 0xEF80, 0x2000) ==> Selects(inst, 0x0F80, 0x0000)
    ensures Selects(inst, 0xEF80, 0x4000) || Selects(inst, 0xEF80, 0x6000) ==> Selects(inst, 0x0F80, 0x0000)
    ensures Selects(inst, 0xFFFC, 0x8000) ==> Selects(inst, 0x0F80, 0x0000)
  {}

  lemma ReservedImmediates(inst: bv64)
    ensures Selects(inst, 0xFFE0, 0x0000) ==> Selects(inst, 0x1FE0, 0x0000)
    ensures Selects(inst, 0xFFFC, 0x6100) || Selects(inst, 0xF07C, 0x6000) ==> Selects(inst, 0x107C, 0x0000)
  {}

  lemma CustomShifts(inst: bv64)
    ensures Selects(inst, 0xFC00, 0x9000) || Selects(inst, 0xFC00, 0x9400) ==> !Selects(inst, 0x1000, 0x0000)
    ensures Selects(inst, 0xF000, 0x1000) ==> !Selects(inst, 0x1000, 0x0000)
  {}

  lemma ReservedBits(inst: bv64)
    ensures Selects(inst, 0xFFE0, 0x0000) ==> Selects(inst, 0x1FE0, 0x0000)
    ensures Selects(inst, 0xEF80, 0x0000) || Selects(inst, 0xEF80, 0x2000) ==> Selects(inst, 0x0F80, 0x0000)
    ensures Selects(inst, 0xEF80, 0x4000) || Selects(inst, 0xEF80, 0x6000) ==> Selects(inst, 0x0F80, 0x0000)
    ensures Selects(inst, 0xFFFC, 0x8000) ==> Selects(inst, 0x0F80, 0x0000)
    ensures Selects(inst, 0xFFFC, 0x6100) || Selects(inst, 0xF07C, 0x6000) ==> Selects(inst, 0x107C, 0x0000)
    ensures Selects(inst, 0xFC00, 0x9000) || Selects(inst, 0xFC00, 0x9400) ==> !Selects(inst, 0x1000, 0x0000)
    ensures Selects(inst, 0xF000, 0x1000) ==> !Selects(inst, 0x1000, 0x0000)
  {
    hide Selects;
    ReservedRegisters(inst);
    ReservedImmediates(inst);
    CustomShifts(inst);
  }

  /** Table 16.6 reserves 0x9C01 on rv32; the switch takes it for c.subw, which is then expanded to subw. */
  lemma SubwOnRv32(pc: bv64)
    ensures !InTable(CSubw, Rv32, 0x9C01) && OutsideTable(CSubw, Rv32, 0x9C01)
    ensures Expand(pc, 0x9C01, Rv32).op == Wide(Arith(Sub, Low32))
  {
    SubwRow();
    SubwExpanded(pc);
    hide InTable, OutsideTable, Expand;
  }

  lemma SubwRow()
    ensures !InTable(CSubw, Rv32, 0x9C01) && OutsideTable(CSubw, Rv32, 0x9C01)
  {
    assert Selects(0x9C01, 0xFC60, 0x9C00);
  }

  lemma SubwExpanded(pc: bv64)
    ensures Expand(pc, 0x9C01, Rv32).op == Wide(Arith(Sub, Low32))
  {
    hide ShortOperandsOf, OperandsOf;
  }

  // ----- which words become illegal

  lemma ZeroImmediateBits(inst: bv64)
    ensures ImmCI(inst) == 0 <==> Selects(inst, 0x107C, 0x0000)
    ensures ImmCSh6(inst) == 0 <==> Selects(inst, 0x107C, 0x0000)
    ensures ImmC16sp(inst) == 0 <==> Selects(inst, 0x107C, 0x0000)
    ensures ImmCLui(inst) == 0 <==> Selects(inst, 0x107C, 0x0000)
    ensures ImmC4spn(inst) == 0 <==> Selects(inst, 0x1FE0, 0x0000)
  {}

  /** The instructions whose zero immediate the listings allow, as an operation, a hint or a shift by 64. */
  predicate AllowsZero(op: CompressedOp) { op.CAndi? || op.CSlli? || op.CSrli? || op.CSrai? }

  /** The instructions whose zero immediate the listings reserve. */
  predicate ReservesZero(op: CompressedOp) { op.CAddi4spn? || op.CAddi16sp? || op.CLui? }

  lemma NonZeroRows(op: CompressedOp)
    ensures NeedsNonZeroImm(op) <==> AllowsZero(op) || ReservesZero(op)
  {}

  predicate ZeroImmediate(op: CompressedOp, inst: bv64) {
    if op.CAddi4spn? then Selects(inst, 0x1FE0, 0x0000) else Selects(inst, 0x107C, 0x0000)
  }

  lemma DecodedOperands(pc: bv64, inst: bv64, isa: Isa, op: CompressedOp)
    requires OpcodeOf(inst, isa) == Compressed(op)
    ensures Decode(pc, inst, isa).args == ShortOperandsOf(CompressedCodec(op), inst, NO_OPERANDS)
  {
    hide OpcodeOf, WideOperandsOf, ShortOperandsOf, CompressedCodec;
    ShortCodecs(op);
  }

  lemma CheckedAmounts(inst: bv64)
    ensures ShortOperandsOf(CodecCBImm, inst, NO_OPERANDS).imm == ImmCI(inst)
    ensures ShortOperandsOf(CodecCBSh6, inst, NO_OPERANDS).imm == ImmCSh6(inst)
    ensures ShortOperandsOf(CodecCISh6, inst, NO_OPERANDS).imm == ImmCSh6(inst)
  {
    hide ShortAccessOf;
    hide ImmCI, ImmC16sp, ImmCJ, ImmCB, ImmCLui, ImmCSh5, ImmCSh6, RdAt, CRs2At, ShortLowAt, ShortHighAt;
    hide ImmC4spn, ImmCW, ImmCD, ImmCQ, ImmCLwsp, ImmCLdsp, ImmCLqsp, ImmCSwsp, ImmCSdsp, ImmCSqsp;
  }

  lemma CheckedImmediates(inst: bv64)
    ensures ShortOperandsOf(CodecCI16sp, inst, NO_OPERANDS).imm == ImmC16sp(inst)
    ensures ShortOperandsOf(CodecCILui, inst, NO_OPERANDS).imm == ImmCLui(inst)
    ensures ShortOperandsOf(CodecCIW4spn, inst, NO_OPERANDS).imm == ImmC4spn(inst)
  {
    hide ShortAccessOf;
    hide ImmCI, ImmC16sp, ImmCJ, ImmCB, ImmCLui, ImmCSh5, ImmCSh6, RdAt, CRs2At, ShortLowAt, ShortHighAt;
    hide ImmC4spn, ImmCW, ImmCD, ImmCQ, ImmCLwsp, ImmCLdsp, ImmCLqsp, ImmCSwsp, ImmCSdsp, ImmCSqsp;
  }

  lemma ZeroOperand(inst: bv64, op: CompressedOp)
    requires NeedsNonZeroImm(op)
    ensures ShortOperandsOf(CompressedCodec(op), inst, NO_OPERANDS).imm == 0 <==> ZeroImmediate(op, inst)
  {
    hide Selects, ShortOperandsOf, ImmCI, ImmC16sp, ImmCLui, ImmCSh6, ImmC4spn;
    CheckedAmounts(inst);
    CheckedImmediates(inst);
    ZeroImmediateBits(inst);
  }

  lemma ReservedZeros(op: CompressedOp, isa: Isa, inst: bv64)
    requires ReservesZero(op)
    ensures InTable(op, isa, inst) ==> !ZeroImmediate(op, inst)
    ensures OutsideTable(op, isa, inst) ==> ZeroImmediate(op, inst)
  {
    hide Selects;
    ReservedBits(inst);
  }

  /**
   Within the rows, the words that become illegal are the zero immediates of
   c.andi and of the shifts; outside them, the zero immediates of c.addi4spn,
   c.addi16sp and c.lui.
  */
  lemma WordsMadeIllegal(pc: bv64, inst: bv64, isa: Isa, op: CompressedOp)
    requires OpcodeOf(inst, isa) == Compressed(op)
    ensures InTable(op, isa, inst) ==>
      (Expand(pc, inst, isa).op == Illegal <==> AllowsZero(op) && Selects(inst, 0x107C, 0x0000))
    ensures OutsideTable(op, isa, inst) && !AllowsZero(op) ==>
      (Expand(pc, inst, isa).op == Illegal <==> ReservesZero(op))
    ensures OutsideTable(op, isa, inst) && AllowsZero(op) ==> Expand(pc, inst, isa).op != Illegal
  {
    hide OpcodeOf, ShortOperandsOf, CompressedCodec, InTable, OutsideTable, ZeroImmediate, NeedsNonZeroImm, Expand;
    hide Selects;
    IllegalExpansions(pc, inst, isa);
    DecodedOperands(pc, inst, isa, op);
    NonZeroRows(op);
    if NeedsNonZeroImm(op) {
      ZeroOperand(inst, op);
      ZeroBits(op, inst);
      if ReservesZero(op) {
        ReservedZeros(op, isa, inst);
      } else {
        CustomShiftsAreNotZero(op, isa, inst);
      }
    }
  }

  lemma ZeroBits(op: CompressedOp, inst: bv64)
    ensures AllowsZero(op) ==> (ZeroImmediate(op, inst) <==> Selects(inst, 0x107C, 0x0000))
  {
    hide Selects;
  }

  lemma CustomShiftsAreNotZero(op: CompressedOp, isa: Isa, inst: bv64)
    requires AllowsZero(op)
    ensures OutsideTable(op, isa, inst) ==> !ZeroImmediate(op, inst)
  {
    hide Selects;
    CustomShiftBits(inst);
  }

  lemma CustomShiftBits(inst: bv64)
    ensures Selects(inst, 0xFC00, 0x9000) || Selects(inst, 0xFC00, 0x9400) ==> !Selects(inst, 0x107C, 0x0000)
    ensures Selects(inst, 0xF000, 0x1000) ==> !Selects(inst, 0x107C, 0x0000)
  {}

}
