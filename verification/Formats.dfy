/** The text formats of the opcode table. */
module Formats {
  import opened Opcodes

  const FMT_NONE := "O\t"
  const FMT_RS1 := "O\t1"
  const FMT_OFFSET := "O\to"
  const FMT_PRED_SUCC := "O\tp,s"
  const FMT_RS1_RS2 := "O\t1,2"
  const FMT_RD_IMM := "O\t0,i"
  const FMT_RD_OFFSET := "O\t0,o"
  const FMT_RD_RS1_RS2 := "O\t0,1,2"
  const FMT_FRD_RS1 := "O\t3,1"
  const FMT_RD_FRS1 := "O\t0,4"
  const FMT_RD_FRS1_FRS2 := "O\t0,4,5"
  const FMT_FRD_FRS1_FRS2 := "O\t3,4,5"
  const FMT_RM_FRD_FRS1 := "O\tr,3,4"
  const FMT_RM_FRD_RS1 := "O\tr,3,1"
  const FMT_RM_RD_FRS1 := "O\tr,0,4"
  const FMT_RM_FRD_FRS1_FRS2 := "O\tr,3,4,5"
  const FMT_RM_FRD_FRS1_FRS2_FRS3 := "O\tr,3,4,5,6"
  const FMT_RD_RS1_IMM := "O\t0,1,i"
  const FMT_RD_OFFSET_RS1 := "O\t0,i(1)"
  const FMT_FRD_OFFSET_RS1 := "O\t3,i(1)"
  const FMT_RD_CSR_RS1 := "O\t0,c,1"
  const FMT_RD_CSR_ZIMM := "O\t0,c,7"
  const FMT_RS2_OFFSET_RS1 := "O\t2,i(1)"
  const FMT_FRS2_OFFSET_RS1 := "O\t5,i(1)"
  const FMT_RS1_RS2_OFFSET := "O\t1,2,o"
  const FMT_RS2_RS1_OFFSET := "O\t2,1,o"
  const FMT_AQRL_RD_RS2_RS1 := "OAR\t0,2,(1)"
  const FMT_AQRL_RD_RS1 := "OAR\t0,(1)"
  const FMT_RD := "O\t0"
  const FMT_RD_ZIMM := "O\t0,7"
  const FMT_RD_RS1 := "O\t0,1"
  const FMT_RD_RS2 := "O\t0,2"
  const FMT_RS1_OFFSET := "O\t1,o"
  const FMT_RS2_OFFSET := "O\t2,o"

  function FpFormat(fp: FpOp): string {
    match fp
    case FAdd | FSub | FMul | FDiv => FMT_RM_FRD_FRS1_FRS2
    case FSqrt => FMT_RM_FRD_FRS1
    case FSgnj | FSgnjn | FSgnjx | FMin | FMax => FMT_FRD_FRS1_FRS2
    case FLe | FLt | FEq => FMT_RD_FRS1_FRS2
    case FToInt(_) => FMT_RM_RD_FRS1
    case FFromInt(_) => FMT_RM_FRD_RS1
    case FMoveToInt | FClass => FMT_RD_FRS1
    case FMoveFromInt => FMT_FRD_RS1
  }

  function WideFormat(op: WideOp): string {
    match op
    case Lui => FMT_RD_IMM
    case Auipc | Jal => FMT_RD_OFFSET
    case Jalr | AddImm(_) | ShiftImm(_, _) | LogicImm(_) => FMT_RD_RS1_IMM
    case Branch(_) => FMT_RS1_RS2_OFFSET
    case Load(_) => FMT_RD_OFFSET_RS1
    case Store(_) => FMT_RS2_OFFSET_RS1
    case Arith(_, _) | Logic(_) => FMT_RD_RS1_RS2
    case Fence => FMT_PRED_SUCC
    case FenceI | System(_) => FMT_NONE
    case Amo(amo, _) => if amo == LoadReserved then FMT_AQRL_RD_RS1 else FMT_AQRL_RD_RS2_RS1
    case SfenceVm => FMT_RS1
    case SfenceVma => FMT_RS1_RS2
    case Csr(_) => FMT_RD_CSR_RS1
    case CsrImm(_) => FMT_RD_CSR_ZIMM
    case FLoad(_) => FMT_FRD_OFFSET_RS1
    case FStore(_) => FMT_FRS2_OFFSET_RS1
    case Fma(_, _) => FMT_RM_FRD_FRS1_FRS2_FRS3
    case Fp(fp, _) => FpFormat(fp)
    case FConvert(_) => FMT_RM_FRD_FRS1
  }

  function CompressedFormat(op: CompressedOp): string {
    match op
    case CAddi4spn | CAddi | CLi | CAddi16sp | CSrli | CSrai | CAndi | CSlli | CAddiw | CJr | CJalr => FMT_RD_RS1_IMM
    case CFld | CFlw | CFldsp | CFlwsp => FMT_FRD_OFFSET_RS1
    case CLw | CLwsp | CLd | CLdsp | CLq | CLqsp => FMT_RD_OFFSET_RS1
    case CFsd | CFsw | CFsdsp | CFswsp => FMT_FRS2_OFFSET_RS1
    case CSw | CSwsp | CSd | CSdsp | CSq | CSqsp => FMT_RS2_OFFSET_RS1
    case CNop | CEbreak => FMT_NONE
    case CJal | CJ => FMT_RD_OFFSET
    case CLui => FMT_RD_IMM
    case CSub | CXor | COr | CAnd | CSubw | CAddw | CMv | CAdd => FMT_RD_RS1_RS2
    case CBeqz | CBnez => FMT_RS1_RS2_OFFSET
  }

  function PseudoFormat(op: PseudoOp): string {
    match op
    case Nop | Ret => FMT_NONE
    case Mv | Not | SextW | Seqz | Sltz | FMove(_, _) | WriteFloatCsr(_) => FMT_RD_RS1
    case Neg | Negw | Snez | Sgtz => FMT_RD_RS2
    case BranchTo(test) =>
      (match test
       case Beqz | Bnez | Bgez | Bltz => FMT_RS1_OFFSET
       case Blez | Bgtz => FMT_RS2_OFFSET
       case Ble | Bleu | Bgt | Bgtu => FMT_RS2_RS1_OFFSET)
    case J => FMT_OFFSET
    case Jr => FMT_RS1
    case ReadCounter(_) | ReadCounterHigh(_) | ReadFloatCsr(_) => FMT_RD
    case Fsrmi | Fsflagsi => FMT_RD_ZIMM
  }

  /** The format column of the opcode table. */
  function FormatOf(op: Op): string {
    match op
    case Illegal => FMT_NONE
    case Wide(wide) => WideFormat(wide)
    case Compressed(short) => CompressedFormat(short)
    case Pseudo(pseudo) => PseudoFormat(pseudo)
  }

  lemma LoadFormatted(op: CompressedOp)
    requires IsShortLoad(op)
    ensures CompressedFormat(op) == WideFormat(ExpansionOf(op))
  {}

  lemma StoreFormatted(op: CompressedOp)
    requires IsShortStore(op)
    ensures CompressedFormat(op) == WideFormat(ExpansionOf(op))
  {}

  lemma OtherFormatted(op: CompressedOp)
    requires !IsAccess(op) && !op.CNop? && !op.CMv?
    ensures CompressedFormat(op) == WideFormat(ExpansionOf(op))
  {}

  lemma ExceptionsFormatted()
    ensures CompressedFormat(CNop) == FMT_NONE && CompressedFormat(CMv) == FMT_RD_RS1_RS2
  {}

  /** A compressed row has the format of its expansion; c.nop has none, and c.mv that of two sources. */
  lemma FormattedAfterExpansion(op: CompressedOp)
    ensures CompressedFormat(op) ==
      if op.CNop? then FMT_NONE else if op.CMv? then FMT_RD_RS1_RS2 else WideFormat(ExpansionOf(op))
  {
    hide CompressedFormat, WideFormat, ExpansionOf, IsShortLoad, IsShortStore;
    ExceptionsFormatted();
    if IsShortLoad(op) {
      AccessIsPlain(op);
      LoadFormatted(op);
    } else if IsShortStore(op) {
      AccessIsPlain(op);
      StoreFormatted(op);
    } else if !op.CNop? && !op.CMv? {
      OtherFormatted(op);
    }
  }

  lemma AccessIsPlain(op: CompressedOp)
    requires IsAccess(op)
    ensures !op.CNop? && !op.CMv?
  {}
}
