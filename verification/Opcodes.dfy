/**
 The vocabulary of the disassembler: instruction sets, opcodes and codecs.

 The source numbers its opcodes in three blocks: 32-bit instructions,
 compressed instructions and pseudo-instructions.  Each block is a datatype
 here, and a family of rows that differs only in operand size, access width,
 floating-point format or operation is one constructor with those arguments.
*/
module Opcodes {

  datatype Option<+T> = None | Some(value: T)

  datatype Isa = Rv32 | Rv64 | Rv128

  /** Operand size of an integer operation: the whole register, or its low 32 or 64 bits. */
  datatype Size = Full | Low32 | Low64

  datatype Width = Word | Dword | Qword

  datatype Fmt = Single | Double | Quad

  datatype BranchKind = Beq | Bne | Blt | Bge | Bltu | Bgeu

  datatype LoadKind = Lb | Lh | Lw | Ld | Lbu | Lhu | Lwu | Ldu | Lq

  datatype StoreKind = Sb | Sh | Sw | Sd | Sq

  /** The immediate operations that exist for the whole register only. */
  datatype ImmKind = Slti | Sltiu | Xori | Ori | Andi

  datatype ShiftKind = Slli | Srli | Srai

  /** The register operations that exist for every operand size. */
  datatype AluKind = Add | Sub | Sll | Srl | Sra | Mul | Div | Divu | Rem | Remu

  /** The register operations that exist for the whole register only. */
  datatype LogicKind = Slt | Sltu | Xor | Or | And | Mulh | Mulhsu | Mulhu

  datatype AmoKind =
    | LoadReserved | StoreConditional | AmoSwap | AmoAdd | AmoXor | AmoOr | AmoAnd
    | AmoMin | AmoMax | AmoMinu | AmoMaxu

  datatype SystemKind = Ecall | Ebreak | Uret | Sret | Hret | Mret | Dret | Wfi

  datatype CsrKind = ReadWrite | ReadSet | ReadClear

  datatype FmaKind = FMadd | FMsub | FNmsub | FNmadd

  datatype IntFormat = CvtW | CvtWu | CvtL | CvtLu

  /** The floating-point operations of one format. */
  datatype FpOp =
    | FAdd | FSub | FMul | FDiv | FSqrt
    | FSgnj | FSgnjn | FSgnjx | FMin | FMax
    | FLe | FLt | FEq
    | FToInt(ity: IntFormat) | FFromInt(ity: IntFormat)
    | FMoveToInt | FClass | FMoveFromInt

  /** The conversions between two floating-point formats, target first. */
  datatype FConvertKind = FcvtSD | FcvtSQ | FcvtDS | FcvtDQ | FcvtQS | FcvtQD

  /** The 32-bit instructions. */
  datatype WideOp =
    | Lui | Auipc | Jal | Jalr
    | Branch(branch: BranchKind)
    | Load(load: LoadKind)
    | Store(store: StoreKind)
    | AddImm(size: Size)
    | ShiftImm(shift: ShiftKind, size: Size)
    | LogicImm(imm: ImmKind)
    | Arith(alu: AluKind, size: Size)
    | Logic(logic: LogicKind)
    | Fence | FenceI
    | Amo(amo: AmoKind, width: Width)
    | System(system: SystemKind)
    | SfenceVm | SfenceVma
    | Csr(csr: CsrKind) | CsrImm(csr: CsrKind)
    | FLoad(fmt: Fmt) | FStore(fmt: Fmt)
    | Fma(fma: FmaKind, fmt: Fmt)
    | Fp(fp: FpOp, fmt: Fmt)
    | FConvert(convert: FConvertKind)

  datatype CompressedOp =
    | CAddi4spn | CFld | CLw | CFlw | CFsd | CSw | CFsw | CNop | CAddi | CJal | CLi
    | CAddi16sp | CLui | CSrli | CSrai | CAndi | CSub | CXor | COr | CAnd | CSubw | CAddw
    | CJ | CBeqz | CBnez | CSlli | CFldsp | CLwsp | CFlwsp | CJr | CMv | CEbreak | CJalr | CAdd
    | CFsdsp | CSwsp | CFswsp | CLd | CSd | CAddiw | CLdsp | CSdsp | CLq | CSq | CLqsp | CSqsp

  predicate IsShortLoad(op: CompressedOp) {
    || op.CFld? || op.CLw? || op.CFlw? || op.CLd? || op.CLq?
    || op.CFldsp? || op.CLwsp? || op.CFlwsp? || op.CLdsp? || op.CLqsp?
  }

  predicate IsShortStore(op: CompressedOp) {
    || op.CFsd? || op.CSw? || op.CFsw? || op.CSd? || op.CSq?
    || op.CFsdsp? || op.CSwsp? || op.CFswsp? || op.CSdsp? || op.CSqsp?
  }

  predicate IsStackRelative(op: CompressedOp) {
    || op.CFldsp? || op.CLwsp? || op.CFlwsp? || op.CLdsp? || op.CLqsp?
    || op.CFsdsp? || op.CSwsp? || op.CFswsp? || op.CSdsp? || op.CSqsp?
  }

  /** The compressed loads and stores. */
  predicate IsAccess(op: CompressedOp) {
    IsShortLoad(op) || IsShortStore(op)
  }

  datatype CounterKind = Cycle | Time | Instret

  datatype FloatCsrKind = Fcsr | Frm | Fflags

  datatype FMoveKind = FMv | FNeg | FAbs

  datatype BranchPseudo = Beqz | Bnez | Blez | Bgez | Bltz | Bgtz | Ble | Bleu | Bgt | Bgtu

  datatype PseudoOp =
    | Nop | Mv | Not | Neg | Negw | SextW | Seqz | Snez | Sltz | Sgtz
    | FMove(move: FMoveKind, fmt: Fmt)
    | BranchTo(test: BranchPseudo)
    | J | Ret | Jr
    | ReadCounter(counter: CounterKind) | ReadCounterHigh(counter: CounterKind)
    | ReadFloatCsr(fcsr: FloatCsrKind) | WriteFloatCsr(fcsr: FloatCsrKind)
    | Fsrmi | Fsflagsi

  datatype Op = Illegal | Wide(wide: WideOp) | Compressed(short: CompressedOp) | Pseudo(pseudo: PseudoOp)

  datatype Codec =
    | CodecIllegal | CodecNone | CodecU | CodecUJ | CodecI | CodecISh5 | CodecISh6 | CodecISh7
    | CodecICsr | CodecS | CodecSB | CodecR | CodecRM | CodecR4M | CodecRA | CodecRL | CodecRF
    | CodecCB | CodecCBImm | CodecCBSh5 | CodecCBSh6 | CodecCI | CodecCISh5 | CodecCISh6
    | CodecCI16sp | CodecCILwsp | CodecCILdsp | CodecCILqsp | CodecCILi | CodecCILui | CodecCINone
    | CodecCIW4spn | CodecCJ | CodecCJJal | CodecCLLw | CodecCLLd | CodecCLLq
    | CodecCR | CodecCRMv | CodecCRJalr | CodecCRJr | CodecCS | CodecCSSw | CodecCSSd | CodecCSSq
    | CodecCSSSwsp | CodecCSSSdsp | CodecCSSSqsp

  function FpCodec(fp: FpOp): Codec {
    match fp
    case FAdd | FSub | FMul | FDiv | FSqrt | FToInt(_) | FFromInt(_) => CodecRM
    case _ => CodecR
  }

  function WideCodec(op: WideOp): Codec {
    match op
    case Lui | Auipc => CodecU
    case Jal => CodecUJ
    case Jalr | Load(_) | AddImm(_) | LogicImm(_) | FLoad(_) => CodecI
    case ShiftImm(_, size) => (match size case Full => CodecISh7 case Low32 => CodecISh5 case Low64 => CodecISh6)
    case Branch(_) => CodecSB
    case Store(_) | FStore(_) => CodecS
    case Arith(_, _) | Logic(_) | SfenceVm | SfenceVma => CodecR
    case Fence => CodecRF
    case FenceI | System(_) => CodecNone
    case Amo(kind, _) => if kind == LoadReserved then CodecRL else CodecRA
    case Csr(_) | CsrImm(_) => CodecICsr
    case Fma(_, _) => CodecR4M
    case Fp(fp, _) => FpCodec(fp)
    case FConvert(_) => CodecRM
  }

  function CompressedCodec(op: CompressedOp): Codec {
    match op
    case CAddi4spn => CodecCIW4spn
    case CFld | CLd => CodecCLLd
    case CLw | CFlw => CodecCLLw
    case CLq => CodecCLLq
    case CFsd | CSd => CodecCSSd
    case CSw | CFsw => CodecCSSw
    case CSq => CodecCSSq
    case CNop | CEbreak => CodecCINone
    case CAddi | CAddiw => CodecCI
    case CJal => CodecCJJal
    case CLi => CodecCILi
    case CAddi16sp => CodecCI16sp
    case CLui => CodecCILui
    case CSrli | CSrai => CodecCBSh6
    case CAndi => CodecCBImm
    case CSub | CXor | COr | CAnd | CSubw | CAddw => CodecCS
    case CJ => CodecCJ
    case CBeqz | CBnez => CodecCB
    case CSlli => CodecCISh6
    case CFldsp | CLdsp => CodecCILdsp
    case CLwsp | CFlwsp => CodecCILwsp
    case CLqsp => CodecCILqsp
    case CJr => CodecCRJr
    case CMv => CodecCRMv
    case CJalr => CodecCRJalr
    case CAdd => CodecCR
    case CFsdsp | CSdsp => CodecCSSSdsp
    case CSwsp | CFswsp => CodecCSSSwsp
    case CSqsp => CodecCSSSqsp
  }

  function PseudoCodec(op: PseudoOp): Codec {
    match op
    case Nop | Mv | Not | SextW | Seqz | Ret | Jr => CodecI
    case Neg | Negw | Snez | Sltz | Sgtz | FMove(_, _) => CodecR
    case BranchTo(_) => CodecSB
    case J => CodecUJ
    case ReadCounter(_) | ReadCounterHigh(_) | ReadFloatCsr(_) | WriteFloatCsr(_) | Fsrmi | Fsflagsi => CodecICsr
  }

  /** The codec column of the opcode table. */
  function CodecOf(op: Op): Codec {
    match op
    case Illegal => CodecIllegal
    case Wide(wide) => WideCodec(wide)
    case Compressed(short) => CompressedCodec(short)
    case Pseudo(pseudo) => PseudoCodec(pseudo)
  }

  /** The 32-bit opcode in the decompression columns of a row: the same in every column that is not 0. */
  function ExpansionOf(op: CompressedOp): WideOp {
    match op
    case CAddi4spn | CNop | CAddi | CLi | CAddi16sp | CMv => AddImm(Full)
    case CFld | CFldsp => FLoad(Double)
    case CLw | CLwsp => Load(Lw)
    case CFlw | CFlwsp => FLoad(Single)
    case CFsd | CFsdsp => FStore(Double)
    case CSw | CSwsp => Store(Sw)
    case CFsw | CFswsp => FStore(Single)
    case CJal | CJ => Jal
    case CLui => Lui
    case CSrli => ShiftImm(Srli, Full)
    case CSrai => ShiftImm(Srai, Full)
    case CAndi => LogicImm(Andi)
    case CSub => Arith(Sub, Full)
    case CXor => Logic(Xor)
    case COr => Logic(Or)
    case CAnd => Logic(And)
    case CSubw => Arith(Sub, Low32)
    case CAddw => Arith(Add, Low32)
    case CBeqz => Branch(Beq)
    case CBnez => Branch(Bne)
    case CSlli => ShiftImm(Slli, Full)
    case CJr | CJalr => Jalr
    case CEbreak => System(Ebreak)
    case CAdd => Arith(Add, Full)
    case CLd | CLdsp => Load(Ld)
    case CSd | CSdsp => Store(Sd)
    case CAddiw => AddImm(Low32)
    case CLq | CLqsp => Load(Lq)
    case CSq | CSqsp => Store(Sq)
  }

  /** Whether the column of an instruction set is not 0. */
  predicate HasExpansion(op: CompressedOp, isa: Isa) {
    match op
    case CFlw | CFsw | CFlwsp | CFswsp | CJal => isa == Rv32
    case CFld | CFsd => isa != Rv128
    case CLd | CSd | CAddiw | CLdsp | CSdsp => isa != Rv32
    case CLq | CSq | CLqsp | CSqsp => isa == Rv128
    case _ => true
  }

  /** The decompression columns of the opcode table; None where they hold 0. */
  function DecompressesTo(op: CompressedOp, isa: Isa): Option<WideOp> {
    if HasExpansion(op, isa) then Some(ExpansionOf(op)) else None
  }

  /** The rows whose expansion is illegal for a zero immediate (the hint flag of c.addi is never tested). */
  predicate NeedsNonZeroImm(op: CompressedOp) {
    match op
    case CAddi4spn | CAddi16sp | CLui | CSrli | CSrai | CAndi | CSlli => true
    case _ => false
  }
}
