/**
 Mnemonics: the name column of the opcode table, and a recogniser that finds
 the opcode of a mnemonic, which makes the names of the opcodes that the
 disassembler can print pairwise distinct.
*/
module Mnemonics {
  import opened Opcodes

  function SizeSuffix(size: Size): string {
    match size
    case Full => "" case Low32 => "w" case Low64 => "d"
  }

  function WidthSuffix(width: Width): string {
    match width
    case Word => ".w" case Dword => ".d" case Qword => ".q"
  }

  function FmtSuffix(fmt: Fmt): string {
    match fmt
    case Single => ".s" case Double => ".d" case Quad => ".q"
  }

  function BranchName(branch: BranchKind): string {
    match branch
    case Beq => "beq" case Bne => "bne" case Blt => "blt" case Bge => "bge" case Bltu => "bltu" case Bgeu => "bgeu"
  }

  function LoadName(load: LoadKind): string {
    match load
    case Lb => "lb" case Lh => "lh" case Lw => "lw" case Ld => "ld" case Lbu => "lbu"
    case Lhu => "lhu" case Lwu => "lwu" case Ldu => "ldu" case Lq => "lq"
  }

  function StoreName(store: StoreKind): string {
    match store
    case Sb => "sb" case Sh => "sh" case Sw => "sw" case Sd => "sd" case Sq => "sq"
  }

  function ImmName(imm: ImmKind): string {
    match imm
    case Slti => "slti" case Sltiu => "sltiu" case Xori => "xori" case Ori => "ori" case Andi => "andi"
  }

  function ShiftName(shift: ShiftKind): string {
    match shift
    case Slli => "slli" case Srli => "srli" case Srai => "srai"
  }

  function AluName(alu: AluKind): string {
    match alu
    case Add => "add" case Sub => "sub" case Sll => "sll" case Srl => "srl" case Sra => "sra"
    case Mul => "mul" case Div => "div" case Divu => "divu" case Rem => "rem" case Remu => "remu"
  }

  function LogicName(logic: LogicKind): string {
    match logic
    case Slt => "slt" case Sltu => "sltu" case Xor => "xor" case Or => "or"
    case And => "and" case Mulh => "mulh" case Mulhsu => "mulhsu" case Mulhu => "mulhu"
  }

  function AmoName(amo: AmoKind): string {
    match amo
    case LoadReserved => "lr" case StoreConditional => "sc" case AmoSwap => "amoswap" case AmoAdd => "amoadd"
    case AmoXor => "amoxor" case AmoOr => "amoor" case AmoAnd => "amoand" case AmoMin => "amomin"
    case AmoMax => "amomax" case AmoMinu => "amominu" case AmoMaxu => "amomaxu"
  }

  function SystemName(system: SystemKind): string {
    match system
    case Ecall => "ecall" case Ebreak => "ebreak" case Uret => "uret" case Sret => "sret"
    case Hret => "hret" case Mret => "mret" case Dret => "dret" case Wfi => "wfi"
  }

  function CsrAccessName(csr: CsrKind): string {
    match csr
    case ReadWrite => "csrrw" case ReadSet => "csrrs" case ReadClear => "csrrc"
  }

  function FmaName(fma: FmaKind): string {
    match fma
    case FMadd => "fmadd" case FMsub => "fmsub" case FNmsub => "fnmsub" case FNmadd => "fnmadd"
  }

  function IntFormatSuffix(ity: IntFormat): string {
    match ity case CvtW => ".w" case CvtWu => ".wu" case CvtL => ".l" case CvtLu => ".lu"
  }

  function FpName(fp: FpOp, fmt: Fmt): string {
    match fp
    case FToInt(ity) => "fcvt" + IntFormatSuffix(ity) + FmtSuffix(fmt)
    case FFromInt(ity) => "fcvt" + FmtSuffix(fmt) + IntFormatSuffix(ity)
    case FMoveToInt => "fmv.x" + FmtSuffix(fmt)
    case FMoveFromInt => "fmv" + FmtSuffix(fmt) + ".x"
    case _ => FpStem(fp) + FmtSuffix(fmt)
  }

  function FpStem(fp: FpOp): string {
    match fp
    case FAdd => "fadd" case FSub => "fsub" case FMul => "fmul" case FDiv => "fdiv" case FSqrt => "fsqrt"
    case FSgnj => "fsgnj" case FSgnjn => "fsgnjn" case FSgnjx => "fsgnjx" case FMin => "fmin" case FMax => "fmax"
    case FLe => "fle" case FLt => "flt" case FEq => "feq" case FClass => "fclass"
    case _ => ""
  }

  function FConvertName(convert: FConvertKind): string {
    match convert
    case FcvtSD => "fcvt.s.d" case FcvtSQ => "fcvt.s.q" case FcvtDS => "fcvt.d.s"
    case FcvtDQ => "fcvt.d.q" case FcvtQS => "fcvt.q.s" case FcvtQD => "fcvt.q.d"
  }

  function FloatWidthName(fmt: Fmt): string {
    match fmt case Single => "w" case Double => "d" case Quad => "q"
  }

  function WideName(op: WideOp): string {
    match op
    case Lui => "lui" case Auipc => "auipc" case Jal => "jal" case Jalr => "jalr"
    case Branch(branch) => BranchName(branch)
    case Load(load) => LoadName(load)
    case Store(store) => StoreName(store)
    case AddImm(size) => "addi" + SizeSuffix(size)
    case ShiftImm(shift, size) => ShiftName(shift) + SizeSuffix(size)
    case LogicImm(imm) => ImmName(imm)
    case Arith(alu, size) => AluName(alu) + SizeSuffix(size)
    case Logic(logic) => LogicName(logic)
    case Fence => "fence" case FenceI => "fence.i"
    case Amo(amo, width) => AmoName(amo) + WidthSuffix(width)
    case System(system) => SystemName(system)
    case SfenceVm => "sfence.vm" case SfenceVma => "sfence.vma"
    case Csr(csr) => CsrAccessName(csr)
    case CsrImm(csr) => CsrAccessName(csr) + "i"
    case FLoad(fmt) => "fl" + FloatWidthName(fmt)
    case FStore(fmt) => "fs" + FloatWidthName(fmt)
    case Fma(fma, fmt) => FmaName(fma) + FmtSuffix(fmt)
    case Fp(fp, fmt) => FpName(fp, fmt)
    case FConvert(convert) => FConvertName(convert)
  }

  function CompressedName(op: CompressedOp): string {
    match op
    case CAddi4spn => "c.addi4spn" case CFld => "c.fld" case CLw => "c.lw" case CFlw => "c.flw"
    case CFsd => "c.fsd" case CSw => "c.sw" case CFsw => "c.fsw" case CNop => "c.nop"
    case CAddi => "c.addi" case CJal => "c.jal" case CLi => "c.li" case CAddi16sp => "c.addi16sp"
    case CLui => "c.lui" case CSrli => "c.srli" case CSrai => "c.srai" case CAndi => "c.andi"
    case CSub => "c.sub" case CXor => "c.xor" case COr => "c.or" case CAnd => "c.and"
    case CSubw => "c.subw" case CAddw => "c.addw" case CJ => "c.j" case CBeqz => "c.beqz"
    case CBnez => "c.bnez" case CSlli => "c.slli" case CFldsp => "c.fldsp" case CLwsp => "c.lwsp"
    case CFlwsp => "c.flwsp" case CJr => "c.jr" case CMv => "c.mv" case CEbreak => "c.ebreak"
    case CJalr => "c.jalr" case CAdd => "c.add" case CFsdsp => "c.fsdsp" case CSwsp => "c.swsp"
    case CFswsp => "c.fswsp" case CLd => "c.ld" case CSd => "c.sd" case CAddiw => "c.addiw"
    case CLdsp => "c.ldsp" case CSdsp => "c.sdsp" case CLq => "c.lq" case CSq => "c.sq"
    case CLqsp => "c.lqsp" case CSqsp => "c.sqsp"
  }

  function CounterName(counter: CounterKind): string {
    match counter
    case Cycle => "rdcycle" case Time => "rdtime" case Instret => "rdinstret"
  }

  function FMoveName(move: FMoveKind): string {
    match move
    case FMv => "fmv" case FNeg => "fneg" case FAbs => "fabs"
  }

  function BranchPseudoName(test: BranchPseudo): string {
    match test
    case Beqz => "beqz" case Bnez => "bnez" case Blez => "blez" case Bgez => "bgez" case Bltz => "bltz"
    case Bgtz => "bgtz" case Ble => "ble" case Bleu => "bleu" case Bgt => "bgt" case Bgtu => "bgtu"
  }

  function PseudoName(op: PseudoOp): string {
    match op
    case Nop => "nop" case Mv => "mv" case Not => "not" case Neg => "neg" case Negw => "negw"
    case SextW => "sext.w" case Seqz => "seqz" case Snez => "snez" case Sltz => "sltz" case Sgtz => "sgtz"
    case J => "j" case Ret => "ret" case Jr => "jr" case Fsrmi => "fsrmi" case Fsflagsi => "fsflagsi"
    case FMove(move, fmt) => FMoveName(move) + FmtSuffix(fmt)
    case BranchTo(test) => BranchPseudoName(test)
    case ReadCounter(counter) => CounterName(counter)
    case ReadCounterHigh(counter) => CounterName(counter) + "h"
    case ReadFloatCsr(fcsr) => (match fcsr case Fcsr => "frcsr" case Frm => "frrm" case Fflags => "frflags")
    case WriteFloatCsr(fcsr) => (match fcsr case Fcsr => "fscsr" case Frm => "fsrm" case Fflags => "fsflags")
  }

  /** The name column of the opcode table. */
  function NameOf(op: Op): string {
    match op
    case Illegal => "illegal"
    case Wide(wide) => WideName(wide)
    case Compressed(short) => CompressedName(short)
    case Pseudo(pseudo) => PseudoName(pseudo)
  }

  // ----- the mnemonics, listed

  /** The base integer instructions. */
  lemma IntegerMnemonics()
    ensures [WideName(Lui), WideName(Auipc), WideName(Jal), WideName(Jalr)] == ["lui", "auipc", "jal", "jalr"]
    ensures [BranchName(Beq), BranchName(Bne), BranchName(Blt), BranchName(Bge), BranchName(Bltu), BranchName(Bgeu)]
         == ["beq", "bne", "blt", "bge", "bltu", "bgeu"]
    ensures [LoadName(Lb), LoadName(Lh), LoadName(Lw), LoadName(Ld), LoadName(Lq), LoadName(Lbu), LoadName(Lhu),
             LoadName(Lwu), LoadName(Ldu)]
         == ["lb", "lh", "lw", "ld", "lq", "lbu", "lhu", "lwu", "ldu"]
    ensures [StoreName(Sb), StoreName(Sh), StoreName(Sw), StoreName(Sd), StoreName(Sq)]
         == ["sb", "sh", "sw", "sd", "sq"]
  {}

  /** The arithmetic instructions; those on fewer bits take the suffix of their size. */
  lemma ArithmeticMnemonics()
    ensures [ImmName(Slti), ImmName(Sltiu), ImmName(Xori), ImmName(Ori), ImmName(Andi)]
         == ["slti", "sltiu", "xori", "ori", "andi"]
    ensures [ShiftName(Slli), ShiftName(Srli), ShiftName(Srai)] == ["slli", "srli", "srai"]
    ensures [AluName(Add), AluName(Sub), AluName(Sll), AluName(Srl), AluName(Sra), AluName(Mul), AluName(Div),
             AluName(Divu), AluName(Rem), AluName(Remu)]
         == ["add", "sub", "sll", "srl", "sra", "mul", "div", "divu", "rem", "remu"]
    ensures [LogicName(Slt), LogicName(Sltu), LogicName(Xor), LogicName(Or), LogicName(And), LogicName(Mulh),
             LogicName(Mulhsu), LogicName(Mulhu)]
         == ["slt", "sltu", "xor", "or", "and", "mulh", "mulhsu", "mulhu"]
    ensures [SizeSuffix(Full), SizeSuffix(Low32), SizeSuffix(Low64)] == ["", "w", "d"]
  {}

  /** The fences, the system instructions and the CSR instructions. */
  lemma SystemMnemonics()
    ensures [WideName(Fence), WideName(FenceI), WideName(SfenceVm), WideName(SfenceVma)]
         == ["fence", "fence.i", "sfence.vm", "sfence.vma"]
    ensures [SystemName(Ecall), SystemName(Ebreak), SystemName(Uret), SystemName(Sret), SystemName(Hret),
             SystemName(Mret), SystemName(Dret), SystemName(Wfi)]
         == ["ecall", "ebreak", "uret", "sret", "hret", "mret", "dret", "wfi"]
    ensures [CsrAccessName(ReadWrite), CsrAccessName(ReadSet), CsrAccessName(ReadClear)]
         == ["csrrw", "csrrs", "csrrc"]
  {}

  /** The atomic instructions, with the suffix of their width. */
  lemma AtomicMnemonics()
    ensures [AmoName(LoadReserved), AmoName(StoreConditional), AmoName(AmoSwap), AmoName(AmoAdd), AmoName(AmoXor),
             AmoName(AmoAnd), AmoName(AmoOr), AmoName(AmoMin), AmoName(AmoMax), AmoName(AmoMinu), AmoName(AmoMaxu)]
         == ["lr", "sc", "amoswap", "amoadd", "amoxor", "amoand", "amoor", "amomin", "amomax", "amominu", "amomaxu"]
    ensures [WidthSuffix(Word), WidthSuffix(Dword), WidthSuffix(Qword)] == [".w", ".d", ".q"]
  {}

  /** The floating-point instructions, with the suffix of their format. */
  lemma FloatMnemonics()
    ensures [FmaName(FMadd), FmaName(FMsub), FmaName(FNmsub), FmaName(FNmadd)]
         == ["fmadd", "fmsub", "fnmsub", "fnmadd"]
    ensures [FpStem(FAdd), FpStem(FSub), FpStem(FMul), FpStem(FDiv), FpStem(FSqrt), FpStem(FSgnj), FpStem(FSgnjn),
             FpStem(FSgnjx), FpStem(FMin), FpStem(FMax), FpStem(FEq), FpStem(FLt), FpStem(FLe), FpStem(FClass)]
         == ["fadd", "fsub", "fmul", "fdiv", "fsqrt", "fsgnj", "fsgnjn", "fsgnjx", "fmin", "fmax", "feq", "flt",
             "fle", "fclass"]
  {}

  /** The conversions, and the suffixes of the formats. */
  lemma ConversionMnemonics()
    ensures [FConvertName(FcvtSD), FConvertName(FcvtSQ), FConvertName(FcvtDS), FConvertName(FcvtDQ),
             FConvertName(FcvtQS), FConvertName(FcvtQD)]
         == ["fcvt.s.d", "fcvt.s.q", "fcvt.d.s", "fcvt.d.q", "fcvt.q.s", "fcvt.q.d"]
    ensures [IntFormatSuffix(CvtW), IntFormatSuffix(CvtWu), IntFormatSuffix(CvtL), IntFormatSuffix(CvtLu)]
         == [".w", ".wu", ".l", ".lu"]
    ensures [FmtSuffix(Single), FmtSuffix(Double), FmtSuffix(Quad)] == [".s", ".d", ".q"]
    ensures [FloatWidthName(Single), FloatWidthName(Double), FloatWidthName(Quad)] == ["w", "d", "q"]
  {}

  /** The pseudo-instructions. */
  lemma PseudoMnemonics()
    ensures [PseudoName(Nop), PseudoName(Mv), PseudoName(Not), PseudoName(Neg), PseudoName(Negw), PseudoName(SextW),
             PseudoName(Seqz), PseudoName(Snez), PseudoName(Sltz), PseudoName(Sgtz)]
         == ["nop", "mv", "not", "neg", "negw", "sext.w", "seqz", "snez", "sltz", "sgtz"]
  {}

  lemma JumpPseudoMnemonics()
    ensures [PseudoName(J), PseudoName(Jr), PseudoName(Ret), PseudoName(Fsrmi), PseudoName(Fsflagsi)]
         == ["j", "jr", "ret", "fsrmi", "fsflagsi"]
  {}

  /** The floating-point moves, the branches and the CSR reads and writes among them. */
  lemma MorePseudoMnemonics()
    ensures [FMoveName(FMv), FMoveName(FAbs), FMoveName(FNeg)] == ["fmv", "fabs", "fneg"]
    ensures [BranchPseudoName(Beqz), BranchPseudoName(Bnez), BranchPseudoName(Blez), BranchPseudoName(Bgez),
             BranchPseudoName(Bltz), BranchPseudoName(Bgtz), BranchPseudoName(Bgt), BranchPseudoName(Ble),
             BranchPseudoName(Bgtu), BranchPseudoName(Bleu)]
         == ["beqz", "bnez", "blez", "bgez", "bltz", "bgtz", "bgt", "ble", "bgtu", "bleu"]
    ensures [CounterName(Instret), CounterName(Cycle), CounterName(Time)] == ["rdinstret", "rdcycle", "rdtime"]
  {}

  lemma FloatCsrMnemonics()
    ensures [PseudoName(ReadFloatCsr(Fcsr)), PseudoName(ReadFloatCsr(Frm)), PseudoName(ReadFloatCsr(Fflags))]
         == ["frcsr", "frrm", "frflags"]
    ensures [PseudoName(WriteFloatCsr(Fcsr)), PseudoName(WriteFloatCsr(Frm)), PseudoName(WriteFloatCsr(Fflags))]
         == ["fscsr", "fsrm", "fsflags"]
  {}

  /** Names that are put together, at one member each of the families concerned. */
  lemma ComposedMnemonics()
    ensures WideName(CsrImm(ReadSet)) == "csrrsi" && WideName(ShiftImm(Srai, Low64)) == "sraid"
    ensures WideName(FLoad(Single)) == "flw" && WideName(FStore(Double)) == "fsd"
  {}

  lemma ComposedFloatMnemonics()
    ensures FpName(FToInt(CvtWu), Double) == "fcvt.wu.d" && FpName(FFromInt(CvtL), Single) == "fcvt.s.l"
    ensures FpName(FMoveToInt, Single) == "fmv.x.s" && FpName(FMoveFromInt, Single) == "fmv.s.x"
  {}

  // ----- recognising mnemonics, by length and distinguishing characters

  function FmtNamed(c: char): Fmt {
    if c == 's' then Single else if c == 'd' then Double else Quad
  }

  function WidthNamed(c: char): Width {
    if c == 'w' then Word else if c == 'd' then Dword else Qword
  }

  function Named1(s: string): Op
    requires |s| == 1
  {
    Pseudo(J)
  }

  function Named2(s: string): Op
    requires |s| == 2
  {
    match s[1]
     case 'b' => (match s[0]
       case 'l' => Wide(Load(Lb))
       case _ => Wide(Store(Sb)))
     case 'd' => (match s[0]
       case 'l' => Wide(Load(Ld))
       case _ => Wide(Store(Sd)))
     case 'h' => (match s[0]
       case 'l' => Wide(Load(Lh))
       case _ => Wide(Store(Sh)))
     case 'q' => (match s[0]
       case 'l' => Wide(Load(Lq))
       case _ => Wide(Store(Sq)))
     case 'r' => (match s[0]
       case 'j' => Pseudo(Jr)
       case _ => Wide(Logic(Or)))
     case 'v' => Pseudo(Mv)
     case _ => (match s[0]
       case 'l' => Wide(Load(Lw))
       case _ => Wide(Store(Sw)))
  }

  function Named3(s: string): Op
    requires |s| == 3
  {
    match s[2]
     case 'a' => Wide(Arith(Sra, Full))
     case 'b' => Wide(Arith(Sub, Full))
     case 'd' => (match s[1]
       case 'd' => Wide(Arith(Add, Full))
       case 'l' => Wide(FLoad(Double))
       case 'n' => Wide(Logic(And))
       case _ => Wide(FStore(Double)))
     case 'e' => (match s[1]
       case 'g' => Wide(Branch(Bge))
       case 'l' => Pseudo(BranchTo(Ble))
       case _ => Wide(Branch(Bne)))
     case 'g' => Pseudo(Neg)
     case 'i' => (match s[0]
       case 'l' => Wide(Lui)
       case 'o' => Wide(LogicImm(Ori))
       case _ => Wide(System(Wfi)))
     case 'l' => (match s[1]
       case 'a' => Wide(Jal)
       case 'l' => Wide(Arith(Sll, Full))
       case 'r' => Wide(Arith(Srl, Full))
       case _ => Wide(Arith(Mul, Full)))
     case 'm' => Wide(Arith(Rem, Full))
     case 'p' => Pseudo(Nop)
     case 'q' => (match s[1]
       case 'e' => Wide(Branch(Beq))
       case 'l' => Wide(FLoad(Quad))
       case _ => Wide(FStore(Quad)))
     case 'r' => Wide(Logic(Xor))
     case 't' => (match s[0]
       case 'b' => (match s[1]
         case 'g' => Pseudo(BranchTo(Bgt))
         case _ => Wide(Branch(Blt)))
       case 'n' => Pseudo(Not)
       case 'r' => Pseudo(Ret)
       case _ => Wide(Logic(Slt)))
     case 'u' => (match s[1]
       case 'b' => Wide(Load(Lbu))
       case 'd' => Wide(Load(Ldu))
       case 'h' => Wide(Load(Lhu))
       case _ => Wide(Load(Lwu)))
     case 'v' => Wide(Arith(Div, Full))
     case _ => (match s[1]
       case 'l' => Wide(FLoad(Single))
       case _ => Wide(FStore(Single)))
  }

  function Named4(s: string): Op
    requires |s| == 4
  {
    match s[2]
     case '.' => (match s[0]
       case 'l' => Wide(Amo(LoadReserved, WidthNamed(s[|s| - 1])))
       case _ => Wide(Amo(StoreConditional, WidthNamed(s[|s| - 1]))))
     case 'a' => (match s[3]
       case 'd' => Wide(Arith(Sra, Low64))
       case 'i' => Wide(ShiftImm(Srai, Full))
       case _ => Wide(Arith(Sra, Low32)))
     case 'b' => (match s[3]
       case 'd' => Wide(Arith(Sub, Low64))
       case _ => Wide(Arith(Sub, Low32)))
     case 'd' => (match s[3]
       case 'd' => Wide(Arith(Add, Low64))
       case 'i' => (match s[1]
         case 'd' => Wide(AddImm(Full))
         case _ => Wide(LogicImm(Andi)))
       case _ => Wide(Arith(Add, Low32)))
     case 'e' => (match s[0]
       case 'b' => (match s[1]
         case 'g' => (match s[3]
           case 'u' => Wide(Branch(Bgeu))
           case _ => Pseudo(BranchTo(Bgez)))
         case 'l' => (match s[3]
           case 'u' => Pseudo(BranchTo(Bleu))
           case _ => Pseudo(BranchTo(Blez)))
         case _ => Pseudo(BranchTo(Bnez)))
       case 'd' => Wide(System(Dret))
       case 'h' => Wide(System(Hret))
       case 'm' => Wide(System(Mret))
       case 's' => (match s[1]
         case 'n' => Pseudo(Snez)
         case _ => Wide(System(Sret)))
       case _ => Wide(System(Uret)))
     case 'g' => Pseudo(Negw)
     case 'l' => (match s[3]
       case 'd' => (match s[1]
         case 'l' => Wide(Arith(Sll, Low64))
         case 'r' => Wide(Arith(Srl, Low64))
         case _ => Wide(Arith(Mul, Low64)))
       case 'h' => Wide(Logic(Mulh))
       case 'i' => (match s[1]
         case 'l' => Wide(ShiftImm(Slli, Full))
         case _ => Wide(ShiftImm(Srli, Full)))
       case 'r' => Wide(Jalr)
       case _ => (match s[1]
         case 'l' => Wide(Arith(Sll, Low32))
         case 'r' => Wide(Arith(Srl, Low32))
         case _ => Wide(Arith(Mul, Low32))))
     case 'm' => (match s[3]
       case 'd' => Wide(Arith(Rem, Low64))
       case 'u' => Wide(Arith(Remu, Full))
       case _ => Wide(Arith(Rem, Low32)))
     case 'q' => (match s[0]
       case 'b' => Pseudo(BranchTo(Beqz))
       case _ => Pseudo(Seqz))
     case 'r' => (match s[1]
       case 'o' => Wide(LogicImm(Xori))
       case 'r' => Pseudo(ReadFloatCsr(Frm))
       case _ => Pseudo(WriteFloatCsr(Frm)))
     case 't' => (match s[3]
       case 'i' => Wide(LogicImm(Slti))
       case 'u' => (match s[0]
         case 'b' => (match s[1]
           case 'g' => Pseudo(BranchTo(Bgtu))
           case _ => Wide(Branch(Bltu)))
         case _ => Wide(Logic(Sltu)))
       case _ => (match s[0]
         case 'b' => (match s[1]
           case 'g' => Pseudo(BranchTo(Bgtz))
           case _ => Pseudo(BranchTo(Bltz)))
         case _ => (match s[1]
           case 'g' => Pseudo(Sgtz)
           case _ => Pseudo(Sltz))))
     case _ => (match s[3]
       case 'd' => Wide(Arith(Div, Low64))
       case 'u' => Wide(Arith(Divu, Full))
       case _ => Wide(Arith(Div, Low32)))
  }

  function Named5(s: string): Op
    requires |s| == 5
  {
    match s[2]
     case 'a' => (match s[4]
       case 'd' => Wide(ShiftImm(Srai, Low64))
       case 'l' => Wide(System(Ecall))
       case _ => Wide(ShiftImm(Srai, Low32)))
     case 'c' => (match s[1]
       case 'r' => Pseudo(ReadFloatCsr(Fcsr))
       case _ => Pseudo(WriteFloatCsr(Fcsr)))
     case 'd' => (match s[4]
       case 'd' => Wide(AddImm(Low64))
       case _ => Wide(AddImm(Low32)))
     case 'e' => Wide(Fp(FLe, FmtNamed(s[|s| - 1])))
     case 'i' => Wide(Auipc)
     case 'l' => (match s[1]
       case 'l' => (match s[4]
         case 'd' => Wide(ShiftImm(Slli, Low64))
         case _ => Wide(ShiftImm(Slli, Low32)))
       case 'r' => (match s[4]
         case 'd' => Wide(ShiftImm(Srli, Low64))
         case _ => Wide(ShiftImm(Srli, Low32)))
       case _ => Wide(Logic(Mulhu)))
     case 'm' => (match s[4]
       case 'd' => Wide(Arith(Remu, Low64))
       case _ => Wide(Arith(Remu, Low32)))
     case 'n' => Wide(Fence)
     case 'q' => Wide(Fp(FEq, FmtNamed(s[|s| - 1])))
     case 'r' => (match s[4]
       case 'c' => Wide(Csr(ReadClear))
       case 'i' => Pseudo(Fsrmi)
       case 's' => Wide(Csr(ReadSet))
       case _ => Wide(Csr(ReadWrite)))
     case 't' => (match s[0]
       case 'f' => Wide(Fp(FLt, FmtNamed(s[|s| - 1])))
       case _ => Wide(LogicImm(Sltiu)))
     case _ => (match s[0]
       case 'd' => (match s[4]
         case 'd' => Wide(Arith(Divu, Low64))
         case _ => Wide(Arith(Divu, Low32)))
       case _ => Pseudo(FMove(FMv, FmtNamed(s[|s| - 1]))))
  }

  function Named6(s: string): Op
    requires |s| == 6
  {
    match s[3]
     case 'b' => Wide(Fp(FSub, FmtNamed(s[|s| - 1])))
     case 'd' => Wide(Fp(FAdd, FmtNamed(s[|s| - 1])))
     case 'e' => Wide(System(Ebreak))
     case 'g' => Pseudo(FMove(FNeg, FmtNamed(s[|s| - 1])))
     case 'h' => Wide(Logic(Mulhsu))
     case 'i' => Pseudo(ReadCounter(Time))
     case 'l' => Wide(Fp(FMul, FmtNamed(s[|s| - 1])))
     case 'n' => Wide(Fp(FMin, FmtNamed(s[|s| - 1])))
     case 'r' => (match s[4]
       case 'c' => Wide(CsrImm(ReadClear))
       case 's' => Wide(CsrImm(ReadSet))
       case _ => Wide(CsrImm(ReadWrite)))
     case 's' => Pseudo(FMove(FAbs, FmtNamed(s[|s| - 1])))
     case 't' => Pseudo(SextW)
     case 'v' => Wide(Fp(FDiv, FmtNamed(s[|s| - 1])))
     case _ => Wide(Fp(FMax, FmtNamed(s[|s| - 1])))
  }

  function Named7(s: string): Op
    requires |s| == 7
  {
    match s[2]
     case 'a' => Wide(Fma(FMadd, FmtNamed(s[|s| - 1])))
     case 'c' => Pseudo(ReadCounter(Cycle))
     case 'f' => (match s[1]
       case 'r' => Pseudo(ReadFloatCsr(Fflags))
       case _ => Pseudo(WriteFloatCsr(Fflags)))
     case 'g' => Wide(Fp(FSgnj, FmtNamed(s[|s| - 1])))
     case 'n' => Wide(FenceI)
     case 'o' => Wide(Amo(AmoOr, WidthNamed(s[|s| - 1])))
     case 'q' => Wide(Fp(FSqrt, FmtNamed(s[|s| - 1])))
     case 's' => Wide(Fma(FMsub, FmtNamed(s[|s| - 1])))
     case 't' => Pseudo(ReadCounterHigh(Time))
     case _ => (match s[4]
       case 'd' | 'q' | 's' => Wide(Fp(FMoveFromInt, FmtNamed(s[4])))
       case _ => Wide(Fp(FMoveToInt, FmtNamed(s[|s| - 1]))))
  }

  function Named8(s: string): Op
    requires |s| == 8
  {
    match s[5]
     case 'b' => Wide(Fma(FNmsub, FmtNamed(s[|s| - 1])))
     case 'd' => (match s[1]
       case 'c' => (match s[7]
         case 'l' => Wide(Fp(FFromInt(CvtL), FmtNamed(s[5])))
         case 'q' => Wide(FConvert(FcvtDQ))
         case 's' => Wide(FConvert(FcvtDS))
         case _ => Wide(Fp(FFromInt(CvtW), FmtNamed(s[5]))))
       case 'm' => (match s[4]
         case 'd' => Wide(Amo(AmoAdd, WidthNamed(s[|s| - 1])))
         case _ => Wide(Amo(AmoAnd, WidthNamed(s[|s| - 1]))))
       case _ => Wide(Fma(FNmadd, FmtNamed(s[|s| - 1]))))
     case 'g' => Pseudo(Fsflagsi)
     case 'l' => (match s[0]
       case 'f' => Wide(Fp(FToInt(CvtL), FmtNamed(s[|s| - 1])))
       case _ => Pseudo(ReadCounterHigh(Cycle)))
     case 'n' => (match s[0]
       case 'a' => Wide(Amo(AmoMin, WidthNamed(s[|s| - 1])))
       case _ => Wide(Fp(FSgnjn, FmtNamed(s[|s| - 1]))))
     case 'q' => (match s[7]
       case 'd' => Wide(FConvert(FcvtQD))
       case 'l' => Wide(Fp(FFromInt(CvtL), FmtNamed(s[5])))
       case 's' => Wide(FConvert(FcvtQS))
       case _ => Wide(Fp(FFromInt(CvtW), FmtNamed(s[5]))))
     case 'r' => Wide(Amo(AmoXor, WidthNamed(s[|s| - 1])))
     case 's' => (match s[7]
       case 'd' => (match s[2]
         case 'l' => Wide(Fp(FClass, FmtNamed(s[|s| - 1])))
         case _ => Wide(FConvert(FcvtSD)))
       case 'l' => Wide(Fp(FFromInt(CvtL), FmtNamed(s[5])))
       case 'q' => (match s[2]
         case 'l' => Wide(Fp(FClass, FmtNamed(s[|s| - 1])))
         case _ => Wide(FConvert(FcvtSQ)))
       case 's' => Wide(Fp(FClass, FmtNamed(s[|s| - 1])))
       case _ => Wide(Fp(FFromInt(CvtW), FmtNamed(s[5]))))
     case 'w' => Wide(Fp(FToInt(CvtW), FmtNamed(s[|s| - 1])))
     case _ => (match s[0]
       case 'a' => Wide(Amo(AmoMax, WidthNamed(s[|s| - 1])))
       case _ => Wide(Fp(FSgnjx, FmtNamed(s[|s| - 1]))))
  }

  function Named9(s: string): Op
    requires |s| == 9
  {
    match s[5]
     case 'a' => Wide(Amo(AmoSwap, WidthNamed(s[|s| - 1])))
     case 'd' => (match s[7]
       case 'l' => Wide(Fp(FFromInt(CvtLu), FmtNamed(s[5])))
       case _ => Wide(Fp(FFromInt(CvtWu), FmtNamed(s[5]))))
     case 'e' => Wide(SfenceVm)
     case 'l' => Wide(Fp(FToInt(CvtLu), FmtNamed(s[|s| - 1])))
     case 'n' => Wide(Amo(AmoMinu, WidthNamed(s[|s| - 1])))
     case 'q' => (match s[7]
       case 'l' => Wide(Fp(FFromInt(CvtLu), FmtNamed(s[5])))
       case _ => Wide(Fp(FFromInt(CvtWu), FmtNamed(s[5]))))
     case 's' => (match s[7]
       case 'l' => Wide(Fp(FFromInt(CvtLu), FmtNamed(s[5])))
       case _ => Wide(Fp(FFromInt(CvtWu), FmtNamed(s[5]))))
     case 't' => Pseudo(ReadCounter(Instret))
     case 'w' => Wide(Fp(FToInt(CvtWu), FmtNamed(s[|s| - 1])))
     case _ => Wide(Amo(AmoMaxu, WidthNamed(s[|s| - 1])))
  }

  function Named10(s: string): Op
    requires |s| == 10
  {
    match s[0]
     case 'r' => Pseudo(ReadCounterHigh(Instret))
     case _ => Wide(SfenceVma)
  }

  /** The opcode of a mnemonic (any opcode for a string that is none). */
  function OpNamed(s: string): Op {
    match |s|
    case 1 => Named1(s)
    case 2 => Named2(s)
    case 3 => Named3(s)
    case 4 => Named4(s)
    case 5 => Named5(s)
    case 6 => Named6(s)
    case 7 => Named7(s)
    case 8 => Named8(s)
    case 9 => Named9(s)
    case 10 => Named10(s)
    case _ => Illegal
  }

  /** The shape of every mnemonic: short, without blanks, and not ending like an acquire or release flag. */
  predicate IsMnemonic(s: string) {
    && 1 <= |s| <= 10
    && ' ' !in s && '\0' !in s
    && (|s| >= 3 && s[|s| - 3] == '.' ==> s[|s| - 2] != 'a' && s[|s| - 2] != 'r')
  }

  /** The name of the opcode is a mnemonic, and the recogniser finds the opcode back. */
  predicate Named(op: Op) {
    IsMnemonic(NameOf(op)) && OpNamed(NameOf(op)) == op
  }

  lemma NamedBranch(branch: BranchKind)
    ensures Named(Wide(Branch(branch)))
  {}

  lemma NamedLoad(load: LoadKind)
    ensures Named(Wide(Load(load)))
  {}

  lemma NamedStore(store: StoreKind)
    ensures Named(Wide(Store(store)))
  {}

  lemma NamedImm(imm: ImmKind)
    ensures Named(Wide(LogicImm(imm)))
  {}

  lemma NamedAddImm(size: Size)
    ensures Named(Wide(AddImm(size)))
  {}

  lemma NamedShift(shift: ShiftKind, size: Size)
    ensures Named(Wide(ShiftImm(shift, size)))
  {}

  lemma NamedAlu(alu: AluKind, size: Size)
    ensures Named(Wide(Arith(alu, size)))
  {
    hide Named1, Named2, Named6, Named7, Named8, Named9, Named10;
  }

  lemma NamedLogic(logic: LogicKind)
    ensures Named(Wide(Logic(logic)))
  {}

  lemma NamedSystem(system: SystemKind)
    ensures Named(Wide(System(system)))
  {}

  lemma NamedFma(fma: FmaKind, fmt: Fmt)
    ensures Named(Wide(Fma(fma, fmt)))
  {
    hide Named1, Named2, Named3, Named4, Named5, Named6, Named9, Named10;
  }

  lemma NamedConvert(convert: FConvertKind)
    ensures Named(Wide(FConvert(convert)))
  {}

  lemma NamedAmo(amo: AmoKind, width: Width)
    requires amo.LoadReserved? || amo.StoreConditional? || amo.AmoSwap? || amo.AmoAdd? || amo.AmoXor?
    ensures Named(Wide(Amo(amo, width)))
  {
    hide Named1, Named2, Named3, Named5, Named6, Named10;
  }

  lemma NamedMoreAmo(amo: AmoKind, width: Width)
    requires !(amo.LoadReserved? || amo.StoreConditional? || amo.AmoSwap? || amo.AmoAdd? || amo.AmoXor?)
    ensures Named(Wide(Amo(amo, width)))
  {
    hide Named1, Named2, Named3, Named4, Named5, Named6, Named10;
  }

  lemma NamedFpArith(fp: FpOp, fmt: Fmt)
    requires fp.FAdd? || fp.FSub? || fp.FMul? || fp.FDiv? || fp.FSqrt?
    ensures Named(Wide(Fp(fp, fmt)))
  {
    hide Named1, Named2, Named3, Named4, Named5, Named8, Named9, Named10;
  }

  lemma NamedFpSign(fp: FpOp, fmt: Fmt)
    requires fp.FSgnj? || fp.FSgnjn? || fp.FSgnjx?
    ensures Named(Wide(Fp(fp, fmt)))
  {
    hide Named1, Named2, Named3, Named4, Named5, Named9, Named10;
  }

  lemma NamedFpMinMax(fp: FpOp, fmt: Fmt)
    requires fp.FMin? || fp.FMax?
    ensures Named(Wide(Fp(fp, fmt)))
  {
    hide Named1, Named2, Named3, Named4, Named5, Named9, Named10;
  }

  lemma NamedFpCompare(fp: FpOp, fmt: Fmt)
    requires fp.FLe? || fp.FLt? || fp.FEq? || fp.FClass?
    ensures Named(Wide(Fp(fp, fmt)))
  {
    hide Named1, Named2, Named3, Named4, Named6, Named7, Named9, Named10;
  }

  lemma NamedFpMove(fp: FpOp, fmt: Fmt)
    requires fp.FMoveToInt? || fp.FMoveFromInt?
    ensures Named(Wide(Fp(fp, fmt)))
  {
    hide Named1, Named2, Named3, Named4, Named5, Named6, Named8, Named9, Named10;
  }

  lemma NamedFToInt(ity: IntFormat, fmt: Fmt)
    ensures Named(Wide(Fp(FToInt(ity), fmt)))
  {
    hide Named1, Named2, Named3, Named4, Named5, Named6, Named7, Named10;
  }

  lemma NamedFFromInt(ity: IntFormat, fmt: Fmt)
    ensures Named(Wide(Fp(FFromInt(ity), fmt)))
  {
    hide Named1, Named2, Named3, Named4, Named5, Named6, Named7, Named10;
  }

  lemma NamedPlain(op: WideOp)
    requires op.Lui? || op.Auipc? || op.Jal? || op.Jalr? || op.Fence? || op.FenceI? || op.SfenceVm? || op.SfenceVma?
    ensures Named(Wide(op))
  {
    hide Named1, Named2, Named6, Named8;
  }

  lemma NamedCsr(csr: CsrKind)
    ensures Named(Wide(Csr(csr)))
  {}

  lemma NamedCsrImm(csr: CsrKind)
    ensures Named(Wide(CsrImm(csr)))
  {}

  lemma NamedFAccess(op: WideOp)
    requires op.FLoad? || op.FStore?
    ensures Named(Wide(op))
  {}

  lemma NamedPseudo(p: PseudoOp)
    requires p.Nop? || p.Mv? || p.Not? || p.Neg? || p.Negw? || p.SextW? || p.Seqz?
    ensures Named(Pseudo(p))
  {
    hide Named1, Named5, Named7, Named8, Named9, Named10;
  }

  lemma NamedMorePseudo(p: PseudoOp)
    requires p.Snez? || p.Sltz? || p.Sgtz? || p.J? || p.Ret? || p.Jr? || p.Fsrmi? || p.Fsflagsi?
    ensures Named(Pseudo(p))
  {
    hide Named6, Named7, Named9, Named10;
  }

  lemma NamedFMove(move: FMoveKind, fmt: Fmt)
    ensures Named(Pseudo(FMove(move, fmt)))
  {}

  lemma NamedBranchTo(test: BranchPseudo)
    ensures Named(Pseudo(BranchTo(test)))
  {}

  lemma NamedCounter(counter: CounterKind)
    ensures Named(Pseudo(ReadCounter(counter)))
  {}

  lemma NamedCounterHigh(counter: CounterKind)
    ensures Named(Pseudo(ReadCounterHigh(counter)))
  {}

  lemma NamedReadFloatCsr(fcsr: FloatCsrKind)
    ensures Named(Pseudo(ReadFloatCsr(fcsr)))
  {}

  lemma NamedWriteFloatCsr(fcsr: FloatCsrKind)
    ensures Named(Pseudo(WriteFloatCsr(fcsr)))
  {}

  lemma NamedWide(op: WideOp)
    ensures Named(Wide(op))
  {
    hide Named;
    match op {
      case Lui | Auipc | Jal | Jalr | Fence | FenceI | SfenceVm | SfenceVma => NamedPlain(op);
      case Branch(branch) => NamedBranch(branch);
      case Load(load) => NamedLoad(load);
      case Store(store) => NamedStore(store);
      case AddImm(size) => NamedAddImm(size);
      case ShiftImm(shift, size) => NamedShift(shift, size);
      case LogicImm(imm) => NamedImm(imm);
      case Arith(alu, size) => NamedAlu(alu, size);
      case Logic(logic) => NamedLogic(logic);
      case Amo(amo, width) =>
        if amo.LoadReserved? || amo.StoreConditional? || amo.AmoSwap? || amo.AmoAdd? || amo.AmoXor? {
          NamedAmo(amo, width);
        } else {
          NamedMoreAmo(amo, width);
        }
      case System(system) => NamedSystem(system);
      case Csr(csr) => NamedCsr(csr);
      case CsrImm(csr) => NamedCsrImm(csr);
      case FLoad(_) | FStore(_) => NamedFAccess(op);
      case Fma(fma, fmt) => NamedFma(fma, fmt);
      case Fp(fp, fmt) => NamedFp(fp, fmt);
      case FConvert(convert) => NamedConvert(convert);
    }
  }

  lemma NamedFp(fp: FpOp, fmt: Fmt)
    ensures Named(Wide(Fp(fp, fmt)))
  {
    hide Named;
    match fp {
      case FAdd | FSub | FMul | FDiv | FSqrt => NamedFpArith(fp, fmt);
      case FSgnj | FSgnjn | FSgnjx => NamedFpSign(fp, fmt);
      case FMin | FMax => NamedFpMinMax(fp, fmt);
      case FLe | FLt | FEq | FClass => NamedFpCompare(fp, fmt);
      case FMoveToInt | FMoveFromInt => NamedFpMove(fp, fmt);
      case FToInt(ity) => NamedFToInt(ity, fmt);
      case FFromInt(ity) => NamedFFromInt(ity, fmt);
    }
  }

  lemma NamedPseudos(p: PseudoOp)
    ensures Named(Pseudo(p))
  {
    hide Named;
    match p {
      case Nop | Mv | Not | Neg | Negw | SextW | Seqz => NamedPseudo(p);
      case Snez | Sltz | Sgtz | J | Ret | Jr | Fsrmi | Fsflagsi => NamedMorePseudo(p);
      case FMove(move, fmt) => NamedFMove(move, fmt);
      case BranchTo(test) => NamedBranchTo(test);
      case ReadCounter(counter) => NamedCounter(counter);
      case ReadCounterHigh(counter) => NamedCounterHigh(counter);
      case ReadFloatCsr(fcsr) => NamedReadFloatCsr(fcsr);
      case WriteFloatCsr(fcsr) => NamedWriteFloatCsr(fcsr);
    }
  }

  /** Every opcode that can be printed after decompression has a mnemonic of its own. */
  lemma NamesAreDistinct(a: Op, b: Op)
    requires (a.Wide? || a.Pseudo?) && (b.Wide? || b.Pseudo?)
    requires NameOf(a) == NameOf(b)
    ensures a == b
  {
    hide NameOf, OpNamed, IsMnemonic;
    PrintedOpsAreNamed(a);
    PrintedOpsAreNamed(b);
  }

  lemma PrintedOpsAreNamed(op: Op)
    requires op.Wide? || op.Pseudo?
    ensures Named(op)
  {
    hide Named;
    if op.Wide? {
      NamedWide(op.wide);
    } else {
      NamedPseudos(op.pseudo);
    }
  }

  lemma PrintedNamesAreMnemonics(op: Op)
    requires !op.Compressed?
    ensures IsMnemonic(NameOf(op))
  {
    hide IsMnemonic;
    if op == Illegal {
      IllegalIsMnemonic();
    } else {
      hide NameOf, OpNamed;
      PrintedOpsAreNamed(op);
    }
  }

  lemma IllegalIsMnemonic()
    ensures IsMnemonic(NameOf(Illegal))
  {}

  // ----- the names of compressed instructions

  /** The compressed instructions named after another instruction than the one they expand to. */
  predicate HasOwnName(op: CompressedOp) {
    op.CNop? || op.CLi? || op.CAddi4spn? || op.CAddi16sp? || op.CJ? || op.CJr? || op.CMv? || op.CBeqz? || op.CBnez?
  }

  lemma StackLoadNamed(op: CompressedOp)
    requires IsShortLoad(op) && IsStackRelative(op)
    ensures CompressedName(op) == "c." + WideName(ExpansionOf(op)) + "sp"
  {}

  lemma StackStoreNamed(op: CompressedOp)
    requires IsShortStore(op) && IsStackRelative(op)
    ensures CompressedName(op) == "c." + WideName(ExpansionOf(op)) + "sp"
  {}

  lemma LoadNamed(op: CompressedOp)
    requires IsShortLoad(op) && !IsStackRelative(op)
    ensures CompressedName(op) == "c." + WideName(ExpansionOf(op))
  {}

  lemma StoreNamed(op: CompressedOp)
    requires IsShortStore(op) && !IsStackRelative(op)
    ensures CompressedName(op) == "c." + WideName(ExpansionOf(op))
  {}

  lemma ShiftOrSumNamed(op: CompressedOp)
    requires op.CSrli? || op.CSrai? || op.CSlli? || op.CSubw? || op.CAddw? || op.CAdd?
    ensures CompressedName(op) == "c." + WideName(ExpansionOf(op))
  {}

  lemma LogicOpNamed(op: CompressedOp)
    requires op.CSub? || op.CXor? || op.COr? || op.CAnd?
    ensures CompressedName(op) == "c." + WideName(ExpansionOf(op))
  {}

  lemma OtherOpNamed(op: CompressedOp)
    requires op.CAddi? || op.CJal? || op.CLui? || op.CAndi? || op.CEbreak? || op.CJalr? || op.CAddiw?
    ensures CompressedName(op) == "c." + WideName(ExpansionOf(op))
  {}

  /** Every other compressed instruction is named after the instruction it expands to. */
  lemma NamedAfterExpansion(op: CompressedOp)
    requires !HasOwnName(op)
    ensures NameOf(Compressed(op)) == "c." + NameOf(Wide(ExpansionOf(op))) + if IsStackRelative(op) then "sp" else ""
  {
    hide CompressedName, WideName, ExpansionOf;
    if IsStackRelative(op) {
      if IsShortLoad(op) {
        StackLoadNamed(op);
      } else {
        StackStoreNamed(op);
      }
    } else {
      if IsShortLoad(op) {
        LoadNamed(op);
      } else if IsShortStore(op) {
        StoreNamed(op);
      } else if op.CAddi? || op.CJal? || op.CLui? || op.CAndi? || op.CEbreak? || op.CJalr? || op.CAddiw? {
        OtherOpNamed(op);
      } else if op.CSub? || op.CXor? || op.COr? || op.CAnd? {
        LogicOpNamed(op);
      } else {
        ShiftOrSumNamed(op);
      }
      assert "c." + WideName(ExpansionOf(op)) + "" == "c." + WideName(ExpansionOf(op));
    }
  }

  /** The other nine, after the instructions of chapter 16. */
  lemma OwnNames()
    ensures [CompressedName(CNop), CompressedName(CLi), CompressedName(CAddi4spn), CompressedName(CAddi16sp),
             CompressedName(CJ), CompressedName(CJr), CompressedName(CMv), CompressedName(CBeqz), CompressedName(CBnez)]
         == ["c.nop", "c.li", "c.addi4spn", "c.addi16sp", "c.j", "c.jr", "c.mv", "c.beqz", "c.bnez"]
  {}
}
