/**
 What instructions do: those that can be lifted or are expanded from compressed
 ones.  The base instructions follow chapters 2, 5, 9 and 11 to 13 of the RISC-V
 manual, the pseudo-instructions their own descriptions in chapter 25; a
 pseudo-instruction sees only the operands that its text shows.  Register values
 are natural numbers below 2^XLEN, for every XLEN.
*/
module Semantics {
  import opened Opcodes
  import opened Operands
  import opened Immediates
  import opened Decoding
  import opened PseudoInstructions
  import opened Formats

  // ----- values

  function Xlen(isa: Isa): nat {
    match isa case Rv32 => 32 case Rv64 => 64 case Rv128 => 128
  }

  function Pow2(n: nat): nat {
    if n == 0 then 1 else 2 * Pow2(n - 1)
  }

  function Modulus(isa: Isa): nat { Pow2(Xlen(isa)) }

  lemma {:induction false} Pow2Sum(m: nat, n: nat)
    ensures Pow2(m + n) == Pow2(m) * Pow2(n)
  {
    if m > 0 {
      Pow2Sum(m - 1, n);
      assert Pow2(m + n) == 2 * Pow2(m - 1 + n);
    }
  }

  lemma {:induction false} Pow2Grows(m: nat, n: nat)
    requires m <= n
    ensures Pow2(m) <= Pow2(n)
  {
    if m < n {
      Pow2Grows(m, n - 1);
    }
  }

  lemma ModulusIsLarge(isa: Isa)
    ensures Modulus(isa) >= 0x1_0000_0000 && Modulus(isa) % 2 == 0
  {
    hide Pow2;
    Pow2Of32();
    Pow2Grows(32, Xlen(isa));
    Pow2IsEven(Xlen(isa));
  }

  lemma Pow2IsEven(n: nat)
    requires n > 0
    ensures Pow2(n) % 2 == 0
  {
    assert Pow2(n) == 2 * Pow2(n - 1);
  }

  lemma Pow2Of32()
    ensures Pow2(32) == 0x1_0000_0000
  {
    assert Pow2(4) == 16;
    Pow2Sum(4, 4);
    Pow2Sum(8, 8);
    assert Pow2(16) == 65536;
    Pow2Sum(16, 16);
  }

  function Wrap(isa: Isa, value: int): (w: nat)
    ensures w < Modulus(isa)
  {
    ModulusIsLarge(isa);
    value % Modulus(isa)
  }

  lemma ModIdentity(value: int, m: nat)
    requires 0 <= value < m
    ensures value % m == value
  {}

  lemma ModOfNegative(value: int, m: nat)
    requires 0 <= value + m < m
    ensures value % m == value + m
  {
    assert value == (value / m) * m + value % m;
  }

  lemma WrapIdentity(isa: Isa, value: int)
    requires 0 <= value < Modulus(isa)
    ensures Wrap(isa, value) == value
  {
    hide Modulus;
    ModIdentity(value, Modulus(isa));
  }

  lemma WrapNegative(isa: Isa, value: int)
    requires 0 <= value + Modulus(isa) < Modulus(isa)
    ensures Wrap(isa, value) == value + Modulus(isa)
  {
    hide Modulus;
    ModOfNegative(value, Modulus(isa));
  }

  function SignedValue(isa: Isa, w: nat): int {
    if w < Modulus(isa) / 2 then w else w - Modulus(isa)
  }

  /** The low 32 bits, sign-extended. */
  function SignExtend32(isa: Isa, value: int): nat {
    var low := value % 0x1_0000_0000;
    Wrap(isa, if low < 0x8000_0000 then low else low - 0x1_0000_0000)
  }

  function BitXor(a: nat, b: nat): nat
    decreases a + b
  {
    if a == 0 then b else if b == 0 then a
    else (a % 2 + b % 2) % 2 + 2 * BitXor(a / 2, b / 2)
  }

  function BitAnd(a: nat, b: nat): nat
    decreases a + b
  {
    if a == 0 || b == 0 then 0 else (a % 2) * (b % 2) + 2 * BitAnd(a / 2, b / 2)
  }

  function BitOr(a: nat, b: nat): nat { BitXor(BitXor(a, b), BitAnd(a, b)) }

  lemma {:induction false} PositivePow2(n: nat)
    ensures Pow2(n) > 0
  {
    if n > 0 {
      PositivePow2(n - 1);
    }
  }

  function Shifted(isa: Isa, shift: ShiftKind, a: nat, amount: nat): nat {
    PositivePow2(amount);
    match shift
    case Slli => Wrap(isa, a * Pow2(amount))
    case Srli => Wrap(isa, a / Pow2(amount))
    case Srai => Wrap(isa, SignedValue(isa, a) / Pow2(amount))
  }

  /** Exclusive or with n ones is the n-bit complement. */
  lemma {:induction false} XorWithOnes(n: nat, a: nat)
    requires a < Pow2(n)
    ensures BitXor(a, Pow2(n) - 1) == Pow2(n) - 1 - a
  {
    if n > 0 && a > 0 {
      XorWithOnes(n - 1, a / 2);
      assert (Pow2(n) - 1) / 2 == Pow2(n - 1) - 1 && (Pow2(n) - 1) % 2 == 1;
    }
  }

  function ClearBit0(value: nat): nat { value - value % 2 }

  // ----- machine state

  /** A floating-point register as its sign and its remaining bits. */
  datatype FloatBits = FloatBits(negative: bool, magnitude: nat)

  /** What the world outside can observe, in order: accesses that may have side effects, and breakpoints. */
  datatype Event =
    | CsrRead(csr: nat) | CsrWrite(csr: nat, value: nat)
    | MemoryRead(address: nat, bytes: nat) | MemoryWrite(address: nat, bytes: nat, value: nat)
    | Breakpoint(pc: nat)

  /** Memory holds bytes; an address that was never written holds 0. */
  datatype State = State(pc: nat, x: seq<nat>, f: seq<FloatBits>, csr: seq<nat>, memory: map<nat, nat>, log: seq<Event>)

  predicate Valid(isa: Isa, s: State) {
    && |s.x| == 32 && |s.f| == 32 && |s.csr| == 4096
    && s.pc < Modulus(isa)
    && (forall r :: 0 <= r < 32 ==> s.x[r] < Modulus(isa))
    && (forall address :: address in s.memory ==> s.memory[address] < 256)
  }

  function Get(s: State, r: bv8): nat {
    if r != 0 && r as int < |s.x| then s.x[r as int] else 0
  }

  function Set(s: State, r: bv8, value: nat): State {
    if r != 0 && r as int < |s.x| then s.(x := s.x[r as int := value]) else s
  }

  function GetFloat(s: State, r: bv8): FloatBits {
    if r as int < |s.f| then s.f[r as int] else FloatBits(false, 0)
  }

  function SetFloat(s: State, r: bv8, value: FloatBits): State {
    if r as int < |s.f| then s.(f := s.f[r as int := value]) else s
  }

  /** Reading a CSR into rd, as csrrs always does (section 9.1). */
  function ReadCsr(s: State, csr: nat, rd: bv8): State {
    if csr >= |s.csr| then s else Set(s, rd, s.csr[csr]).(log := s.log + [CsrRead(csr)])
  }

  /** Writing a CSR after reading it into rd, as csrrw does; with rd = x0 there is no read and no side effect of one. */
  function SwapCsr(s: State, csr: nat, rd: bv8, value: nat): State {
    WriteCsr(if rd == 0 then s else ReadCsr(s, csr, rd), csr, value)
  }

  function WriteCsr(s: State, csr: nat, value: nat): State {
    if csr >= |s.csr| then s else s.(csr := s.csr[csr := value], log := s.log + [CsrWrite(csr, value)])
  }

  function Next(isa: Isa, size: nat, s: State): State { s.(pc := Wrap(isa, s.pc + size)) }

  function Jump(s: State, target: nat): State { s.(pc := target) }

  function BranchIf(isa: Isa, size: nat, s: State, taken: bool, imm: bv32): State {
    if taken then Jump(s, Wrap(isa, s.pc + Value(imm))) else Next(isa, size, s)
  }

  // ----- memory accesses

  /** The little-endian number in consecutive bytes; addresses wrap around. */
  function ReadBytes(isa: Isa, memory: map<nat, nat>, address: nat, count: nat): nat
    decreases count
  {
    if count == 0 then 0
    else
      (if address in memory then memory[address] else 0)
      + 256 * ReadBytes(isa, memory, Wrap(isa, address + 1), count - 1)
  }

  function WriteBytes(isa: Isa, memory: map<nat, nat>, address: nat, count: nat, value: nat): map<nat, nat>
    decreases count
  {
    if count == 0 then memory
    else WriteBytes(isa, memory[address := value % 256], Wrap(isa, address + 1), count - 1, value / 256)
  }

  function LoadBytes(load: LoadKind): nat {
    match load
    case Lb | Lbu => 1
    case Lh | Lhu => 2
    case Lw | Lwu => 4
    case Ld | Ldu => 8
    case Lq => 16
  }

  function StoreBytes(store: StoreKind): nat {
    match store case Sb => 1 case Sh => 2 case Sw => 4 case Sd => 8 case Sq => 16
  }

  function FloatBytes(fmt: Fmt): nat {
    match fmt case Single => 4 case Double => 8 case Quad => 16
  }

  /** The bytes as a load extends them: with zeros, or with the sign. */
  function Extended(isa: Isa, load: LoadKind, raw: nat): nat {
    var half := Pow2(8 * LoadBytes(load) - 1);
    Wrap(isa, if load.Lbu? || load.Lhu? || load.Lwu? || load.Ldu? || raw < half then raw else raw - 2 * half)
  }

  function LoadInto(isa: Isa, s: State, load: LoadKind, rd: bv8, address: nat): State {
    var raw := ReadBytes(isa, s.memory, address, LoadBytes(load));
    Set(s, rd, Extended(isa, load, raw)).(log := s.log + [MemoryRead(address, LoadBytes(load))])
  }

  function Stored(isa: Isa, s: State, address: nat, count: nat, value: nat): State {
    s.(memory := WriteBytes(isa, s.memory, address, count, value), log := s.log + [MemoryWrite(address, count, value)])
  }

  function StoreFrom(isa: Isa, s: State, store: StoreKind, address: nat, value: nat): State {
    Stored(isa, s, address, StoreBytes(store), value % Pow2OfBytes(StoreBytes(store)))
  }

  function Pow2OfBytes(count: nat): (p: nat)
    ensures p > 0
  {
    PositivePow2(8 * count);
    Pow2(8 * count)
  }

  /** A floating-point register holds a value of the format that is moved: its sign, and the bits below. */
  function FloatLoadInto(isa: Isa, s: State, fmt: Fmt, rd: bv8, address: nat): State {
    var raw := ReadBytes(isa, s.memory, address, FloatBytes(fmt));
    var half := Pow2(8 * FloatBytes(fmt) - 1);
    SetFloat(s, rd, if raw < half then FloatBits(false, raw) else FloatBits(true, raw - half))
      .(log := s.log + [MemoryRead(address, FloatBytes(fmt))])
  }

  function FloatStoreFrom(isa: Isa, s: State, fmt: Fmt, address: nat, value: FloatBits): State {
    var half := Pow2(8 * FloatBytes(fmt) - 1);
    Stored(isa, s, address, FloatBytes(fmt),
      (value.magnitude + if value.negative then half else 0) % Pow2OfBytes(FloatBytes(fmt)))
  }

  /** A breakpoint stops at the instruction itself. */
  function Break(s: State): State { s.(log := s.log + [Breakpoint(s.pc)]) }

  // ----- base instructions

  function BranchTaken(isa: Isa, branch: BranchKind, a: nat, b: nat): bool {
    match branch
    case Beq => a == b
    case Bne => a != b
    case Blt => SignedValue(isa, a) < SignedValue(isa, b)
    case Bge => SignedValue(isa, a) >= SignedValue(isa, b)
    case Bltu => a < b
    case Bgeu => a >= b
  }

  function SignInjected(fp: FpOp, a: FloatBits, b: FloatBits): FloatBits {
    match fp
    case FSgnj => FloatBits(b.negative, a.magnitude)
    case FSgnjn => FloatBits(!b.negative, a.magnitude)
    case FSgnjx => FloatBits(a.negative != b.negative, a.magnitude)
    case _ => a
  }

  function LogicResult(isa: Isa, logic: LogicKind, a: nat, b: nat): Option<nat> {
    match logic
    case Slt => Some(if SignedValue(isa, a) < SignedValue(isa, b) then 1 else 0)
    case Sltu => Some(if a < b then 1 else 0)
    case Xor => Some(BitXor(a, b))
    case Or => Some(BitOr(a, b))
    case And => Some(BitAnd(a, b))
    case _ => None
  }

  /** The result of the register-writing integer instructions. */
  function AluResult(isa: Isa, op: WideOp, a: nat, b: nat, imm: int): Option<nat> {
    match op
    case AddImm(Full) => Some(Wrap(isa, a + imm))
    case AddImm(Low32) => Some(SignExtend32(isa, a + imm))
    case LogicImm(Sltiu) => Some(if a < Wrap(isa, imm) then 1 else 0)
    case LogicImm(Xori) => Some(BitXor(a, Wrap(isa, imm)))
    case LogicImm(Andi) => Some(BitAnd(a, Wrap(isa, imm)))
    case Lui => Some(Wrap(isa, imm))
    case ShiftImm(shift, Full) => if imm < 0 then None else Some(Shifted(isa, shift, a, imm))
    case Arith(Add, Full) => Some(Wrap(isa, a + b))
    case Arith(Add, Low32) => Some(SignExtend32(isa, a + b))
    case Arith(Sub, Full) => Some(Wrap(isa, a - b))
    case Arith(Sub, Low32) => Some(SignExtend32(isa, a - b))
    case Logic(logic) => LogicResult(isa, logic, a, b)
    case _ => None
  }

  /**
   The effect of a base instruction of `size` bytes; None where none is needed:
   the instructions that are neither lifted nor expanded from compressed ones,
   and csrrs with rs1 other than x0.
  */
  function Execute(isa: Isa, size: nat, op: WideOp, o: Operands, s: State): Option<State> {
    var a, b := Get(s, o.rs1), Get(s, o.rs2);
    match op
    case Jal => Some(Jump(Set(s, o.rd, Wrap(isa, s.pc + size)), Wrap(isa, s.pc + Value(o.imm))))
    case Jalr => Some(Jump(Set(s, o.rd, Wrap(isa, s.pc + size)), ClearBit0(Wrap(isa, a + Value(o.imm)))))
    case Branch(branch) => Some(BranchIf(isa, size, s, BranchTaken(isa, branch, a, b), o.imm))
    case Load(load) => Some(Next(isa, size, LoadInto(isa, s, load, o.rd, Wrap(isa, a + Value(o.imm)))))
    case Store(store) => Some(Next(isa, size, StoreFrom(isa, s, store, Wrap(isa, a + Value(o.imm)), b)))
    case FLoad(fmt) => Some(Next(isa, size, FloatLoadInto(isa, s, fmt, o.rd, Wrap(isa, a + Value(o.imm)))))
    case FStore(fmt) =>
      Some(Next(isa, size, FloatStoreFrom(isa, s, fmt, Wrap(isa, a + Value(o.imm)), GetFloat(s, o.rs2))))
    case System(Ebreak) => Some(Break(s))
    case Csr(ReadWrite) => Some(Next(isa, size, SwapCsr(s, o.imm as int, o.rd, a)))
    case Csr(ReadSet) => if o.rs1 != 0 then None else Some(Next(isa, size, ReadCsr(s, o.imm as int, o.rd)))
    case CsrImm(ReadWrite) => Some(Next(isa, size, SwapCsr(s, o.imm as int, o.rd, o.rs1 as int)))
    case Fp(FSgnj, _) | Fp(FSgnjn, _) | Fp(FSgnjx, _) =>
      Some(Next(isa, size, SetFloat(s, o.rd, SignInjected(op.fp, GetFloat(s, o.rs1), GetFloat(s, o.rs2)))))
    case _ =>
      match AluResult(isa, op, a, b, Value(o.imm))
      case Some(value) => Some(Next(isa, size, Set(s, o.rd, value)))
      case None => None
  }

  // ----- pseudo-instructions

  /** The operands that the text of a format shows; the others read as zero. */
  function Visible(format: string, o: Operands): Operands {
    NO_OPERANDS.(
      rd := if '0' in format || '3' in format then o.rd else 0,
      rs1 := if '1' in format || '4' in format || '7' in format then o.rs1 else 0,
      rs2 := if '2' in format || '5' in format then o.rs2 else 0,
      imm := if 'i' in format || 'o' in format || 'c' in format then o.imm else 0)
  }

  function PseudoTaken(isa: Isa, test: BranchPseudo, a: nat, b: nat): bool {
    match test
    case Beqz => a == 0
    case Bnez => a != 0
    case Blez => SignedValue(isa, b) <= 0
    case Bgez => SignedValue(isa, a) >= 0
    case Bltz => SignedValue(isa, a) < 0
    case Bgtz => SignedValue(isa, b) > 0
    case Bgt => SignedValue(isa, b) > SignedValue(isa, a)
    case Ble => SignedValue(isa, b) <= SignedValue(isa, a)
    case Bgtu => b > a
    case Bleu => b <= a
  }

  function FloatCsrIndex(fcsr: FloatCsrKind): nat {
    match fcsr case Fflags => 1 case Frm => 2 case Fcsr => 3
  }

  function CounterIndex(counter: CounterKind): nat {
    match counter case Cycle => 0xC00 case Time => 0xC01 case Instret => 0xC02
  }

  /** The result of the register-writing integer pseudo-instructions. */
  function PseudoResult(isa: Isa, p: PseudoOp, a: nat, b: nat): nat {
    match p
    case Mv => a
    case Not => Wrap(isa, -1 - a)
    case Neg => Wrap(isa, 0 - b)
    case Negw => SignExtend32(isa, 0 - b)
    case SextW => SignExtend32(isa, a)
    case Seqz => if a == 0 then 1 else 0
    case Snez => if b != 0 then 1 else 0
    case Sltz => if SignedValue(isa, a) < 0 then 1 else 0
    case Sgtz => if SignedValue(isa, b) > 0 then 1 else 0
    case _ => 0
  }

  function Moved(move: FMoveKind, v: FloatBits): FloatBits {
    match move case FMv => v case FNeg => v.(negative := !v.negative) case FAbs => v.(negative := false)
  }

  /** The effect of a pseudo-instruction on the operands that its text shows. */
  function Perform(isa: Isa, size: nat, p: PseudoOp, shown: Operands, s: State): State {
    var a, b := Get(s, shown.rs1), Get(s, shown.rs2);
    match p
    case Nop => Next(isa, size, s)
    case FMove(move, _) => Next(isa, size, SetFloat(s, shown.rd, Moved(move, GetFloat(s, shown.rs1))))
    case BranchTo(test) => BranchIf(isa, size, s, PseudoTaken(isa, test, a, b), shown.imm)
    case J => Jump(s, Wrap(isa, s.pc + Value(shown.imm)))
    case Ret => Jump(s, ClearBit0(Get(s, 1)))
    case Jr => Jump(s, ClearBit0(a))
    case ReadCounter(counter) => Next(isa, size, ReadCsr(s, CounterIndex(counter), shown.rd))
    case ReadCounterHigh(counter) => Next(isa, size, ReadCsr(s, CounterIndex(counter) + 0x80, shown.rd))
    case ReadFloatCsr(fcsr) => Next(isa, size, ReadCsr(s, FloatCsrIndex(fcsr), shown.rd))
    case WriteFloatCsr(fcsr) => Next(isa, size, SwapCsr(s, FloatCsrIndex(fcsr), shown.rd, a))
    case Fsrmi => Next(isa, size, SwapCsr(s, 2, shown.rd, shown.rs1 as int))
    case Fsflagsi => Next(isa, size, SwapCsr(s, 1, shown.rd, shown.rs1 as int))
    case _ => Next(isa, size, Set(s, shown.rd, PseudoResult(isa, p, a, b)))
  }

  // ----- what the formats of pseudo-instructions show

  lemma VisibleSources(o: Operands)
    ensures Visible(FMT_RD_RS1, o) == NO_OPERANDS.(rd := o.rd, rs1 := o.rs1)
    ensures Visible(FMT_RD_RS2, o) == NO_OPERANDS.(rd := o.rd, rs2 := o.rs2)
  {}

  lemma VisibleRegisters(o: Operands)
    ensures Visible(FMT_RD, o) == NO_OPERANDS.(rd := o.rd)
    ensures Visible(FMT_RS1, o) == NO_OPERANDS.(rs1 := o.rs1)
    ensures Visible(FMT_RD_ZIMM, o) == NO_OPERANDS.(rd := o.rd, rs1 := o.rs1)
  {}

  lemma VisibleOffsets(o: Operands)
    ensures Visible(FMT_OFFSET, o) == NO_OPERANDS.(imm := o.imm)
    ensures Visible(FMT_RS1_OFFSET, o) == NO_OPERANDS.(rs1 := o.rs1, imm := o.imm)
  {}

  lemma VisibleSecondOffsets(o: Operands)
    ensures Visible(FMT_RS2_OFFSET, o) == NO_OPERANDS.(rs2 := o.rs2, imm := o.imm)
    ensures Visible(FMT_RS2_RS1_OFFSET, o) == NO_OPERANDS.(rs1 := o.rs1, rs2 := o.rs2, imm := o.imm)
  {}

  // ----- the conditions are the definitions of the manual

  /** The operands of the base instruction that tables 25.2 and 25.3 give for a pseudo-instruction. */
  function DefinedAs(p: PseudoOp, shown: Operands): Operands {
    match p
    case Nop => NO_OPERANDS
    case Mv | SextW => NO_OPERANDS.(rd := shown.rd, rs1 := shown.rs1, imm := 0)
    case Not => NO_OPERANDS.(rd := shown.rd, rs1 := shown.rs1, imm := 0xFFFF_FFFF)
    case Seqz => NO_OPERANDS.(rd := shown.rd, rs1 := shown.rs1, imm := 1)
    case Neg | Negw | Snez | Sgtz => NO_OPERANDS.(rd := shown.rd, rs1 := 0, rs2 := shown.rs2)
    case Sltz => NO_OPERANDS.(rd := shown.rd, rs1 := shown.rs1, rs2 := 0)
    case FMove(_, _) => NO_OPERANDS.(rd := shown.rd, rs1 := shown.rs1, rs2 := shown.rs1)
    case BranchTo(test) =>
      (match test
       case Beqz | Bnez | Bltz | Bgez => NO_OPERANDS.(rs1 := shown.rs1, rs2 := 0, imm := shown.imm)
       case Bgtz | Blez => NO_OPERANDS.(rs1 := 0, rs2 := shown.rs2, imm := shown.imm)
       case _ => NO_OPERANDS.(rs1 := shown.rs1, rs2 := shown.rs2, imm := shown.imm))
    case J => NO_OPERANDS.(imm := shown.imm)
    case Ret => NO_OPERANDS.(rs1 := 1)
    case Jr => NO_OPERANDS.(rs1 := shown.rs1)
    case ReadCounter(counter) =>
      NO_OPERANDS.(rd := shown.rd, imm := match counter case Cycle => 0xC00 case Time => 0xC01 case Instret => 0xC02)
    case ReadCounterHigh(counter) =>
      NO_OPERANDS.(rd := shown.rd, imm := match counter case Cycle => 0xC80 case Time => 0xC81 case Instret => 0xC82)
    case ReadFloatCsr(fcsr) => NO_OPERANDS.(rd := shown.rd, imm := FloatCsrWord(fcsr))
    case WriteFloatCsr(fcsr) => NO_OPERANDS.(rd := shown.rd, rs1 := shown.rs1, imm := FloatCsrWord(fcsr))
    case Fsrmi => NO_OPERANDS.(rd := shown.rd, rs1 := shown.rs1, imm := 2)
    case Fsflagsi => NO_OPERANDS.(rd := shown.rd, rs1 := shown.rs1, imm := 1)
  }

  function FloatCsrWord(fcsr: FloatCsrKind): bv32 {
    match fcsr case Fflags => 1 case Frm => 2 case Fcsr => 3
  }

  /** The operands are those that the manual gives for the pseudo-instruction on what its text shows. */
  predicate AsDefined(p: PseudoOp, o: Operands) { o == DefinedAs(p, Visible(PseudoFormat(p), o)) }

  lemma ArithmeticDefined(p: PseudoOp, o: Operands)
    requires p.Mv? || p.SextW? || p.Not? || p.Seqz?
    requires InCodec(WideCodec(BaseOf(p)), o)
    ensures Condition(p, o) <==> AsDefined(p, o)
  {
    hide Visible;
    VisibleSources(o);
  }

  lemma RegistersDefined(p: PseudoOp, o: Operands)
    requires p.Neg? || p.Negw? || p.Snez? || p.Sgtz? || p.Sltz? || p.FMove?
    requires InCodec(WideCodec(BaseOf(p)), o)
    ensures Condition(p, o) <==> AsDefined(p, o)
  {
    hide Visible;
    VisibleSources(o);
  }

  lemma NopDefined(o: Operands)
    requires InCodec(CodecI, o)
    ensures Condition(Nop, o) <==> AsDefined(Nop, o)
  {
    hide Visible;
  }

  lemma BranchesDefined(test: BranchPseudo, o: Operands)
    requires InCodec(CodecSB, o)
    ensures Condition(BranchTo(test), o) <==> AsDefined(BranchTo(test), o)
  {
    hide Visible;
    VisibleOffsets(o);
    VisibleSecondOffsets(o);
  }

  lemma JumpsDefined(p: PseudoOp, o: Operands)
    requires p.J? || p.Jr? || p.Ret?
    requires InCodec(WideCodec(BaseOf(p)), o)
    ensures Condition(p, o) && (p.Ret? ==> o.imm == 0) <==> AsDefined(p, o)
  {
    hide Visible;
    VisibleOffsets(o);
    VisibleRegisters(o);
  }

  lemma CountersDefined(p: PseudoOp, o: Operands)
    requires p.ReadCounter? || p.ReadCounterHigh?
    requires InCodec(CodecICsr, o)
    ensures Condition(p, o) <==> AsDefined(p, o)
  {
    hide Visible;
    VisibleRegisters(o);
  }

  lemma FloatReadsDefined(p: PseudoOp, o: Operands)
    requires p.ReadFloatCsr?
    requires InCodec(CodecICsr, o)
    ensures Condition(p, o) <==> AsDefined(p, o)
  {
    hide Visible;
    VisibleRegisters(o);
  }

  lemma CsrWritesDefined(p: PseudoOp, o: Operands)
    requires p.WriteFloatCsr?
    requires InCodec(CodecICsr, o)
    ensures Condition(p, o) <==> AsDefined(p, o)
  {
    hide Visible;
    VisibleSources(o);
  }

  lemma CsrImmediatesDefined(p: PseudoOp, o: Operands)
    requires p.Fsrmi? || p.Fsflagsi?
    requires InCodec(CodecICsr, o)
    ensures Condition(p, o) <==> AsDefined(p, o)
  {
    hide Visible;
    VisibleRegisters(o);
  }

  /**
   The condition of a pseudo-instruction holds of exactly those operands that the
   manual gives for it; that of `ret` does whatever the immediate.
  */
  lemma ConditionsAreDefinitions(p: PseudoOp, o: Operands)
    requires InCodec(WideCodec(BaseOf(p)), o)
    ensures Condition(p, o) && (p.Ret? ==> o.imm == 0) <==> AsDefined(p, o)
  {
    hide Condition, AsDefined, InCodec;
    match p {
      case Nop => NopDefined(o);
      case Mv | SextW | Not | Seqz => ArithmeticDefined(p, o);
      case Neg | Negw | Snez | Sgtz | Sltz | FMove(_, _) => RegistersDefined(p, o);
      case BranchTo(test) => BranchesDefined(test, o);
      case J | Jr | Ret => JumpsDefined(p, o);
      case ReadCounter(_) | ReadCounterHigh(_) => CountersDefined(p, o);
      case ReadFloatCsr(_) => FloatReadsDefined(p, o);
      case WriteFloatCsr(_) => CsrWritesDefined(p, o);
      case Fsrmi | Fsflagsi => CsrImmediatesDefined(p, o);
    }
  }

  // ----- lifting preserves meaning

  /** The base instruction and the pseudo-instruction, on its visible operands, have the same effect. */
  predicate SameEffect(isa: Isa, size: nat, p: PseudoOp, o: Operands, s: State) {
    Execute(isa, size, BaseOf(p), o, s) == Some(Perform(isa, size, p, Visible(PseudoFormat(p), o), s))
  }

  predicate IsAlu(p: PseudoOp) {
    match p
    case Mv | Not | Neg | Negw | SextW | Seqz | Snez | Sltz | Sgtz => true
    case _ => false
  }

  lemma NotIsXor(isa: Isa, a: nat)
    requires a < Modulus(isa)
    ensures BitXor(a, Wrap(isa, -1)) == Wrap(isa, -1 - a)
  {
    hide Wrap, BitXor;
    WrapNegative(isa, -1);
    WrapNegative(isa, -1 - a);
    XorWithOnes(Xlen(isa), a);
  }

  predicate ShowsRs1(p: PseudoOp) {
    match p
    case Mv | Not | SextW | Seqz | Sltz => true
    case _ => false
  }

  /** The two result functions agree under the condition of the pseudo-instruction. */
  lemma ResultsAgree(isa: Isa, p: PseudoOp, a: nat, b: nat, imm: int, shownA: nat, shownB: nat)
    requires IsAlu(p) && a < Modulus(isa) && b < Modulus(isa)
    requires if ShowsRs1(p) then shownA == a else shownB == b
    requires p.Mv? || p.SextW? ==> imm == 0
    requires p.Not? ==> imm == -1
    requires p.Seqz? ==> imm == 1
    requires p.Neg? || p.Negw? || p.Snez? || p.Sgtz? ==> a == 0
    requires p.Sltz? ==> b == 0
    ensures AluResult(isa, BaseOf(p), a, b, imm) == Some(PseudoResult(isa, p, shownA, shownB))
  {
    hide BitXor, Modulus, Wrap, SignExtend32;
    ModulusIsLarge(isa);
    NotIsXor(isa, a);
    WrapIdentity(isa, a);
    WrapIdentity(isa, 1);
  }

  lemma RegistersBounded(isa: Isa, s: State, r: bv8)
    requires Valid(isa, s)
    ensures Get(s, r) < Modulus(isa) && Get(s, 0) == 0
  {
    ModulusIsLarge(isa);
  }

  lemma ImmediateValues(imm: bv32)
    ensures imm == 0 ==> Value(imm) == 0
    ensures imm == 1 ==> Value(imm) == 1
    ensures imm == 0xFFFF_FFFF ==> Value(imm) == -1
  {}

  lemma MovesMeanTheSame(isa: Isa, size: nat, p: PseudoOp, o: Operands, s: State)
    requires Valid(isa, s) && Condition(p, o) && (p.Mv? || p.SextW?)
    ensures SameEffect(isa, size, p, o, s)
  {
    hide Visible, Next, Get, Set, AluResult, PseudoResult, Value, Modulus, Valid;
    hide Jump, BranchIf, ReadCsr, SwapCsr, SetFloat, GetFloat, BranchTaken, PseudoTaken, Wrap;
    VisibleSources(o);
    RegistersBounded(isa, s, o.rs1);
    RegistersBounded(isa, s, o.rs2);
    ImmediateValues(o.imm);
    var shown := Visible(PseudoFormat(p), o);
    ResultsAgree(isa, p, Get(s, o.rs1), Get(s, o.rs2), Value(o.imm), Get(s, shown.rs1), Get(s, shown.rs2));
  }

  lemma TestsMeanTheSame(isa: Isa, size: nat, p: PseudoOp, o: Operands, s: State)
    requires Valid(isa, s) && Condition(p, o) && (p.Not? || p.Seqz? || p.Sltz?)
    ensures SameEffect(isa, size, p, o, s)
  {
    hide Visible, Next, Get, Set, AluResult, PseudoResult, Value, Modulus, Valid;
    hide Jump, BranchIf, ReadCsr, SwapCsr, SetFloat, GetFloat, BranchTaken, PseudoTaken, Wrap;
    VisibleSources(o);
    RegistersBounded(isa, s, o.rs1);
    RegistersBounded(isa, s, o.rs2);
    ImmediateValues(o.imm);
    var shown := Visible(PseudoFormat(p), o);
    ResultsAgree(isa, p, Get(s, o.rs1), Get(s, o.rs2), Value(o.imm), Get(s, shown.rs1), Get(s, shown.rs2));
  }

  lemma NegationsMeanTheSame(isa: Isa, size: nat, p: PseudoOp, o: Operands, s: State)
    requires Valid(isa, s) && Condition(p, o) && (p.Neg? || p.Negw? || p.Snez? || p.Sgtz?)
    ensures SameEffect(isa, size, p, o, s)
  {
    hide Visible, Next, Get, Set, AluResult, PseudoResult, Value, Modulus, Valid;
    hide Jump, BranchIf, ReadCsr, SwapCsr, SetFloat, GetFloat, BranchTaken, PseudoTaken, Wrap;
    VisibleSources(o);
    RegistersBounded(isa, s, o.rs1);
    RegistersBounded(isa, s, o.rs2);
    ImmediateValues(o.imm);
    var shown := Visible(PseudoFormat(p), o);
    ResultsAgree(isa, p, Get(s, o.rs1), Get(s, o.rs2), Value(o.imm), Get(s, shown.rs1), Get(s, shown.rs2));
  }

  lemma NopMeansTheSame(isa: Isa, size: nat, o: Operands, s: State)
    requires Valid(isa, s) && Condition(Nop, o)
    ensures SameEffect(isa, size, Nop, o, s)
  {
    hide Visible, Next, Jump, BranchIf, ReadCsr, SwapCsr, SetFloat, GetFloat, Wrap, Modulus;
  }

  lemma BranchesAgree(isa: Isa, test: BranchPseudo, a: nat, b: nat)
    ensures match test
            case Beqz => PseudoTaken(isa, test, a, 0) == BranchTaken(isa, Beq, a, 0)
            case Bnez => PseudoTaken(isa, test, a, 0) == BranchTaken(isa, Bne, a, 0)
            case Bltz => PseudoTaken(isa, test, a, 0) == BranchTaken(isa, Blt, a, 0)
            case Bgez => PseudoTaken(isa, test, a, 0) == BranchTaken(isa, Bge, a, 0)
            case Bgtz => PseudoTaken(isa, test, 0, b) == BranchTaken(isa, Blt, 0, b)
            case Blez => PseudoTaken(isa, test, 0, b) == BranchTaken(isa, Bge, 0, b)
            case Bgt => PseudoTaken(isa, test, a, b) == BranchTaken(isa, Blt, a, b)
            case Ble => PseudoTaken(isa, test, a, b) == BranchTaken(isa, Bge, a, b)
            case Bgtu => PseudoTaken(isa, test, a, b) == BranchTaken(isa, Bltu, a, b)
            case Bleu => PseudoTaken(isa, test, a, b) == BranchTaken(isa, Bgeu, a, b)
  {
    hide Modulus;
    ModulusIsLarge(isa);
  }

  lemma BranchesMeanTheSame(isa: Isa, size: nat, p: PseudoOp, o: Operands, s: State)
    requires Valid(isa, s) && Condition(p, o) && p.BranchTo?
    ensures SameEffect(isa, size, p, o, s)
  {
    hide Visible, Next, Jump, BranchIf, Get, Set, ReadCsr, SwapCsr, SetFloat, GetFloat, AluResult, PseudoResult;
    hide Wrap, Value, Modulus, Valid, BranchTaken, PseudoTaken;
    VisibleOffsets(o);
    VisibleSecondOffsets(o);
    RegistersBounded(isa, s, 0);
    BranchesAgree(isa, p.test, Get(s, o.rs1), Get(s, o.rs2));
  }

  lemma JumpsMeanTheSame(isa: Isa, size: nat, p: PseudoOp, o: Operands, s: State)
    requires Valid(isa, s) && Condition(p, o) && (p.J? || p.Jr? || (p.Ret? && o.imm == 0))
    ensures SameEffect(isa, size, p, o, s)
  {
    hide Visible, Next, BranchIf, Get, ReadCsr, SwapCsr, SetFloat, GetFloat, AluResult, PseudoResult, Wrap, Value;
    hide Modulus, Valid;
    VisibleOffsets(o);
    VisibleRegisters(o);
    RegistersBounded(isa, s, o.rs1);
    ImmediateValues(o.imm);
    WrapIdentity(isa, Get(s, o.rs1));
  }

  lemma CsrReadsMeanTheSame(isa: Isa, size: nat, p: PseudoOp, o: Operands, s: State)
    requires Valid(isa, s) && Condition(p, o)
    requires p.ReadCounter? || p.ReadCounterHigh? || p.ReadFloatCsr?
    ensures SameEffect(isa, size, p, o, s)
  {
    hide Visible, Next, Jump, BranchIf, Get, Set, ReadCsr, SwapCsr, SetFloat, GetFloat, AluResult, PseudoResult;
    hide Wrap, Value, Modulus, Valid, BranchTaken, PseudoTaken;
    VisibleRegisters(o);
    VisibleSources(o);
  }

  lemma CsrWritesMeanTheSame(isa: Isa, size: nat, p: PseudoOp, o: Operands, s: State)
    requires Valid(isa, s) && Condition(p, o)
    requires p.WriteFloatCsr? || p.Fsrmi? || p.Fsflagsi?
    ensures SameEffect(isa, size, p, o, s)
  {
    hide Visible, Next, Jump, BranchIf, Get, Set, ReadCsr, SwapCsr, SetFloat, GetFloat, AluResult, PseudoResult;
    hide Wrap, Value, Modulus, Valid, BranchTaken, PseudoTaken;
    VisibleRegisters(o);
    VisibleSources(o);
  }

  lemma FloatMovesMeanTheSame(isa: Isa, size: nat, p: PseudoOp, o: Operands, s: State)
    requires Condition(p, o) && p.FMove?
    ensures SameEffect(isa, size, p, o, s)
  {
    hide Visible, Next, Jump, BranchIf, Get, Set, ReadCsr, SwapCsr, SetFloat, GetFloat, AluResult, PseudoResult;
    hide Wrap, Value, Modulus, Valid, BranchTaken, PseudoTaken;
    VisibleRegisters(o);
    VisibleSources(o);
  }

  lemma PseudosMeanTheSame(isa: Isa, size: nat, p: PseudoOp, o: Operands, s: State)
    requires Valid(isa, s) && Condition(p, o)
    requires p.Ret? ==> o.imm == 0
    ensures SameEffect(isa, size, p, o, s)
  {
    hide Valid, Condition, SameEffect;
    match p {
      case Nop => NopMeansTheSame(isa, size, o, s);
      case FMove(_, _) => FloatMovesMeanTheSame(isa, size, p, o, s);
      case BranchTo(_) => BranchesMeanTheSame(isa, size, p, o, s);
      case J | Jr | Ret => JumpsMeanTheSame(isa, size, p, o, s);
      case ReadCounter(_) | ReadCounterHigh(_) | ReadFloatCsr(_) => CsrReadsMeanTheSame(isa, size, p, o, s);
      case WriteFloatCsr(_) | Fsrmi | Fsflagsi => CsrWritesMeanTheSame(isa, size, p, o, s);
      case Mv | SextW => MovesMeanTheSame(isa, size, p, o, s);
      case Not | Seqz | Sltz => TestsMeanTheSame(isa, size, p, o, s);
      case Neg | Negw | Snez | Sgtz => NegationsMeanTheSame(isa, size, p, o, s);
    }
  }

  lemma NonZeroValue(imm: bv32)
    requires imm != 0
    ensures Value(imm) != 0 && -0x8000_0000 <= Value(imm) < 0x1_0000_0000
  {
    ValueIsBounded(imm);
    if Value(imm) == 0 {
      ValueInjective(imm, 0);
    }
  }

  lemma ValueIsBounded(imm: bv32)
    ensures -0x8000_0000 <= Value(imm) < 0x1_0000_0000
    ensures Value(0) == 0
  {}

  /** All zero but for one register. */
  function OneRegister(r: nat, value: nat): State {
    State(0, seq(32, i => if i == r then value else 0), seq(32, i => FloatBits(false, 0)), seq(4096, n => 0), map[], [])
  }

  function ReturnState(ra: nat): State { OneRegister(1, ra) }

  lemma ReturnStateIsValid(isa: Isa, ra: nat)
    requires ra < 2
    ensures Valid(isa, ReturnState(ra)) && Get(ReturnState(ra), 1) == ra
  {
    ModulusIsLarge(isa);
  }

  lemma RetTargetsDiffer(isa: Isa, k: int)
    requires k != 0 && -0x8000_0000 <= k < 0x1_0000_0000
    ensures var ra := if k == 1 then 1 else 0; ClearBit0(Wrap(isa, ra + k)) != ClearBit0(ra)
  {
    hide Modulus, Wrap;
    ModulusIsLarge(isa);
    if k < 0 {
      WrapNegative(isa, k);
    } else {
      WrapIdentity(isa, if k == 1 then 2 else k);
    }
  }

  /** `jalr x0, imm(ra)` is lifted to `ret` whatever the immediate, so a non-zero one is lost. */
  lemma RetLosesImmediate(isa: Isa, size: nat, o: Operands) returns (s: State)
    requires Condition(Ret, o) && o.imm != 0
    ensures Valid(isa, s) && !SameEffect(isa, size, Ret, o, s)
  {
    hide Visible, Modulus, Wrap, Get, Valid, ReturnState, ClearBit0, Value;
    NonZeroValue(o.imm);
    var ra := if Value(o.imm) == 1 then 1 else 0;
    s := ReturnState(ra);
    ReturnStateIsValid(isa, ra);
    RetTargetsDiffer(isa, Value(o.imm));
  }

  /** The record, run as a pseudo-instruction on the operands its text shows, has the effect of the base instruction. */
  predicate MeansTheSame(isa: Isa, size: nat, base: WideOp, d: Decoded, s: State)
    requires d.op.Pseudo?
  {
    Execute(isa, size, base, d.args, s) == Some(Perform(isa, size, d.op.pseudo, Visible(FormatOf(d.op), d.args), s))
  }

  /**
   Lifting preserves meaning: on every state a lifted instruction does what the
   base instruction does, exactly unless that is `jalr x0, imm(ra)` with a
   non-zero immediate.
  */
  lemma LiftingPreservesMeaning(isa: Isa, size: nat, d: Decoded)
    requires d.op.Wide? && Lift(d).op.Pseudo?
    ensures (forall s :: Valid(isa, s) ==> MeansTheSame(isa, size, d.op.wide, Lift(d), s))
       <==> !(d.op == Wide(Jalr) && d.args.rd == 0 && d.args.rs1 == 1 && d.args.imm != 0)
  {
    ReturnsLift(d);
    hide Lift, Execute, Perform, Visible, BaseOf, Condition, Valid, PseudoFormat;
    LiftedFrom(d);
    assert Lift(d).args == d.args by { LiftKeepsArgs(d); }
    var p, o := Lift(d).op.pseudo, d.args;
    if p == Ret && o.imm != 0 {
      var s := RetLosesImmediate(isa, size, o);
      assert !MeansTheSame(isa, size, d.op.wide, Lift(d), s);
    } else {
      forall s | Valid(isa, s) ensures MeansTheSame(isa, size, d.op.wide, Lift(d), s) {
        PseudosMeanTheSame(isa, size, p, o, s);
      }
    }
  }

  lemma LiftKeepsArgs(d: Decoded)
    ensures Lift(d).args == d.args
  {
    hide FirstMatch, Candidates;
  }
}
