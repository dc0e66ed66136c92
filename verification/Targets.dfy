/**
 The printed address of jumps and branches: what it is as a number, and when
 it is the address that execution goes on at.
*/
module Targets {
  import opened Opcodes
  import opened Decoding
  import opened Immediates
  import opened Numerals
  import opened PseudoInstructions
  import opened Semantics
  import opened Words
  import opened Text
  import opened Layout
  import opened Assembly

  lemma SignExtended(imm: bv32)
    ensures Number(0xFFFF_FFFF_0000_0000 | imm as bv64) == imm as int + 0xFFFF_FFFF_0000_0000
    ensures Number(imm as bv64) == imm as int
  {}

  lemma ExtendedNumber(imm: bv32)
    ensures Number(SignExtended64(imm)) == if Value(imm) < 0 then Value(imm) + WORD else Value(imm)
    ensures -WORD < Value(imm) < WORD
  {
    SignExtended(imm);
    hide Number;
  }

  lemma SameRemainder(a: nat, v: int)
    requires a < WORD && -WORD < v < WORD
    ensures (a + if v < 0 then v + WORD else v) % WORD == (a + v) % WORD
  {}

  lemma TargetSum(pc: bv64, imm: bv32)
    ensures Number(Target(pc, imm)) == (Number(pc) + Value(imm)) % WORD
  {
    hide Number, Target, Value, SignExtended64;
    TargetIs(pc, imm);
    SumNumber(pc, SignExtended64(imm));
    ExtendedNumber(imm);
    NumberBound(pc);
    SameRemainder(Number(pc), Value(imm));
  }

  lemma NumberBound(a: bv64)
    ensures Number(a) < WORD
  {}

  /** The printed address is the address of the instruction plus the signed offset, modulo 2^64. */
  lemma TargetNumber(pc: bv64, imm: bv32)
    ensures Target(pc, imm) as int == (pc as int + Value(imm)) % WORD
  {
    hide Target, Value;
    TargetSum(pc, imm);
    NumberIs(pc);
    NumberIs(Target(pc, imm));
  }

  lemma TargetIs(pc: bv64, imm: bv32)
    ensures Target(pc, imm) == pc + SignExtended64(imm)
  {
    hide SignExtended64;
  }

  lemma NumberIs(a: bv64)
    ensures Number(a) == a as int
  {}

  lemma TargetShown(pc: bv64, imm: bv32)
    ensures TargetText(pc, imm) == "# 0x" + Hex((pc as int + Value(imm)) % WORD)
  {
    hide Target, Value, Hex;
    TargetNumber(pc, imm);
  }

  /** The digits after `# 0x` stand for that address. */
  lemma TargetTextRead(pc: bv64, imm: bv32)
    ensures |TargetText(pc, imm)| > 4 && TargetText(pc, imm)[..4] == "# 0x"
    ensures NumberOf(TargetText(pc, imm)[4..], 16) == (pc as int + Value(imm)) % WORD
  {
    hide Target, Digits, NumberOf, Value;
    TargetIsShort(pc, imm);
    TargetNumber(pc, imm);
    DigitsRead(Target(pc, imm) as int, 16);
    var digits := Hex(Target(pc, imm) as int);
    assert ("# 0x" + digits)[..4] == "# 0x" && ("# 0x" + digits)[4..] == digits;
  }

  // ----- where execution goes on

  lemma Pow2Of64()
    ensures Pow2(64) == WORD
  {
    Pow2Of32();
    Pow2Sum(32, 32);
  }

  /** The addresses that an instruction set and the printed 64 bits have in common. */
  function SharedRange(isa: Isa): nat { if isa == Rv32 then 0x1_0000_0000 else WORD }

  lemma ModOfExcess(value: int, m: nat)
    requires m <= value < 2 * m
    ensures value % m == value - m
  {
    assert value == (value / m) * m + value % m;
  }

  lemma WrapExcess(isa: Isa, value: int)
    requires Modulus(isa) <= value < 2 * Modulus(isa)
    ensures Wrap(isa, value) == value - Modulus(isa)
  {
    hide Modulus;
    ModOfExcess(value, Modulus(isa));
  }

  lemma Moduli(isa: Isa)
    ensures isa == Rv32 ==> Modulus(isa) == 0x1_0000_0000
    ensures isa == Rv64 ==> Modulus(isa) == WORD
    ensures isa == Rv128 ==> Modulus(isa) >= 2 * WORD
  {
    hide Pow2;
    Pow2Of32();
    Pow2Of64();
    Pow2Sum(64, 64);
  }

  lemma RemainderReached(isa: Isa, n: int)
    requires -0x8000_0000 <= n < SharedRange(isa) + 0x1_0000_0000
    ensures n % WORD == Wrap(isa, n) <==> isa == Rv64 || 0 <= n < SharedRange(isa)
  {
    hide Wrap, Modulus;
    Moduli(isa);
    if n < 0 {
      WrapNegative(isa, n);
    } else if n < Modulus(isa) {
      WrapIdentity(isa, n);
    } else {
      WrapExcess(isa, n);
    }
  }

  /**
   The printed address is the one that the program counter wraps to on RV64; on
   RV32 and RV128 exactly when it lies in the range of both.
  */
  lemma TargetReached(isa: Isa, pc: bv64, imm: bv32)
    requires pc as int < SharedRange(isa)
    ensures Target(pc, imm) as int == Wrap(isa, pc as int + Value(imm))
       <==> isa == Rv64 || 0 <= pc as int + Value(imm) < SharedRange(isa)
  {
    hide Target, Value, Wrap, SharedRange;
    TargetNumber(pc, imm);
    ValueIsBounded(imm);
    RemainderReached(isa, pc as int + Value(imm));
  }

  /** On RV32 a jump by -12 from address 0 goes to 0xFFFF_FFF4; printed is an address of 16 digits. */
  lemma WrapsOnRv32()
    ensures Target(0, 0xFFFF_FFF4) as int == 0xFFFF_FFFF_FFFF_FFF4
    ensures Wrap(Rv32, 0 + Value(0xFFFF_FFF4)) == 0xFFFF_FFF4
  {
    assert Target(0, 0xFFFF_FFF4) == 0xFFFF_FFFF_FFFF_FFF4 && Value(0xFFFF_FFF4) == -12;
    hide Target, Value, Wrap, Modulus;
    Moduli(Rv32);
    WrapNegative(Rv32, -12);
  }

  lemma LiftedShowsTarget(d: Decoded)
    requires d.op.Wide? && (d.op.wide.Jal? || d.op.wide.Branch?)
    ensures !Lift(d).op.Compressed? && ShowsTarget(Lift(d).op) && Lift(d).pc == d.pc && Lift(d).args == d.args
  {
    hide Condition, FirstMatch, Candidates;
    LiftedFrom(d);
  }

  predicate Jumps(isa: Isa, d: Decoded, s: State) {
    && d.op.Wide?
    && (d.op.wide.Jal?
        || (d.op.wide.Branch? && BranchTaken(isa, d.op.wide.branch, Get(s, d.args.rs1), Get(s, d.args.rs2))))
  }

  lemma JumpsToTarget(isa: Isa, size: nat, d: Decoded, s: State)
    requires Jumps(isa, d, s)
    ensures Execute(isa, size, d.op.wide, d.args, s).Some?
    ensures Execute(isa, size, d.op.wide, d.args, s).value.pc == Wrap(isa, s.pc + Value(d.args.imm))
  {
    hide Value, Wrap, Get, BranchTaken, Set;
    SetKeepsPc(s, d.args.rd, Wrap(isa, s.pc + size));
  }

  lemma SetKeepsPc(s: State, r: bv8, value: nat)
    ensures Set(s, r, value).pc == s.pc
  {}

  /**
   The line of a jump, or of a branch that is taken, ends in the address that
   execution goes on at: always on RV64, elsewhere exactly when no wrapping of
   the program counter comes between.
  */
  lemma PrintedTargetIsNext(isa: Isa, size: nat, d: Decoded, csr: CsrNames, s: State)
    returns (line: string, shown: nat)
    requires Jumps(isa, d, s) && s.pc == d.pc as int < SharedRange(isa)
    ensures PrintedText(Lift(d), csr) == line + "# 0x" + Hex(shown)
    ensures Execute(isa, size, d.op.wide, d.args, s).Some?
    ensures shown == Execute(isa, size, d.op.wide, d.args, s).value.pc
       <==> isa == Rv64 || 0 <= d.pc as int + Value(d.args.imm) < SharedRange(isa)
  {
    hide Lift, PrintedText, ShowsTarget, Written, Target, Value, Wrap, MnemonicText, Execute, PaddedTo, Concat, Hex;
    JumpsToTarget(isa, size, d, s);
    LiftedShowsTarget(d);
    PrintsItsLine(Lift(d), csr);
    line := PaddedTo(PaddedTo(MnemonicText(Lift(d)), 32) + Concat(Written(Lift(d), csr)), 64);
    shown := Target(d.pc, d.args.imm) as int;
    TargetReached(isa, d.pc, d.args.imm);
  }
}
