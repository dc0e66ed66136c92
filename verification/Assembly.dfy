/**
 The line of text that each instruction prints, written out by instruction:
 the mnemonic, the operands in the order of assembly language, and for jumps
 and branches the address they lead to.
*/
module Assembly {
  import opened Opcodes
  import opened Operands
  import opened Decoding
  import opened Formats
  import opened Immediates
  import opened Layout
  import opened Mnemonics
  import opened Numerals
  import opened Registers
  import opened Text
  import opened Truncation

  function Concat(parts: seq<string>): string {
    if parts == [] then "" else parts[0] + Concat(parts[1..])
  }

  /** The operands, in order, with the punctuation between them. */
  function WideWritten(op: WideOp, o: Operands, csr: CsrNames): seq<string> {
    var rd, rs1, rs2 := IregName(o.rd), IregName(o.rs1), IregName(o.rs2);
    var frd, frs1, frs2, frs3 := FregName(o.rd), FregName(o.rs1), FregName(o.rs2), FregName(o.rs3);
    var imm, rm := Decimal(Value(o.imm)), RoundingText(o.rm);
    match op
    case Lui | Auipc | Jal => [rd, ",", imm]
    case Jalr | AddImm(_) | ShiftImm(_, _) | LogicImm(_) => [rd, ",", rs1, ",", imm]
    case Branch(_) => [rs1, ",", rs2, ",", imm]
    case Load(_) => [rd, ",", imm, "(", rs1, ")"]
    case Store(_) => [rs2, ",", imm, "(", rs1, ")"]
    case Arith(_, _) | Logic(_) => [rd, ",", rs1, ",", rs2]
    case Fence => [FenceText(o.pred), ",", FenceText(o.succ)]
    case FenceI | System(_) => []
    case Amo(LoadReserved, _) => [rd, ",", "(", rs1, ")"]
    case Amo(_, _) => [rd, ",", rs2, ",", "(", rs1, ")"]
    case SfenceVm => [rs1]
    case SfenceVma => [rs1, ",", rs2]
    case Csr(_) => [rd, ",", CsrText(csr, o.imm), ",", rs1]
    case CsrImm(_) => [rd, ",", CsrText(csr, o.imm), ",", Decimal(o.rs1 as int)]
    case FLoad(_) => [frd, ",", imm, "(", rs1, ")"]
    case FStore(_) => [frs2, ",", imm, "(", rs1, ")"]
    case Fma(_, _) => [rm, ",", frd, ",", frs1, ",", frs2, ",", frs3]
    case Fp(fp, _) => FpWritten(fp, o)
    case FConvert(_) => [rm, ",", frd, ",", frs1]
  }

  function FpWritten(fp: FpOp, o: Operands): seq<string> {
    var rd, rs1 := IregName(o.rd), IregName(o.rs1);
    var frd, frs1, frs2, rm := FregName(o.rd), FregName(o.rs1), FregName(o.rs2), RoundingText(o.rm);
    match fp
    case FAdd | FSub | FMul | FDiv => [rm, ",", frd, ",", frs1, ",", frs2]
    case FSqrt => [rm, ",", frd, ",", frs1]
    case FSgnj | FSgnjn | FSgnjx | FMin | FMax => [frd, ",", frs1, ",", frs2]
    case FLe | FLt | FEq => [rd, ",", frs1, ",", frs2]
    case FToInt(_) => [rm, ",", rd, ",", frs1]
    case FFromInt(_) => [rm, ",", frd, ",", rs1]
    case FMoveToInt | FClass => [rd, ",", frs1]
    case FMoveFromInt => [frd, ",", rs1]
  }

  function PseudoWritten(p: PseudoOp, o: Operands): seq<string> {
    var rd, rs1, rs2, imm := IregName(o.rd), IregName(o.rs1), IregName(o.rs2), Decimal(Value(o.imm));
    match p
    case Nop | Ret => []
    case Mv | Not | SextW | Seqz | Sltz | FMove(_, _) | WriteFloatCsr(_) => [rd, ",", rs1]
    case Neg | Negw | Snez | Sgtz => [rd, ",", rs2]
    case BranchTo(Beqz) | BranchTo(Bnez) | BranchTo(Bgez) | BranchTo(Bltz) => [rs1, ",", imm]
    case BranchTo(Blez) | BranchTo(Bgtz) => [rs2, ",", imm]
    case BranchTo(_) => [rs2, ",", rs1, ",", imm]
    case J => [imm]
    case Jr => [rs1]
    case ReadCounter(_) | ReadCounterHigh(_) | ReadFloatCsr(_) => [rd]
    case Fsrmi | Fsflagsi => [rd, ",", Decimal(o.rs1 as int)]
  }

  /** The instructions whose offset is followed by the address it leads to. */
  predicate ShowsTarget(op: Op) {
    match op
    case Wide(Auipc) | Wide(Jal) | Wide(Branch(_)) => true
    case Pseudo(J) | Pseudo(BranchTo(_)) => true
    case _ => false
  }

  function Written(d: Decoded, csr: CsrNames): seq<string> {
    match d.op
    case Wide(op) => WideWritten(op, d.args, csr)
    case Pseudo(p) => PseudoWritten(p, d.args)
    case _ => []
  }

  /** The name, with the acquire and release flags of an atomic instruction. */
  function MnemonicText(d: Decoded): string {
    if d.op.Wide? && d.op.wide.Amo? then
      NameOf(d.op) + (if d.args.aq != 0 then ".aq" else "") + (if d.args.rl != 0 then ".rl" else "")
    else NameOf(d.op)
  }

  function PaddedTo(s: string, col: nat): string { s + Blanks(col - |s|) }

  /** The whole line. */
  function LineText(d: Decoded, csr: CsrNames): string {
    var line := PaddedTo(MnemonicText(d), 32) + Concat(Written(d, csr));
    if ShowsTarget(d.op) then PaddedTo(line, 64) + "# 0x" + Hex(Target(d.pc, d.args.imm) as int) else line
  }

  // ----- what one format prints

  /** What an operand or punctuation directive shows, an offset without its target. */
  function Shown(c: char, d: Decoded, csr: CsrNames): string {
    match c
    case '0' => IregName(d.args.rd)
    case '1' => IregName(d.args.rs1)
    case '2' => IregName(d.args.rs2)
    case '3' => FregName(d.args.rd)
    case '4' => FregName(d.args.rs1)
    case '5' => FregName(d.args.rs2)
    case '6' => FregName(d.args.rs3)
    case '7' => Decimal(d.args.rs1 as int)
    case 'i' | 'o' => Decimal(Value(d.args.imm))
    case 'c' => CsrText(csr, d.args.imm)
    case 'r' => RoundingText(d.args.rm)
    case 'p' => FenceText(d.args.pred)
    case 's' => FenceText(d.args.succ)
    case _ => [c]
  }

  function Tokens(f: string, i: nat, d: Decoded, csr: CsrNames): seq<string>
    decreases |f| - i
  {
    if i >= |f| then [] else [Shown(f[i], d, csr)] + Tokens(f, i + 1, d, csr)
  }

  lemma JoinedFirst(t: string, parts: seq<string>)
    ensures Concat([t] + parts) == t + Concat(parts)
  {
    assert ([t] + parts)[1..] == parts;
  }

  lemma DirectiveIsShown(c: char, d: Decoded, csr: CsrNames, col: nat)
    requires (IsOperand(c) && c != 'o') || IsPunctuation(c)
    ensures Directive(c, TAB, d, csr, col) == Shown(c, d, csr)
  {
    hide Decimal, Value, IregName, FregName, CsrText, RoundingText, FenceText;
  }

  lemma OffsetDirective(d: Decoded, csr: CsrNames, col: nat)
    ensures Directive('o', TAB, d, csr, col) == Shown('o', d, csr)
      + Blanks(64 - col - |Shown('o', d, csr)|) + TargetText(d.pc, d.args.imm)
  {
    hide Decimal, TargetText, Value;
  }

  /** The strings of the operands, and after an offset blanks to column 64 and the target. */
  function OperandLine(f: string, i: nat, d: Decoded, csr: CsrNames, col: nat): string {
    var tokens := Concat(Tokens(f, i, d, csr));
    if i < |f| && EndsInOffset(f) then tokens + Blanks(64 - col - |tokens|) + TargetText(d.pc, d.args.imm) else tokens
  }

  lemma RenderedOffset(f: string, i: nat, d: Decoded, csr: CsrNames, col: nat)
    requires i + 1 == |f| && f[i] == 'o'
    ensures Rendered(f, i, TAB, d, csr, col) == OperandLine(f, i, d, csr, col)
  {
    hide Directive, Shown, TargetText, Blanks, Tokens, Concat;
    OffsetDirective(d, csr, col);
    LastToken(f, i, d, csr);
    var t := Directive('o', TAB, d, csr, col);
    assert Rendered(f, i + 1, TAB, d, csr, col + |t|) == "";
    assert t + "" == t;
  }

  lemma LastToken(f: string, i: nat, d: Decoded, csr: CsrNames)
    requires i + 1 == |f|
    ensures Concat(Tokens(f, i, d, csr)) == Shown(f[i], d, csr)
  {
    hide Shown;
    assert Tokens(f, i + 1, d, csr) == [];
    assert Concat([]) == "";
    JoinedFirst(Shown(f[i], d, csr), []);
    assert [Shown(f[i], d, csr)] + [] == [Shown(f[i], d, csr)];
  }

  lemma MoreTokens(f: string, i: nat, d: Decoded, csr: CsrNames)
    requires i < |f|
    ensures Concat(Tokens(f, i, d, csr)) == Shown(f[i], d, csr) + Concat(Tokens(f, i + 1, d, csr))
  {
    hide Shown, Concat;
    JoinedFirst(Shown(f[i], d, csr), Tokens(f, i + 1, d, csr));
  }

  lemma RenderedStep(f: string, i: nat, d: Decoded, csr: CsrNames, col: nat)
    requires i < |f| && f[i] != 'o' && (IsOperand(f[i]) || IsPunctuation(f[i]))
    requires var next := col + |Shown(f[i], d, csr)|;
      Rendered(f, i + 1, TAB, d, csr, next) == OperandLine(f, i + 1, d, csr, next)
    ensures Rendered(f, i, TAB, d, csr, col) == OperandLine(f, i, d, csr, col)
  {
    hide Directive, Shown, TargetText, IsOperand, IsPunctuation, Blanks, Tokens, Concat;
    DirectiveIsShown(f[i], d, csr, col);
    MoreTokens(f, i, d, csr);
    Assemble(Shown(f[i], d, csr), Concat(Tokens(f, i + 1, d, csr)), d, col);
    if i + 1 == |f| {
      NoTokens(f, i + 1, d, csr);
      OnlyLastOffset(f, i);
    }
  }

  lemma NoTokens(f: string, i: nat, d: Decoded, csr: CsrNames)
    requires i == |f|
    ensures Concat(Tokens(f, i, d, csr)) == ""
  {}

  lemma OnlyLastOffset(f: string, i: nat)
    requires i + 1 == |f| && f[i] != 'o'
    ensures !EndsInOffset(f)
  {}

  /** The operands print as their line. */
  lemma {:induction false} RenderedTokens(f: string, i: nat, d: Decoded, csr: CsrNames, col: nat)
    requires i <= |f| && Separated(f, i)
    ensures Rendered(f, i, TAB, d, csr, col) == OperandLine(f, i, d, csr, col)
    decreases |f| - i
  {
    hide Rendered, OperandLine, Shown, IsOperand, IsPunctuation;
    if i == |f| {
      NothingRendered(f, i, d, csr, col);
    } else if f[i] == 'o' {
      if i + 1 < |f| {
        OffsetIsLast(f, i);
      }
      RenderedOffset(f, i, d, csr, col);
    } else {
      OperandOrPunctuation(f, i);
      RenderedTokens(f, i + 1, d, csr, col + |Shown(f[i], d, csr)|);
      RenderedStep(f, i, d, csr, col);
    }
  }

  lemma NothingRendered(f: string, i: nat, d: Decoded, csr: CsrNames, col: nat)
    requires i == |f|
    ensures Rendered(f, i, TAB, d, csr, col) == OperandLine(f, i, d, csr, col)
  {}

  lemma Assemble(t: string, rest: string, d: Decoded, col: nat)
    ensures t + (rest + Blanks(64 - (col + |t|) - |rest|) + TargetText(d.pc, d.args.imm))
         == t + rest + Blanks(64 - col - |t + rest|) + TargetText(d.pc, d.args.imm)
  {
    hide Blanks, TargetText;
    assert 64 - (col + |t|) - |rest| == 64 - col - |t + rest|;
  }

  /** A format prints these operands, with the flags or not, and with a target or not. */
  predicate Prints(f: string, start: nat, d: Decoded, csr: CsrNames, parts: seq<string>, flags: bool, target: bool) {
    Tokens(f, start, d, csr) == parts && OperandStart(f) == start && HasFlags(f) == flags && EndsInOffset(f) == target
  }

  lemma RegistersShown(d: Decoded, csr: CsrNames)
    ensures Shown('0', d, csr) == IregName(d.args.rd) && Shown('1', d, csr) == IregName(d.args.rs1)
    ensures Shown('2', d, csr) == IregName(d.args.rs2) && Shown('3', d, csr) == FregName(d.args.rd)
    ensures Shown('4', d, csr) == FregName(d.args.rs1) && Shown('5', d, csr) == FregName(d.args.rs2)
    ensures Shown('6', d, csr) == FregName(d.args.rs3) && Shown('r', d, csr) == RoundingText(d.args.rm)
  {
    hide IregName, FregName, RoundingText;
  }

  lemma PunctuationShown(d: Decoded, csr: CsrNames)
    ensures Shown(',', d, csr) == "," && Shown('(', d, csr) == "(" && Shown(')', d, csr) == ")"
  {}

  lemma ShortPrint(d: Decoded, csr: CsrNames)
    ensures Prints(FMT_NONE, 2, d, csr, [], false, false)
    ensures Prints(FMT_RS1, 2, d, csr, [IregName(d.args.rs1)], false, false)
    ensures Prints(FMT_RD, 2, d, csr, [IregName(d.args.rd)], false, false)
    ensures Prints(FMT_OFFSET, 2, d, csr, [Decimal(Value(d.args.imm))], false, true)
  {
    hide Decimal, IregName, Value;
  }

  lemma PairsPrint(d: Decoded, csr: CsrNames)
    ensures Prints(FMT_RS1_RS2, 2, d, csr, [IregName(d.args.rs1), ",", IregName(d.args.rs2)], false, false)
    ensures Prints(FMT_RD_RS1, 2, d, csr, [IregName(d.args.rd), ",", IregName(d.args.rs1)], false, false)
    ensures Prints(FMT_RD_RS2, 2, d, csr, [IregName(d.args.rd), ",", IregName(d.args.rs2)], false, false)
  {
    hide IregName;
  }

  lemma ConstantsPrint(d: Decoded, csr: CsrNames)
    ensures Prints(FMT_RD_ZIMM, 2, d, csr, [IregName(d.args.rd), ",", Decimal(d.args.rs1 as int)], false, false)
    ensures Prints(FMT_RD_IMM, 2, d, csr, [IregName(d.args.rd), ",", Decimal(Value(d.args.imm))], false, false)
    ensures Prints(FMT_PRED_SUCC, 2, d, csr, [FenceText(d.args.pred), ",", FenceText(d.args.succ)], false, false)
  {
    hide Decimal, FenceText, IregName, Value;
  }

  lemma OffsetsPrint(d: Decoded, csr: CsrNames)
    ensures Prints(FMT_RD_OFFSET, 2, d, csr, [IregName(d.args.rd), ",", Decimal(Value(d.args.imm))], false, true)
    ensures Prints(FMT_RS1_OFFSET, 2, d, csr, [IregName(d.args.rs1), ",", Decimal(Value(d.args.imm))], false, true)
    ensures Prints(FMT_RS2_OFFSET, 2, d, csr, [IregName(d.args.rs2), ",", Decimal(Value(d.args.imm))], false, true)
  {
    hide Decimal, IregName, Value;
  }

  lemma MovesPrint(d: Decoded, csr: CsrNames)
    ensures Prints(FMT_FRD_RS1, 2, d, csr, [FregName(d.args.rd), ",", IregName(d.args.rs1)], false, false)
    ensures Prints(FMT_RD_FRS1, 2, d, csr, [IregName(d.args.rd), ",", FregName(d.args.rs1)], false, false)
  {
    hide FregName, IregName;
  }

  lemma RegistersPrint(d: Decoded, csr: CsrNames)
    ensures Prints(FMT_RD_RS1_RS2, 2, d, csr, [IregName(d.args.rd), ",", IregName(d.args.rs1), ",",
      IregName(d.args.rs2)], false, false)
    ensures Prints(FMT_RD_RS1_IMM, 2, d, csr, [IregName(d.args.rd), ",", IregName(d.args.rs1), ",",
      Decimal(Value(d.args.imm))], false, false)
  {
    hide Decimal, IregName, Value;
  }

  lemma FloatsPrint(d: Decoded, csr: CsrNames)
    ensures Prints(FMT_RD_FRS1_FRS2, 2, d, csr, [IregName(d.args.rd), ",", FregName(d.args.rs1), ",",
      FregName(d.args.rs2)], false, false)
    ensures Prints(FMT_FRD_FRS1_FRS2, 2, d, csr, [FregName(d.args.rd), ",", FregName(d.args.rs1), ",",
      FregName(d.args.rs2)], false, false)
  {
    hide FregName, IregName;
  }

  lemma RoundedFloatsPrint(d: Decoded, csr: CsrNames)
    ensures Prints(FMT_RM_FRD_FRS1, 2, d, csr, [RoundingText(d.args.rm), ",", FregName(d.args.rd), ",",
      FregName(d.args.rs1)], false, false)
    ensures Prints(FMT_RM_FRD_RS1, 2, d, csr, [RoundingText(d.args.rm), ",", FregName(d.args.rd), ",",
      IregName(d.args.rs1)], false, false)
  {
    hide FregName, IregName, RoundingText;
  }

  lemma RoundedIntegersPrint(d: Decoded, csr: CsrNames)
    ensures Prints(FMT_RM_RD_FRS1, 2, d, csr, [RoundingText(d.args.rm), ",", IregName(d.args.rd), ",",
      FregName(d.args.rs1)], false, false)
  {
    hide FregName, IregName, RoundingText;
  }

  lemma RoundedPairsPrint(d: Decoded, csr: CsrNames)
    ensures Prints(FMT_RM_FRD_FRS1_FRS2, 2, d, csr, [RoundingText(d.args.rm), ",", FregName(d.args.rd), ",",
      FregName(d.args.rs1), ",", FregName(d.args.rs2)], false, false)
  {
    hide FregName, RoundingText;
  }

  lemma LastTokens(d: Decoded, csr: CsrNames)
    ensures Tokens(FMT_RM_FRD_FRS1_FRS2_FRS3, 6, d, csr) ==
      [FregName(d.args.rs1), ",", FregName(d.args.rs2), ",", FregName(d.args.rs3)]
  {
    hide FregName, Shown;
    RegistersShown(d, csr);
    PunctuationShown(d, csr);
  }

  lemma TokenStep(f: string, i: nat, d: Decoded, csr: CsrNames)
    requires i < |f|
    ensures Tokens(f, i, d, csr) == [Shown(f[i], d, csr)] + Tokens(f, i + 1, d, csr)
  {
    hide Shown;
  }

  lemma FourJoined<T>(a: T, b: T, c: T, d: T, rest: seq<T>)
    ensures [a] + ([b] + ([c] + ([d] + rest))) == [a, b, c, d] + rest
  {}

  lemma FirstTokens(f: string, i: nat, d: Decoded, csr: CsrNames)
    requires i + 4 <= |f|
    ensures Tokens(f, i, d, csr) == [Shown(f[i], d, csr), Shown(f[i + 1], d, csr), Shown(f[i + 2], d, csr),
      Shown(f[i + 3], d, csr)] + Tokens(f, i + 4, d, csr)
  {
    hide Shown, Tokens;
    TokenStep(f, i, d, csr);
    TokenStep(f, i + 1, d, csr);
    TokenStep(f, i + 2, d, csr);
    TokenStep(f, i + 3, d, csr);
    FourJoined(Shown(f[i], d, csr), Shown(f[i + 1], d, csr), Shown(f[i + 2], d, csr), Shown(f[i + 3], d, csr),
      Tokens(f, i + 4, d, csr));
  }

  lemma RoundedTriplesPrint(d: Decoded, csr: CsrNames)
    ensures Prints(FMT_RM_FRD_FRS1_FRS2_FRS3, 2, d, csr, [
      RoundingText(d.args.rm), ",", FregName(d.args.rd), ",", FregName(d.args.rs1), ",",
      FregName(d.args.rs2), ",", FregName(d.args.rs3)], false, false)
  {
    hide FregName, RoundingText, Shown, Tokens;
    RegistersShown(d, csr);
    PunctuationShown(d, csr);
    FirstTokens(FMT_RM_FRD_FRS1_FRS2_FRS3, 2, d, csr);
    LastTokens(d, csr);
  }

  lemma LoadsPrint(d: Decoded, csr: CsrNames)
    ensures Prints(FMT_RD_OFFSET_RS1, 2, d, csr, [IregName(d.args.rd), ",", Decimal(Value(d.args.imm)), "(",
      IregName(d.args.rs1), ")"], false, false)
  {
    hide Decimal, IregName, Value;
  }

  lemma FloatLoadsPrint(d: Decoded, csr: CsrNames)
    ensures Prints(FMT_FRD_OFFSET_RS1, 2, d, csr, [FregName(d.args.rd), ",", Decimal(Value(d.args.imm)), "(",
      IregName(d.args.rs1), ")"], false, false)
  {
    hide Decimal, FregName, IregName, Value;
  }

  lemma StoresPrint(d: Decoded, csr: CsrNames)
    ensures Prints(FMT_RS2_OFFSET_RS1, 2, d, csr, [IregName(d.args.rs2), ",", Decimal(Value(d.args.imm)), "(",
      IregName(d.args.rs1), ")"], false, false)
  {
    hide Decimal, IregName, Value;
  }

  lemma FloatStoresPrint(d: Decoded, csr: CsrNames)
    ensures Prints(FMT_FRS2_OFFSET_RS1, 2, d, csr, [FregName(d.args.rs2), ",", Decimal(Value(d.args.imm)), "(",
      IregName(d.args.rs1), ")"], false, false)
  {
    hide Decimal, FregName, IregName, Value;
  }

  lemma CsrsPrint(d: Decoded, csr: CsrNames)
    ensures Prints(FMT_RD_CSR_RS1, 2, d, csr, [IregName(d.args.rd), ",", CsrText(csr, d.args.imm), ",",
      IregName(d.args.rs1)], false, false)
    ensures Prints(FMT_RD_CSR_ZIMM, 2, d, csr, [IregName(d.args.rd), ",", CsrText(csr, d.args.imm), ",",
      Decimal(d.args.rs1 as int)], false, false)
  {
    hide CsrText, Decimal, IregName;
  }

  lemma ComparisonsPrint(d: Decoded, csr: CsrNames)
    ensures Prints(FMT_RS1_RS2_OFFSET, 2, d, csr, [IregName(d.args.rs1), ",", IregName(d.args.rs2), ",",
      Decimal(Value(d.args.imm))], false, true)
    ensures Prints(FMT_RS2_RS1_OFFSET, 2, d, csr, [IregName(d.args.rs2), ",", IregName(d.args.rs1), ",",
      Decimal(Value(d.args.imm))], false, true)
  {
    hide Decimal, IregName, Value;
  }

  lemma AtomicsPrint(d: Decoded, csr: CsrNames)
    ensures Prints(FMT_AQRL_RD_RS2_RS1, 4, d, csr, [IregName(d.args.rd), ",", IregName(d.args.rs2), ",", "(",
      IregName(d.args.rs1), ")"], true, false)
  {
    hide IregName;
  }

  lemma ReservedPrint(d: Decoded, csr: CsrNames)
    ensures Prints(FMT_AQRL_RD_RS1, 4, d, csr, [IregName(d.args.rd), ",", "(", IregName(d.args.rs1), ")"], true, false)
  {
    hide IregName;
  }

  // ----- what each instruction prints

  predicate WidePrints(op: WideOp, d: Decoded, csr: CsrNames) {
    Prints(WideFormat(op), if op.Amo? then 4 else 2, d, csr, WideWritten(op, d.args, csr), op.Amo?,
      ShowsTarget(Wide(op)))
  }

  predicate PseudoPrints(op: PseudoOp, d: Decoded, csr: CsrNames) {
    Prints(PseudoFormat(op), 2, d, csr, PseudoWritten(op, d.args), false, ShowsTarget(Pseudo(op)))
  }

  lemma JumpWritten(op: WideOp, d: Decoded, csr: CsrNames)
    requires op.Lui? || op.Auipc? || op.Jal? || op.Jalr? || op.Branch?
    ensures WidePrints(op, d, csr)
  {
    hide IregName, FregName, Decimal, Value, CsrText, RoundingText, FenceText, Prints;
    ConstantsPrint(d, csr);
    OffsetsPrint(d, csr);
    RegistersPrint(d, csr);
    ComparisonsPrint(d, csr);
  }

  lemma ArithWritten(op: WideOp, d: Decoded, csr: CsrNames)
    requires op.AddImm? || op.ShiftImm? || op.LogicImm? || op.Arith? || op.Logic?
    ensures WidePrints(op, d, csr)
  {
    hide IregName, FregName, Decimal, Value, CsrText, RoundingText, FenceText, Prints;
    RegistersPrint(d, csr);
  }

  lemma AccessWritten(op: WideOp, d: Decoded, csr: CsrNames)
    requires op.Load? || op.Store? || op.FLoad? || op.FStore?
    ensures WidePrints(op, d, csr)
  {
    hide IregName, FregName, Decimal, Value, CsrText, RoundingText, FenceText, Prints;
    LoadsPrint(d, csr);
    StoresPrint(d, csr);
    FloatLoadsPrint(d, csr);
    FloatStoresPrint(d, csr);
  }

  lemma SystemWritten(op: WideOp, d: Decoded, csr: CsrNames)
    requires op.Fence? || op.FenceI? || op.System? || op.SfenceVm? || op.SfenceVma?
    ensures WidePrints(op, d, csr)
  {
    hide IregName, FregName, Decimal, Value, CsrText, RoundingText, FenceText, Prints;
    ShortPrint(d, csr);
    PairsPrint(d, csr);
    ConstantsPrint(d, csr);
  }

  lemma CsrWritten(op: WideOp, d: Decoded, csr: CsrNames)
    requires op.Csr? || op.CsrImm?
    ensures WidePrints(op, d, csr)
  {
    hide IregName, FregName, Decimal, Value, CsrText, RoundingText, FenceText, Prints;
    CsrsPrint(d, csr);
  }

  lemma AtomicWritten(op: WideOp, d: Decoded, csr: CsrNames)
    requires op.Amo?
    ensures WidePrints(op, d, csr)
  {
    hide IregName, FregName, Decimal, Value, CsrText, RoundingText, FenceText, Prints;
    AtomicsPrint(d, csr);
    ReservedPrint(d, csr);
  }

  lemma RoundedWritten(op: WideOp, d: Decoded, csr: CsrNames)
    requires op.Fma? || op.FConvert?
    ensures WidePrints(op, d, csr)
  {
    hide IregName, FregName, Decimal, Value, CsrText, RoundingText, FenceText, Prints;
    RoundedTriplesPrint(d, csr);
    RoundedFloatsPrint(d, csr);
  }

  lemma FpRoundedWritten(op: WideOp, d: Decoded, csr: CsrNames)
    requires op.Fp? && (op.fp.FAdd? || op.fp.FSub? || op.fp.FMul? || op.fp.FDiv? || op.fp.FSqrt?)
    ensures WidePrints(op, d, csr)
  {
    hide IregName, FregName, Decimal, Value, CsrText, RoundingText, FenceText, Prints;
    RoundedPairsPrint(d, csr);
    RoundedFloatsPrint(d, csr);
  }

  lemma FpConvertedWritten(op: WideOp, d: Decoded, csr: CsrNames)
    requires op.Fp? && (op.fp.FToInt? || op.fp.FFromInt?)
    ensures WidePrints(op, d, csr)
  {
    hide IregName, FregName, Decimal, Value, CsrText, RoundingText, FenceText, Prints;
    RoundedIntegersPrint(d, csr);
    RoundedFloatsPrint(d, csr);
  }

  lemma FpPickWritten(op: WideOp, d: Decoded, csr: CsrNames)
    requires op.Fp? && (op.fp.FSgnj? || op.fp.FSgnjn? || op.fp.FSgnjx? || op.fp.FMin? || op.fp.FMax?)
    ensures WidePrints(op, d, csr)
  {
    hide IregName, FregName, Decimal, Value, CsrText, RoundingText, FenceText, Prints;
    FloatsPrint(d, csr);
  }

  lemma FpCompareWritten(op: WideOp, d: Decoded, csr: CsrNames)
    requires op.Fp? && (op.fp.FLe? || op.fp.FLt? || op.fp.FEq?)
    ensures WidePrints(op, d, csr)
  {
    hide IregName, FregName, Decimal, Value, CsrText, RoundingText, FenceText, Prints;
    FloatsPrint(d, csr);
  }

  lemma FpMoveWritten(op: WideOp, d: Decoded, csr: CsrNames)
    requires op.Fp? && (op.fp.FMoveToInt? || op.fp.FClass? || op.fp.FMoveFromInt?)
    ensures WidePrints(op, d, csr)
  {
    hide IregName, FregName, Decimal, Value, CsrText, RoundingText, FenceText, Prints;
    MovesPrint(d, csr);
  }

  lemma FpWrittenAll(op: WideOp, d: Decoded, csr: CsrNames)
    requires op.Fp?
    ensures WidePrints(op, d, csr)
  {
    hide WidePrints;
    match op.fp {
      case FAdd | FSub | FMul | FDiv | FSqrt => FpRoundedWritten(op, d, csr);
      case FToInt(_) | FFromInt(_) => FpConvertedWritten(op, d, csr);
      case FSgnj | FSgnjn | FSgnjx | FMin | FMax => FpPickWritten(op, d, csr);
      case FLe | FLt | FEq => FpCompareWritten(op, d, csr);
      case FMoveToInt | FClass | FMoveFromInt => FpMoveWritten(op, d, csr);
    }
  }

  lemma WideIsWritten(op: WideOp, d: Decoded, csr: CsrNames)
    ensures WidePrints(op, d, csr)
  {
    hide WidePrints;
    match op {
      case Lui | Auipc | Jal | Jalr | Branch(_) => JumpWritten(op, d, csr);
      case AddImm(_) | ShiftImm(_, _) | LogicImm(_) | Arith(_, _) | Logic(_) => ArithWritten(op, d, csr);
      case Load(_) | Store(_) | FLoad(_) | FStore(_) => AccessWritten(op, d, csr);
      case Fence | FenceI | System(_) | SfenceVm | SfenceVma => SystemWritten(op, d, csr);
      case Csr(_) | CsrImm(_) => CsrWritten(op, d, csr);
      case Amo(_, _) => AtomicWritten(op, d, csr);
      case Fma(_, _) | FConvert(_) => RoundedWritten(op, d, csr);
      case Fp(_, _) => FpWrittenAll(op, d, csr);
    }
  }

  lemma PlainPseudoWritten(op: PseudoOp, d: Decoded, csr: CsrNames)
    requires op.Nop? || op.Ret? || op.Mv? || op.Not? || op.SextW? || op.Seqz? || op.Sltz? || op.FMove?
    ensures PseudoPrints(op, d, csr)
  {
    hide IregName, FregName, Decimal, Value, CsrText, RoundingText, FenceText, Prints;
    ShortPrint(d, csr);
    PairsPrint(d, csr);
  }

  lemma NegatedPseudoWritten(op: PseudoOp, d: Decoded, csr: CsrNames)
    requires op.Neg? || op.Negw? || op.Snez? || op.Sgtz?
    ensures PseudoPrints(op, d, csr)
  {
    hide IregName, FregName, Decimal, Value, CsrText, RoundingText, FenceText, Prints;
    PairsPrint(d, csr);
  }

  lemma BranchPseudoWritten(op: PseudoOp, d: Decoded, csr: CsrNames)
    requires op.BranchTo?
    ensures PseudoPrints(op, d, csr)
  {
    hide IregName, FregName, Decimal, Value, CsrText, RoundingText, FenceText, Prints;
    OffsetsPrint(d, csr);
    ComparisonsPrint(d, csr);
  }

  lemma JumpPseudoWritten(op: PseudoOp, d: Decoded, csr: CsrNames)
    requires op.J? || op.Jr?
    ensures PseudoPrints(op, d, csr)
  {
    hide IregName, FregName, Decimal, Value, CsrText, RoundingText, FenceText, Prints;
    ShortPrint(d, csr);
  }

  lemma CsrPseudoWritten(op: PseudoOp, d: Decoded, csr: CsrNames)
    requires || op.ReadCounter? || op.ReadCounterHigh? || op.ReadFloatCsr?
             || op.WriteFloatCsr? || op.Fsrmi? || op.Fsflagsi?
    ensures PseudoPrints(op, d, csr)
  {
    hide IregName, FregName, Decimal, Value, CsrText, RoundingText, FenceText, Prints;
    ShortPrint(d, csr);
    PairsPrint(d, csr);
    ConstantsPrint(d, csr);
  }

  lemma PseudoIsWritten(op: PseudoOp, d: Decoded, csr: CsrNames)
    ensures PseudoPrints(op, d, csr)
  {
    hide PseudoPrints;
    match op {
      case Nop | Ret | Mv | Not | SextW | Seqz | Sltz | FMove(_, _) => PlainPseudoWritten(op, d, csr);
      case Neg | Negw | Snez | Sgtz => NegatedPseudoWritten(op, d, csr);
      case BranchTo(_) => BranchPseudoWritten(op, d, csr);
      case J | Jr => JumpPseudoWritten(op, d, csr);
      case ReadCounter(_) | ReadCounterHigh(_) | ReadFloatCsr(_) | WriteFloatCsr(_) | Fsrmi | Fsflagsi =>
        CsrPseudoWritten(op, d, csr);
    }
  }

  // ----- the whole line

  predicate OpIsWritten(d: Decoded, csr: CsrNames) {
    var f := FormatOf(d.op);
    && Tokens(f, OperandStart(f), d, csr) == Written(d, csr)
    && (HasFlags(f) <==> d.op.Wide? && d.op.wide.Amo?)
    && (EndsInOffset(f) <==> ShowsTarget(d.op))
  }

  lemma EveryOpIsWritten(d: Decoded, csr: CsrNames)
    requires !d.op.Compressed?
    ensures OpIsWritten(d, csr)
  {
    hide WideFormat, PseudoFormat, WideWritten, PseudoWritten, Tokens, ShowsTarget, HasFlags, EndsInOffset;
    match d.op {
      case Illegal => IllegalIsWritten(d, csr);
      case Wide(op) => WideIsWritten(op, d, csr);
      case Pseudo(op) => PseudoIsWritten(op, d, csr);
    }
  }

  lemma IllegalIsWritten(d: Decoded, csr: CsrNames)
    requires d.op.Illegal?
    ensures OpIsWritten(d, csr)
  {
    ShortPrint(d, csr);
  }

  /**
   Every record prints its line: the mnemonic, the operands in the order of
   assembly language from column 32 on, and from column 64 on the target.
  */
  lemma PrintsItsLine(d: Decoded, csr: CsrNames)
    requires !d.op.Compressed?
    ensures PrintedText(d, csr) == LineText(d, csr)
  {
    hide NameOf, FormatOf, Rendered, Tokens, Written, ShowsTarget, HasFlags, EndsInOffset, Separated, LastColumn, Hex;
    hide Target, Blanks, Concat;
    var f := FormatOf(d.op);
    EveryOpIsWritten(d, csr);
    FormatsAreSound(d.op);
    TextShape(d, csr);
    HeadingIsMnemonic(d);
    StartInside(f);
    RenderedTokens(f, OperandStart(f), d, csr, TAB);
    if EndsInOffset(f) {
      StartsBeforeEnd(f);
    }
    JoinedLine(MnemonicText(d), Concat(Written(d, csr)), TargetText(d.pc, d.args.imm));
  }

  lemma StartInside(f: string)
    requires Sound(f)
    ensures OperandStart(f) <= |f| && Separated(f, OperandStart(f))
  {
    hide Separated, LastColumn;
  }

  lemma HeadingIsMnemonic(d: Decoded)
    requires HasFlags(FormatOf(d.op)) <==> d.op.Wide? && d.op.wide.Amo?
    ensures Heading(d) == MnemonicText(d)
  {
    hide NameOf, FormatOf;
    var aq, rl := if d.args.aq != 0 then ".aq" else "", if d.args.rl != 0 then ".rl" else "";
    assert NameOf(d.op) + (aq + rl) == NameOf(d.op) + aq + rl;
  }

  lemma LineLength(head: string, operands: string, line: string)
    requires |head| <= 32 && line == PaddedTo(head, 32) + operands
    ensures |line| == 32 + |operands|
  {
    hide Blanks;
    LengthOfBlanks(32 - |head|);
  }

  lemma TwicePadded(head: string, operands: string)
    requires |head| <= 32
    ensures PaddedTo(PaddedTo(head, 32) + operands, 64)
         == head + Blanks(32 - |head|) + operands + Blanks(32 - |operands|)
  {
    LineLength(head, operands, PaddedTo(head, 32) + operands);
    hide Blanks;
  }

  lemma JoinedLine(head: string, operands: string, target: string)
    requires |head| <= 32
    ensures PaddedTo(PaddedTo(head, 32) + operands, 64) + target
         == head + Blanks(32 - |head|) + (operands + Blanks(32 - |operands|) + target)
  {
    hide Blanks, PaddedTo;
    TwicePadded(head, operands);
    FiveJoined(head, Blanks(32 - |head|), operands, Blanks(32 - |operands|), target);
  }

  lemma LengthOfBlanks(n: int)
    ensures |Blanks(n)| == if n <= 0 then 0 else n
  {}

  lemma FiveJoined(a: string, b: string, c: string, d: string, e: string)
    ensures a + b + c + d + e == a + b + (c + d + e)
  {}
}
