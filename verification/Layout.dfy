/**
 The shape of the printed text: a mnemonic padded to column 32, then operands
 separated by delimiters, 84 characters at most, so that the bounded appends
 never truncate in a buffer of 128.
*/
module Layout {
  import opened Opcodes
  import opened Decoding
  import opened Formats
  import opened Immediates
  import opened Locality
  import opened Mnemonics
  import opened Numerals
  import opened Registers
  import opened Text

  const TAB := 32
  const MAX_TEXT := 84

  /** What is asked of the register name table: distinct short names that do not look like the hexadecimal fallback. */
  ghost predicate GoodCsrNames(csr: CsrNames) {
    && (forall n :: csr(n).Some? ==> GoodCsrName(csr(n).value))
    && (forall m, n :: csr(m).Some? && csr(n).Some? && csr(m).value == csr(n).value ==> m == n)
  }

  predicate GoodCsrName(name: string) {
    IsOperandText(name, 14) && |name| > 0 && name[0] != '0'
  }

  // ----- the directives of a format

  predicate IsPunctuation(c: char) { c == ',' || c == '(' || c == ')' }

  predicate IsOperand(c: char) {
    '0' <= c <= '7' || c == 'i' || c == 'o' || c == 'c' || c == 'r' || c == 'p' || c == 's'
  }

  /** The most characters an operand can take; an offset is also followed by its target. */
  function MaxWidth(c: char): nat {
    match c
    case ',' => 1 case '(' => 1 case ')' => 1
    case '7' => 11 case 'i' => 11 case 'o' => 11
    case 'c' => 14 case 'r' => 3
    case _ => 4
  }

  /** The last column that directive c can reach from column col. */
  function Advance(c: char, col: nat): nat {
    if c != 'o' then col + MaxWidth(c)
    else (if col + MaxWidth(c) < 2 * TAB then 2 * TAB else col + MaxWidth(c)) + 20
  }

  function LastColumn(f: string, i: nat, col: nat): nat
    decreases |f| - i
  {
    if i >= |f| then col else LastColumn(f, i + 1, Advance(f[i], col))
  }

  /** From position i on, a format consists of operands with punctuation between them; an offset comes last. */
  predicate Separated(f: string, i: nat)
    decreases |f| - i
  {
    || i >= |f|
    || (IsPunctuation(f[i]) && Separated(f, i + 1))
    || (IsOperand(f[i]) && (i + 1 == |f| || (f[i] != 'o' && IsPunctuation(f[i + 1]))) && Separated(f, i + 1))
  }

  predicate HasFlags(f: string) { |f| > 3 && f[1] == 'A' && f[2] == 'R' && f[3] == '\t' }

  /** The position of the first operand directive. */
  function OperandStart(f: string): nat { if HasFlags(f) then 4 else 2 }

  /**
   Every format prints the name, possibly the acquire and release flags, a tab
   and separated operands; only an offset reaches past the second tab stop, and
   its number ends before that stop, even if the operands start a column later.
  */
  predicate Sound(f: string) {
    && |f| >= 2 && f[0] == 'O' && (f[1] == '\t' || HasFlags(f))
    && Separated(f, OperandStart(f))
    && LastColumn(f, OperandStart(f), TAB + 1) <= if f[|f| - 1] == 'o' then MAX_TEXT else 2 * TAB
  }

  lemma SoundFormatsA()
    ensures Sound(FMT_NONE)
    ensures Sound(FMT_RS1)
    ensures Sound(FMT_OFFSET)
    ensures Sound(FMT_PRED_SUCC)
    ensures Sound(FMT_RS1_RS2)
  {}

  lemma SoundFormatsB()
    ensures Sound(FMT_RD_IMM)
    ensures Sound(FMT_RD_OFFSET)
    ensures Sound(FMT_RD_RS1_RS2)
    ensures Sound(FMT_FRD_RS1)
  {}

  lemma SoundFormatsC()
    ensures Sound(FMT_RD_FRS1)
    ensures Sound(FMT_RD_FRS1_FRS2)
  {}

  lemma SoundFormatsO()
    ensures Sound(FMT_FRD_FRS1_FRS2)
  {}

  lemma SoundFormatsD()
    ensures Sound(FMT_RM_FRD_FRS1)
    ensures Sound(FMT_RM_FRD_RS1)
  {}

  lemma SoundFormatsE()
    ensures Sound(FMT_RM_RD_FRS1)
  {}

  lemma SoundFormatsP()
    ensures Sound(FMT_RM_FRD_FRS1_FRS2)
  {}

  lemma SoundFormatsF()
    ensures Sound(FMT_RM_FRD_FRS1_FRS2_FRS3)
  {}

  lemma SoundFormatsG()
    ensures Sound(FMT_RD_RS1_IMM)
    ensures Sound(FMT_RD_OFFSET_RS1)
  {}

  lemma SoundFormatsH()
    ensures Sound(FMT_FRD_OFFSET_RS1)
    ensures Sound(FMT_RD_CSR_RS1)
  {}

  lemma SoundFormatsI()
    ensures Sound(FMT_RD_CSR_ZIMM)
    ensures Sound(FMT_RS2_OFFSET_RS1)
  {}

  lemma SoundFormatsJ()
    ensures Sound(FMT_FRS2_OFFSET_RS1)
    ensures Sound(FMT_RS1_RS2_OFFSET)
  {}

  lemma SoundFormatsK()
    ensures Sound(FMT_RS2_RS1_OFFSET)
  {}

  lemma SoundFormatsL()
    ensures Sound(FMT_AQRL_RD_RS2_RS1)
  {}

  lemma SoundFormatsM()
    ensures Sound(FMT_AQRL_RD_RS1)
    ensures Sound(FMT_RD)
    ensures Sound(FMT_RD_ZIMM)
    ensures Sound(FMT_RD_RS1)
  {}

  lemma SoundFormatsN()
    ensures Sound(FMT_RD_RS2)
    ensures Sound(FMT_RS1_OFFSET)
    ensures Sound(FMT_RS2_OFFSET)
  {}

  lemma WideFormatsAreSound(op: WideOp)
    ensures Sound(WideFormat(op))
  {
    hide Sound;
    SoundFormatsA();
    SoundFormatsB();
    SoundFormatsC();
    SoundFormatsD();
    SoundFormatsE();
    SoundFormatsF();
    SoundFormatsG();
    SoundFormatsH();
    SoundFormatsI();
    SoundFormatsJ();
    SoundFormatsK();
    SoundFormatsL();
    SoundFormatsM();
    SoundFormatsN();
    SoundFormatsO();
    SoundFormatsP();
  }

  lemma PseudoFormatsAreSound(op: PseudoOp)
    ensures Sound(PseudoFormat(op))
  {
    hide Sound;
    SoundFormatsA();
    SoundFormatsB();
    SoundFormatsC();
    SoundFormatsD();
    SoundFormatsE();
    SoundFormatsF();
    SoundFormatsG();
    SoundFormatsH();
    SoundFormatsI();
    SoundFormatsJ();
    SoundFormatsK();
    SoundFormatsL();
    SoundFormatsM();
    SoundFormatsN();
  }

  lemma FormatsAreSound(op: Op)
    requires !op.Compressed?
    ensures Sound(FormatOf(op))
  {
    hide Sound, WideFormat, PseudoFormat;
    match op {
      case Illegal => SoundFormatsA();
      case Wide(wide) => WideFormatsAreSound(wide);
      case Pseudo(pseudo) => PseudoFormatsAreSound(pseudo);
    }
  }

  // ----- the operands

  /** The text that names an operand: all of its directive, but only the number of an offset. */
  function Token(c: char, d: Decoded, csr: CsrNames): string {
    if c == 'o' then Decimal(Value(d.args.imm)) else Directive(c, TAB, d, csr, 0)
  }

  lemma NumericText(s: string, length: nat)
    requires |s| <= length && forall c :: c in s ==> IsNumeric(c)
    ensures IsOperandText(s, length)
  {}

  lemma ValueBounds(imm: bv32)
    ensures -0x1_0000_0000 <= Value(imm) <= 0x1_0000_0000
  {}

  lemma NumbersAreText(n: int)
    requires -0x1_0000_0000 <= n <= 0x1_0000_0000
    ensures IsOperandText(Decimal(n), 11)
  {
    hide Decimal, IsOperandText, IsNumeric;
    DecimalNumeric(n);
    DecimalLength(n);
    NumericText(Decimal(n), 11);
  }

  lemma CsrIsText(csr: CsrNames, imm: bv32)
    requires GoodCsrNames(csr)
    ensures IsOperandText(CsrText(csr, imm), 14)
  {
    if csr(imm & 0xFFF).None? {
      Hex3Numeric(CsrNumber(imm));
    }
  }

  lemma RegistersAreText(r: bv8)
    requires r < 32
    ensures IsOperandText(IregName(r), 4) && IsOperandText(FregName(r), 4)
  {
    hide IregName, FregName, IregNumber, FregNumber, IsOperandText;
    RegistersFound(r);
  }

  lemma LettersAreText(bits: bv8)
    ensures IsOperandText(FenceText(bits), 4)
    ensures IsOperandText(RoundingText(bits), 3)
  {}

  lemma TokenIsText(c: char, d: Decoded, csr: CsrNames)
    requires IsOperand(c) && InTables(d.args) && GoodCsrNames(csr)
    ensures IsOperandText(Token(c, d, csr), MaxWidth(c))
  {
    hide IsOperandText, IregName, FregName, Decimal, CsrText, RoundingText, FenceText, Value, GoodCsrNames;
    RegistersAreText(d.args.rd);
    RegistersAreText(d.args.rs1);
    RegistersAreText(d.args.rs2);
    RegistersAreText(d.args.rs3);
    ValueBounds(d.args.imm);
    NumbersAreText(Value(d.args.imm));
    NumbersAreText(d.args.rs1 as int);
    CsrIsText(csr, d.args.imm);
    LettersAreText(d.args.pred);
    LettersAreText(d.args.succ);
    LettersAreText(d.args.rm);
  }

  /** What follows an offset: blanks up to column 64, or none, and the target. */
  function Reference(d: Decoded, col: int): string {
    Blanks(col) + TargetText(d.pc, d.args.imm)
  }

  lemma TargetIsShort(pc: bv64, imm: bv32)
    ensures 4 < |TargetText(pc, imm)| <= 20 && TargetText(pc, imm)[0] == '#'
    ensures '\0' !in TargetText(pc, imm)
  {
    hide Target, Digits;
    HexLength(Target(pc, imm) as int);
    DigitsNumeric(Target(pc, imm) as int, 16);
  }

  /** An operand directive prints its token; an offset also prints its target. */
  lemma DirectiveIsToken(c: char, d: Decoded, csr: CsrNames, col: nat)
    requires IsOperand(c)
    ensures c != 'o' ==> Directive(c, TAB, d, csr, col) == Token(c, d, csr)
    ensures c == 'o' ==>
      Directive(c, TAB, d, csr, col) == Token(c, d, csr) + Reference(d, 2 * TAB - col - |Token(c, d, csr)|)
  {
    hide Decimal, TargetText, IregName, FregName, CsrText, RoundingText, FenceText, Value;
  }

  lemma DirectiveAdvances(c: char, d: Decoded, csr: CsrNames, col: nat, bound: nat)
    requires IsOperand(c) || IsPunctuation(c)
    requires InTables(d.args) && GoodCsrNames(csr) && col <= bound
    ensures col + |Directive(c, TAB, d, csr, col)| <= Advance(c, bound)
    ensures '\0' !in Directive(c, TAB, d, csr, col)
  {
    if IsPunctuation(c) {
    } else {
      hide Directive, GoodCsrNames, TargetText, Token;
      TokenIsText(c, d, csr);
      DirectiveIsToken(c, d, csr, col);
      TargetIsShort(d.pc, d.args.imm);
    }
  }

  /** Rendering the operands never passes the last column. */
  lemma {:induction false} RenderedInside(f: string, i: nat, d: Decoded, csr: CsrNames, col: nat, bound: nat)
    requires Separated(f, i) && InTables(d.args) && GoodCsrNames(csr) && col <= bound
    ensures col + |Rendered(f, i, TAB, d, csr, col)| <= LastColumn(f, i, bound)
    ensures '\0' !in Rendered(f, i, TAB, d, csr, col)
    decreases |f| - i
  {
    hide Directive, GoodCsrNames, InTables, IsOperand, IsPunctuation, Advance;
    if i < |f| {
      var t := Directive(f[i], TAB, d, csr, col);
      DirectiveAdvances(f[i], d, csr, col, bound);
      RenderedInside(f, i + 1, d, csr, col + |t|, Advance(f[i], bound));
    }
  }

  // ----- the whole text

  /** The unbounded text of a record. */
  function PrintedText(d: Decoded, csr: CsrNames): string {
    Rendered(FormatOf(d.op), 0, TAB, d, csr, 0)
  }

  function FlagText(d: Decoded): string {
    (if d.args.aq != 0 then ".aq" else "") + (if d.args.rl != 0 then ".rl" else "")
  }

  /** The name and the flags, which end before column 17. */
  function Heading(d: Decoded): string {
    if HasFlags(FormatOf(d.op)) then NameOf(d.op) + FlagText(d) else NameOf(d.op)
  }

  function OperandText(d: Decoded, csr: CsrNames): string {
    Rendered(FormatOf(d.op), OperandStart(FormatOf(d.op)), TAB, d, csr, TAB)
  }

  lemma HeadingIsShort(d: Decoded)
    requires !d.op.Compressed?
    ensures 1 <= |Heading(d)| <= 16 && ' ' !in Heading(d) && '\0' !in Heading(d)
  {
    hide NameOf, FormatOf;
    PrintedNamesAreMnemonics(d.op);
  }

  lemma RenderStep(f: string, i: nat, d: Decoded, csr: CsrNames, col: nat, t: string)
    requires i < |f| && Directive(f[i], TAB, d, csr, col) == t
    ensures Rendered(f, i, TAB, d, csr, col) == t + Rendered(f, i + 1, TAB, d, csr, col + |t|)
  {
    hide Directive;
  }

  lemma HeadingDirectives(d: Decoded, csr: CsrNames, col: nat)
    ensures Directive('O', TAB, d, csr, col) == NameOf(d.op)
    ensures Directive('A', TAB, d, csr, col) == if d.args.aq != 0 then ".aq" else ""
    ensures Directive('R', TAB, d, csr, col) == if d.args.rl != 0 then ".rl" else ""
    ensures Directive('\t', TAB, d, csr, col) == Blanks(TAB - col)
  {
    hide NameOf;
  }

  lemma TextOfPlainFormat(f: string, d: Decoded, csr: CsrNames)
    requires Sound(f) && !HasFlags(f) && |NameOf(d.op)| <= TAB
    ensures Rendered(f, 0, TAB, d, csr, 0) ==
      NameOf(d.op) + Blanks(TAB - |NameOf(d.op)|) + Rendered(f, 2, TAB, d, csr, TAB)
  {
    hide NameOf, Separated, LastColumn, Directive, Rendered, Blanks;
    var name := NameOf(d.op);
    var pad := Blanks(TAB - |name|);
    HeadingDirectives(d, csr, 0);
    HeadingDirectives(d, csr, |name|);
    RenderStep(f, 0, d, csr, 0, name);
    RenderStep(f, 1, d, csr, |name|, pad);
    assert name + (pad + Rendered(f, 2, TAB, d, csr, TAB)) == name + pad + Rendered(f, 2, TAB, d, csr, TAB);
  }

  lemma TextOfFlagFormat(f: string, d: Decoded, csr: CsrNames)
    requires Sound(f) && HasFlags(f) && |NameOf(d.op)| + 6 <= TAB
    ensures var head := NameOf(d.op) + FlagText(d);
      Rendered(f, 0, TAB, d, csr, 0) == head + Blanks(TAB - |head|) + Rendered(f, 4, TAB, d, csr, TAB)
  {
    hide NameOf, Separated, LastColumn, Directive, Rendered, Blanks;
    var name := NameOf(d.op);
    var aq, rl := if d.args.aq != 0 then ".aq" else "", if d.args.rl != 0 then ".rl" else "";
    var pad := Blanks(TAB - |name| - |aq| - |rl|);
    HeadingDirectives(d, csr, 0);
    HeadingDirectives(d, csr, |name|);
    HeadingDirectives(d, csr, |name| + |aq|);
    HeadingDirectives(d, csr, |name| + |aq| + |rl|);
    RenderStep(f, 0, d, csr, 0, name);
    RenderStep(f, 1, d, csr, |name|, aq);
    RenderStep(f, 2, d, csr, |name| + |aq|, rl);
    RenderStep(f, 3, d, csr, |name| + |aq| + |rl|, pad);
    Joined(name, aq, rl, pad, Rendered(f, 4, TAB, d, csr, TAB));
  }

  lemma Joined(name: string, aq: string, rl: string, pad: string, rest: string)
    ensures name + (aq + (rl + (pad + rest))) == name + (aq + rl) + pad + rest
  {}

  /** The text is the heading, blanks up to column 32 (one at least), and the operands from there on. */
  lemma TextShape(d: Decoded, csr: CsrNames)
    requires !d.op.Compressed?
    ensures PrintedText(d, csr) == Heading(d) + Blanks(TAB - |Heading(d)|) + OperandText(d, csr)
    ensures 1 <= |Heading(d)| <= 16
  {
    hide NameOf, FormatOf, Rendered, Blanks;
    HeadingIsShort(d);
    FormatsAreSound(d.op);
    var f := FormatOf(d.op);
    if HasFlags(f) {
      PrintedNamesAreMnemonics(d.op);
      TextOfFlagFormat(f, d, csr);
    } else {
      TextOfPlainFormat(f, d, csr);
    }
  }

  /** No text is longer than 84 characters, and none holds the string terminator. */
  lemma TextIsShort(d: Decoded, csr: CsrNames)
    requires !d.op.Compressed? && InTables(d.args) && GoodCsrNames(csr)
    ensures TAB <= |PrintedText(d, csr)| <= MAX_TEXT
    ensures '\0' !in PrintedText(d, csr)
  {
    hide NameOf, FormatOf, Rendered, Blanks, PrintedText, Separated, LastColumn, InTables, GoodCsrNames;
    HeadingIsShort(d);
    TextShape(d, csr);
    FormatsAreSound(d.op);
    RenderedInside(FormatOf(d.op), OperandStart(FormatOf(d.op)), d, csr, TAB, TAB + 1);
  }

  /** With a tab of 32 and any buffer of more than 84 characters the appends build the unbounded text. */
  lemma NothingIsTruncated(d: Decoded, csr: CsrNames, n: nat)
    requires !d.op.Compressed? && InTables(d.args) && GoodCsrNames(csr) && n > MAX_TEXT
    ensures Formatted(FormatOf(d.op), 0, TAB, d, csr, "", n) == PrintedText(d, csr)
  {
    hide FormatOf, Rendered, Formatted, GoodCsrNames, InTables;
    TextIsShort(d, csr);
    FormattedFits(FormatOf(d.op), 0, TAB, d, csr, "", n);
  }
}
