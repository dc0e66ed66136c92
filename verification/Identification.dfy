/**
 The printed text identifies the instruction: which records print the same text.
*/
module Identification {
  import opened Opcodes
  import opened Encodings
  import opened Operands
  import opened Decoding
  import opened Formats
  import opened Immediates
  import opened Layout
  import opened Locality
  import opened Mnemonics
  import opened Numerals
  import opened PseudoInstructions
  import opened Registers
  import opened Text

  // ----- splitting texts

  lemma LongerPart(t1: string, u1: string, t2: string, u2: string)
    requires t1 + u1 == t2 + u2 && |t1| < |t2|
    ensures u1 != "" && u1[0] in t2
  {
    assert (t1 + u1)[|t1|] == u1[0];
    assert (t2 + u2)[|t1|] == t2[|t1|];
  }

  /** Two equal concatenations split alike when neither first part holds the character that starts the other rest. */
  lemma SplitAlike(t1: string, u1: string, t2: string, u2: string)
    requires t1 + u1 == t2 + u2
    requires u1 == "" || u1[0] !in t2
    requires u2 == "" || u2[0] !in t1
    ensures t1 == t2 && u1 == u2
  {
    if |t1| < |t2| {
      LongerPart(t1, u1, t2, u2);
    } else if |t2| < |t1| {
      LongerPart(t2, u2, t1, u1);
    } else {
      assert (t1 + u1)[..|t1|] == t1 && (t2 + u2)[..|t2|] == t2;
      assert (t1 + u1)[|t1|..] == u1 && (t2 + u2)[|t2|..] == u2;
    }
  }

  predicate IsFlags(s: string) { s == "" || s == ".aq" || s == ".rl" || s == ".aq" + ".rl" }

  lemma EndsLikeFlag(n: string, s: string, flag: string)
    requires n == s + flag && |flag| == 3 && flag[0] == '.' && (flag[1] == 'a' || flag[1] == 'r')
    ensures !IsMnemonic(n)
  {
    assert n[|n| - 3] == flag[0] && n[|n| - 2] == flag[1];
  }

  lemma LongerFlags(n1: string, f1: string, n2: string, f2: string)
    requires n1 + f1 == n2 + f2 && IsFlags(f1) && IsFlags(f2) && |f1| < |f2|
    ensures !IsMnemonic(n1)
  {
    var s := n1 + f1;
    assert s == n2 + f2;
    if f1 == "" {
      assert n1 == s;
      if |f2| == 3 {
        EndsLikeFlag(n1, n2, f2);
      } else {
        assert n2 + (".aq" + ".rl") == (n2 + ".aq") + ".rl";
        EndsLikeFlag(n1, n2 + ".aq", ".rl");
      }
    } else {
      assert |f1| == 3 && f2 == ".aq" + ".rl";
      assert s[..|s| - 3] == n1;
      assert n2 + (".aq" + ".rl") == (n2 + ".aq") + ".rl";
      assert s[..|s| - 3] == n2 + ".aq";
      EndsLikeFlag(n1, n2, ".aq");
    }
  }

  /** A mnemonic and its flags can be told apart. */
  lemma FlagsSplit(n1: string, f1: string, n2: string, f2: string)
    requires IsMnemonic(n1) && IsMnemonic(n2) && IsFlags(f1) && IsFlags(f2) && n1 + f1 == n2 + f2
    ensures n1 == n2 && f1 == f2
  {
    if |f1| < |f2| {
      LongerFlags(n1, f1, n2, f2);
    } else if |f2| < |f1| {
      LongerFlags(n2, f2, n1, f1);
    } else {
      var s := n1 + f1;
      assert s == n2 + f2;
      assert s[..|n1|] == n1 && s[..|n2|] == n2 && s[|n1|..] == f1 && s[|n2|..] == f2;
    }
  }

  // ----- the heading

  function Flags(d: Decoded): string { if HasFlags(FormatOf(d.op)) then FlagText(d) else "" }

  lemma FlagsDetermine(d1: Decoded, d2: Decoded)
    requires FlagText(d1) == FlagText(d2) && InTables(d1.args) && InTables(d2.args)
    ensures d1.args.aq == d2.args.aq && d1.args.rl == d2.args.rl
  {
    var s1, s2 := FlagText(d1), FlagText(d2);
    assert d1.args.aq != 0 <==> |s1| > 0 && s1[1] == 'a';
    assert d2.args.aq != 0 <==> |s2| > 0 && s2[1] == 'a';
    assert d1.args.rl != 0 <==> |s1| > 0 && s1[|s1| - 1] == 'l';
    assert d2.args.rl != 0 <==> |s2| > 0 && s2[|s2| - 1] == 'l';
  }

  predicate Printable(d: Decoded) { (d.op.Wide? || d.op.Pseudo?) && InTables(d.args) }

  lemma HeadingDetermines(d1: Decoded, d2: Decoded)
    requires Printable(d1) && Printable(d2) && Heading(d1) == Heading(d2)
    ensures d1.op == d2.op && Flags(d1) == Flags(d2)
  {
    hide NameOf, FormatOf, IsMnemonic, FlagText, HasFlags;
    PrintedNamesAreMnemonics(d1.op);
    PrintedNamesAreMnemonics(d2.op);
    FlagTextIsFlags(d1);
    FlagTextIsFlags(d2);
    HeadingIsNameAndFlags(d1);
    HeadingIsNameAndFlags(d2);
    FlagsSplit(NameOf(d1.op), Flags(d1), NameOf(d2.op), Flags(d2));
    NamesAreDistinct(d1.op, d2.op);
  }

  lemma FlagTextIsFlags(d: Decoded)
    ensures IsFlags(FlagText(d)) && IsFlags("")
  {}

  lemma HeadingIsNameAndFlags(d: Decoded)
    ensures Heading(d) == NameOf(d.op) + Flags(d)
  {
    hide NameOf, FormatOf, FlagText;
  }

  lemma TextDetermines(d1: Decoded, d2: Decoded, csr: CsrNames)
    requires Printable(d1) && Printable(d2) && PrintedText(d1, csr) == PrintedText(d2, csr)
    ensures d1.op == d2.op && Flags(d1) == Flags(d2) && OperandText(d1, csr) == OperandText(d2, csr)
  {
    hide PrintedText, Heading, OperandText, FormatOf, InTables, Flags;
    TextShape(d1, csr);
    TextShape(d2, csr);
    HeadingIsShort(d1);
    HeadingIsShort(d2);
    var h1, h2 := Heading(d1), Heading(d2);
    var b1, b2 := Blanks(TAB - |h1|), Blanks(TAB - |h2|);
    var o1, o2 := OperandText(d1, csr), OperandText(d2, csr);
    assert b1[0] in b1 && b2[0] in b2;
    assert h1 + b1 + o1 == h1 + (b1 + o1);
    assert h2 + b2 + o2 == h2 + (b2 + o2);
    SplitAlike(h1, b1 + o1, h2, b2 + o2);
    assert o1 == (b1 + o1)[|b1|..] && o2 == (b2 + o2)[|b2|..];
    HeadingDetermines(d1, d2);
  }

  // ----- the operands

  lemma DirectiveSplits(f: string, i: nat, d: Decoded, csr: CsrNames, col: nat) returns (rest: string)
    requires Separated(f, i) && i < |f| && IsOperand(f[i]) && InTables(d.args) && GoodCsrNames(csr)
    ensures Rendered(f, i, TAB, d, csr, col) == Token(f[i], d, csr) + rest
    ensures rest == "" || IsDelimiter(rest[0])
    ensures f[i] != 'o' ==> rest == Rendered(f, i + 1, TAB, d, csr, col + |Token(f[i], d, csr)|)
  {
    hide Directive, GoodCsrNames, InTables, Token, IsOperand, TargetText;
    var t := Token(f[i], d, csr);
    DirectiveIsToken(f[i], d, csr, col);
    OperandIsNoPunctuation(f[i]);
    if f[i] == 'o' {
      rest := Reference(d, 2 * TAB - col - |t|);
      TargetIsShort(d.pc, d.args.imm);
      assert Directive(f[i], TAB, d, csr, col) + "" == Directive(f[i], TAB, d, csr, col);
    } else {
      rest := Rendered(f, i + 1, TAB, d, csr, col + |t|);
      if i + 1 < |f| {
        PunctuationPrints(f[i + 1], d, csr, col + |t|);
      }
    }
  }

  lemma PunctuationPrints(c: char, d: Decoded, csr: CsrNames, col: nat)
    requires IsPunctuation(c)
    ensures Directive(c, TAB, d, csr, col) == [c] && IsDelimiter(c)
  {}

  /** The operands of the two texts have the same tokens. */
  predicate SameTokens(f: string, i: nat, d1: Decoded, d2: Decoded, csr: CsrNames)
    decreases |f| - i
  {
    || i >= |f|
    || ((IsOperand(f[i]) ==> Token(f[i], d1, csr) == Token(f[i], d2, csr)) && SameTokens(f, i + 1, d1, d2, csr))
  }

  lemma {:induction false} SameRendering(
    f: string, i: nat, d1: Decoded, d2: Decoded, csr: CsrNames, col1: nat, col2: nat)
    requires Separated(f, i) && InTables(d1.args) && InTables(d2.args) && GoodCsrNames(csr)
    requires Rendered(f, i, TAB, d1, csr, col1) == Rendered(f, i, TAB, d2, csr, col2)
    ensures SameTokens(f, i, d1, d2, csr)
    decreases |f| - i
  {
    hide Directive, GoodCsrNames, InTables, Token, IsOperand, IsPunctuation, IsDelimiter;
    if i < |f| {
      OperandIsNoPunctuation(f[i]);
      if IsPunctuation(f[i]) && Separated(f, i + 1) {
        PunctuationPrints(f[i], d1, csr, col1);
        PunctuationPrints(f[i], d2, csr, col2);
        var r1, r2 := Rendered(f, i + 1, TAB, d1, csr, col1 + 1), Rendered(f, i + 1, TAB, d2, csr, col2 + 1);
        assert ([f[i]] + r1)[1..] == r1 && ([f[i]] + r2)[1..] == r2;
        SameRendering(f, i + 1, d1, d2, csr, col1 + 1, col2 + 1);
      } else {
        var r1 := DirectiveSplits(f, i, d1, csr, col1);
        var r2 := DirectiveSplits(f, i, d2, csr, col2);
        var t1, t2 := Token(f[i], d1, csr), Token(f[i], d2, csr);
        TokenHasNoDelimiter(f[i], d1, csr);
        TokenHasNoDelimiter(f[i], d2, csr);
        SplitAlike(t1, r1, t2, r2);
        if f[i] != 'o' {
          SameRendering(f, i + 1, d1, d2, csr, col1 + |t1|, col2 + |t2|);
        }
      }
    }
  }

  lemma OperandIsNoPunctuation(c: char)
    ensures !(IsOperand(c) && IsPunctuation(c))
  {}

  lemma TokenHasNoDelimiter(c: char, d: Decoded, csr: CsrNames)
    requires IsOperand(c) && InTables(d.args) && GoodCsrNames(csr)
    ensures forall x :: x in Token(c, d, csr) ==> !IsDelimiter(x)
  {
    hide Token, IsOperand, InTables, GoodCsrNames, IsDelimiter;
    TokenIsText(c, d, csr);
  }

  // ----- tokens determine fields

  predicate SameCsr(x: bv32, y: bv32) { x & 0xFFF == y & 0xFFF }

  predicate ReservedRounding(rm: bv8) { rm == 5 || rm == 6 }

  /** Rounding modes that print the same name: the two reserved ones do. */
  predicate SameRounding(x: bv8, y: bv8) { x == y || (ReservedRounding(x) && ReservedRounding(y)) }

  /** The operand sets agree on what directive c shows. */
  predicate SameField(c: char, o1: Operands, o2: Operands) {
    match c
    case '0' => o1.rd == o2.rd
    case '3' => o1.rd == o2.rd
    case '1' => o1.rs1 == o2.rs1
    case '4' => o1.rs1 == o2.rs1
    case '7' => o1.rs1 == o2.rs1
    case '2' => o1.rs2 == o2.rs2
    case '5' => o1.rs2 == o2.rs2
    case '6' => o1.rs3 == o2.rs3
    case 'i' => o1.imm == o2.imm
    case 'o' => o1.imm == o2.imm
    case 'c' => SameCsr(o1.imm, o2.imm)
    case 'r' => SameRounding(o1.rm, o2.rm)
    case 'p' => o1.pred == o2.pred
    case 's' => o1.succ == o2.succ
    case _ => true
  }

  lemma RegisterDetermines(x: bv8, y: bv8)
    requires x < 32 && y < 32
    ensures IregName(x) == IregName(y) <==> x == y
    ensures FregName(x) == FregName(y) <==> x == y
    ensures Decimal(x as int) == Decimal(y as int) <==> x == y
  {
    hide IregName, FregName, IregNumber, FregNumber, Decimal;
    RegistersFound(x);
    RegistersFound(y);
    assert x as int as bv8 == x && y as int as bv8 == y;
    if Decimal(x as int) == Decimal(y as int) {
      DecimalInjective(x as int, y as int);
    }
  }

  lemma ImmediateDetermines(x: bv32, y: bv32)
    ensures Decimal(Value(x)) == Decimal(Value(y)) <==> x == y
  {
    hide Decimal, Value;
    if Decimal(Value(x)) == Decimal(Value(y)) {
      DecimalInjective(Value(x), Value(y));
      ValueInjective(x, y);
    }
  }

  lemma CsrNumberDetermines(x: bv32, y: bv32)
    requires CsrNumber(x) == CsrNumber(y)
    ensures x & 0xFFF == y & 0xFFF
  {
    assert CsrNumber(x) as bv12 as bv32 == x & 0xFFF && CsrNumber(y) as bv12 as bv32 == y & 0xFFF;
  }

  lemma SameCsrPrintsSame(csr: CsrNames, x: bv32, y: bv32)
    requires x & 0xFFF == y & 0xFFF
    ensures CsrText(csr, x) == CsrText(csr, y)
  {
    assert CsrNumber(x) == CsrNumber(y);
    hide Hex3, CsrNumber;
  }

  lemma FallbackDetermines(x: bv32, y: bv32)
    requires "0x" + Hex3(CsrNumber(x)) == "0x" + Hex3(CsrNumber(y))
    ensures x & 0xFFF == y & 0xFFF
  {
    hide Hex3, CsrNumber;
    var s, t := Hex3(CsrNumber(x)), Hex3(CsrNumber(y));
    assert ("0x" + s)[2..] == s && ("0x" + t)[2..] == t;
    Hex3Injective(CsrNumber(x), CsrNumber(y));
    CsrNumberDetermines(x, y);
  }

  lemma NameIsNoFallback(name: string, s: string)
    requires GoodCsrName(name)
    ensures name != "0x" + s
  {
    assert ("0x" + s)[0] == '0';
  }

  lemma CsrDetermines(csr: CsrNames, x: bv32, y: bv32)
    requires GoodCsrNames(csr)
    ensures CsrText(csr, x) == CsrText(csr, y) <==> SameCsr(x, y)
  {
    hide Hex3, CsrNumber, GoodCsrName;
    if x & 0xFFF == y & 0xFFF {
      SameCsrPrintsSame(csr, x, y);
    } else if CsrText(csr, x) == CsrText(csr, y) {
      if csr(x & 0xFFF).None? && csr(y & 0xFFF).None? {
        FallbackDetermines(x, y);
      } else if csr(x & 0xFFF).None? {
        NameIsNoFallback(csr(y & 0xFFF).value, Hex3(CsrNumber(x)));
      } else if csr(y & 0xFFF).None? {
        NameIsNoFallback(csr(x & 0xFFF).value, Hex3(CsrNumber(y)));
      }
    }
  }

  lemma LettersDetermine(x: bv8, y: bv8)
    requires x < 16 && y < 16 && FenceText(x) == FenceText(y)
    ensures x == y
  {
    hide FenceText;
    FenceLetters(x);
    FenceLetters(y);
    BitsDetermine(x, y);
  }

  lemma FenceLetters(x: bv8)
    ensures 'i' in FenceText(x) <==> x & 8 != 0
    ensures 'o' in FenceText(x) <==> x & 4 != 0
    ensures 'r' in FenceText(x) <==> x & 2 != 0
    ensures 'w' in FenceText(x) <==> x & 1 != 0
  {}

  lemma BitsDetermine(x: bv8, y: bv8)
    requires x < 16 && y < 16
    requires (x & 8 != 0 <==> y & 8 != 0) && (x & 4 != 0 <==> y & 4 != 0)
    requires (x & 2 != 0 <==> y & 2 != 0) && (x & 1 != 0 <==> y & 1 != 0)
    ensures x == y
  {}

  lemma RoundingDetermines(x: bv8, y: bv8)
    requires x < 8 && y < 8
    ensures RoundingText(x) == RoundingText(y) <==> SameRounding(x, y)
  {
    assert RoundingText(x)[0] == 'r' || RoundingText(x)[0] == 'd' || RoundingText(x)[0] == 'i';
  }

  lemma IregTokens(c: char, d1: Decoded, d2: Decoded, csr: CsrNames)
    requires '0' <= c <= '2' && InTables(d1.args) && InTables(d2.args)
    ensures Token(c, d1, csr) == Token(c, d2, csr) <==> SameField(c, d1.args, d2.args)
  {
    hide IregName, FregName, Decimal, Value, CsrText, FenceText, RoundingText, SameCsr, SameRounding, GoodCsrNames;
    RegisterDetermines(d1.args.rd, d2.args.rd);
    RegisterDetermines(d1.args.rs1, d2.args.rs1);
    RegisterDetermines(d1.args.rs2, d2.args.rs2);
  }

  lemma FregTokens(c: char, d1: Decoded, d2: Decoded, csr: CsrNames)
    requires '3' <= c <= '6' && InTables(d1.args) && InTables(d2.args)
    ensures Token(c, d1, csr) == Token(c, d2, csr) <==> SameField(c, d1.args, d2.args)
  {
    hide IregName, FregName, Decimal, Value, CsrText, FenceText, RoundingText, SameCsr, SameRounding, GoodCsrNames;
    match c {
      case '3' => RegisterDetermines(d1.args.rd, d2.args.rd);
      case '4' => RegisterDetermines(d1.args.rs1, d2.args.rs1);
      case '5' => RegisterDetermines(d1.args.rs2, d2.args.rs2);
      case _ => RegisterDetermines(d1.args.rs3, d2.args.rs3);
    }
  }

  lemma NumberTokens(c: char, d1: Decoded, d2: Decoded, csr: CsrNames)
    requires c == '7' || c == 'i' || c == 'o'
    requires InTables(d1.args) && InTables(d2.args)
    ensures Token(c, d1, csr) == Token(c, d2, csr) <==> SameField(c, d1.args, d2.args)
  {
    hide IregName, FregName, Decimal, Value, CsrText, FenceText, RoundingText, SameCsr, SameRounding, GoodCsrNames;
    RegisterDetermines(d1.args.rs1, d2.args.rs1);
    ImmediateDetermines(d1.args.imm, d2.args.imm);
  }

  lemma NamedTokens(c: char, d1: Decoded, d2: Decoded, csr: CsrNames)
    requires c == 'c' || c == 'r'
    requires InTables(d1.args) && InTables(d2.args) && GoodCsrNames(csr)
    ensures Token(c, d1, csr) == Token(c, d2, csr) <==> SameField(c, d1.args, d2.args)
  {
    hide IregName, FregName, Decimal, Value, CsrText, FenceText, RoundingText, SameCsr, SameRounding, GoodCsrNames;
    CsrDetermines(csr, d1.args.imm, d2.args.imm);
    RoundingDetermines(d1.args.rm, d2.args.rm);
  }

  lemma FenceTokens(c: char, d1: Decoded, d2: Decoded, csr: CsrNames)
    requires c == 'p' || c == 's'
    requires InTables(d1.args) && InTables(d2.args)
    ensures Token(c, d1, csr) == Token(c, d2, csr) <==> SameField(c, d1.args, d2.args)
  {
    hide IregName, FregName, Decimal, Value, CsrText, FenceText, RoundingText, SameCsr, SameRounding, GoodCsrNames;
    if FenceText(d1.args.pred) == FenceText(d2.args.pred) {
      LettersDetermine(d1.args.pred, d2.args.pred);
    }
    if FenceText(d1.args.succ) == FenceText(d2.args.succ) {
      LettersDetermine(d1.args.succ, d2.args.succ);
    }
  }

  /** Two tokens are equal exactly when the fields they show are, the reserved rounding modes apart. */
  lemma TokenDetermines(c: char, d1: Decoded, d2: Decoded, csr: CsrNames)
    requires IsOperand(c) && InTables(d1.args) && InTables(d2.args) && GoodCsrNames(csr)
    ensures Token(c, d1, csr) == Token(c, d2, csr) <==> SameField(c, d1.args, d2.args)
  {
    hide Token, SameField, InTables, GoodCsrNames;
    if '0' <= c <= '2' {
      IregTokens(c, d1, d2, csr);
    } else if '3' <= c <= '6' {
      FregTokens(c, d1, d2, csr);
    } else if c == 'c' || c == 'r' {
      NamedTokens(c, d1, d2, csr);
    } else if c == 'p' || c == 's' {
      FenceTokens(c, d1, d2, csr);
    } else {
      NumberTokens(c, d1, d2, csr);
    }
  }

  /** The operand sets agree on everything a format shows from its i-th directive on. */
  predicate SameShown(f: string, i: nat, o1: Operands, o2: Operands)
    decreases |f| - i
  {
    i >= |f| || ((IsOperand(f[i]) ==> SameField(f[i], o1, o2)) && SameShown(f, i + 1, o1, o2))
  }

  lemma {:induction false} TokensAreFields(f: string, i: nat, d1: Decoded, d2: Decoded, csr: CsrNames)
    requires InTables(d1.args) && InTables(d2.args) && GoodCsrNames(csr)
    ensures SameTokens(f, i, d1, d2, csr) <==> SameShown(f, i, d1.args, d2.args)
    decreases |f| - i
  {
    hide Token, SameField, IsOperand, InTables, GoodCsrNames;
    if i < |f| {
      if IsOperand(f[i]) {
        TokenDetermines(f[i], d1, d2, csr);
      }
      TokensAreFields(f, i + 1, d1, d2, csr);
    }
  }

  lemma OffsetsDetermine(d1: Decoded, d2: Decoded, csr: CsrNames)
    requires Token('o', d1, csr) == Token('o', d2, csr)
    ensures d1.args.imm == d2.args.imm
  {
    hide Directive, Decimal, Value;
    ImmediateDetermines(d1.args.imm, d2.args.imm);
  }

  /** Records that show the same tokens at the same address render alike. */
  lemma {:induction false} SameTokensRender(f: string, i: nat, d1: Decoded, d2: Decoded, csr: CsrNames, col: nat)
    requires Separated(f, i) && d1.pc == d2.pc && SameTokens(f, i, d1, d2, csr)
    ensures Rendered(f, i, TAB, d1, csr, col) == Rendered(f, i, TAB, d2, csr, col)
    decreases |f| - i
  {
    hide Directive, Token, IsOperand, IsPunctuation, TargetText;
    if i < |f| {
      if IsPunctuation(f[i]) && Separated(f, i + 1) {
        PunctuationPrints(f[i], d1, csr, col);
        PunctuationPrints(f[i], d2, csr, col);
      } else {
        DirectiveIsToken(f[i], d1, csr, col);
        DirectiveIsToken(f[i], d2, csr, col);
        if f[i] == 'o' {
          OffsetsDetermine(d1, d2, csr);
        }
      }
      SameTokensRender(f, i + 1, d1, d2, csr, col + |Directive(f[i], TAB, d1, csr, col)|);
    }
  }

  /** The operand sets agree on everything a format shows. */
  predicate SameOn(f: string, o1: Operands, o2: Operands) {
    if HasFlags(f) then SameShown(f, 4, o1, o2) && o1.aq == o2.aq && o1.rl == o2.rl else SameShown(f, 2, o1, o2)
  }

  /** The operand sets agree on everything the text of an opcode shows. */
  predicate SameVisible(op: Op, o1: Operands, o2: Operands) {
    SameOn(FormatOf(op), o1, o2)
  }

  /** Records at one address print the same text exactly when they have the same opcode and show the same fields. */
  lemma SameText(d1: Decoded, d2: Decoded, csr: CsrNames)
    requires Printable(d1) && Printable(d2) && GoodCsrNames(csr) && d1.pc == d2.pc
    ensures PrintedText(d1, csr) == PrintedText(d2, csr) <==> d1.op == d2.op && SameVisible(d1.op, d1.args, d2.args)
  {
    hide NameOf, FormatOf, HasFlags, Rendered, SameTokens, SameShown, InTables, GoodCsrNames, PrintedText, FlagText;
    hide Separated, LastColumn;
    var f := FormatOf(d1.op);
    FormatsAreSound(d1.op);
    TokensAreFields(f, OperandStart(f), d1, d2, csr);
    if PrintedText(d1, csr) == PrintedText(d2, csr) {
      TextDetermines(d1, d2, csr);
      SameRendering(f, OperandStart(f), d1, d2, csr, TAB, TAB);
      if HasFlags(f) {
        FlagsDetermine(d1, d2);
      }
    }
    if d1.op == d2.op && SameVisible(d1.op, d1.args, d2.args) {
      SameTokensRender(f, OperandStart(f), d1, d2, csr, TAB);
      SameFlagText(d1, d2);
      TextShape(d1, csr);
      TextShape(d2, csr);
    }
  }

  lemma SameFlagText(d1: Decoded, d2: Decoded)
    ensures d1.args.aq == d2.args.aq && d1.args.rl == d2.args.rl ==> FlagText(d1) == FlagText(d2)
  {}

  // ----- what each format shows

  lemma ShownFieldsA(o1: Operands, o2: Operands)
    ensures SameOn(FMT_NONE, o1, o2) <==> true
    ensures SameOn(FMT_RS1, o1, o2) <==> o1.rs1 == o2.rs1
    ensures SameOn(FMT_OFFSET, o1, o2) <==> o1.imm == o2.imm
    ensures SameOn(FMT_PRED_SUCC, o1, o2) <==> o1.pred == o2.pred && o1.succ == o2.succ
    ensures SameOn(FMT_RS1_RS2, o1, o2) <==> o1.rs1 == o2.rs1 && o1.rs2 == o2.rs2
    ensures SameOn(FMT_RD_IMM, o1, o2) <==> o1.rd == o2.rd && o1.imm == o2.imm
  {
    hide SameCsr, SameRounding;
  }

  lemma ShownFieldsB(o1: Operands, o2: Operands)
    ensures SameOn(FMT_RD_OFFSET, o1, o2) <==> o1.rd == o2.rd && o1.imm == o2.imm
    ensures SameOn(FMT_RD_RS1_RS2, o1, o2) <==> o1.rd == o2.rd && o1.rs1 == o2.rs1 && o1.rs2 == o2.rs2
    ensures SameOn(FMT_FRD_RS1, o1, o2) <==> o1.rd == o2.rd && o1.rs1 == o2.rs1
  {
    hide SameCsr, SameRounding;
  }

  lemma ShownFieldsC(o1: Operands, o2: Operands)
    ensures SameOn(FMT_RD_FRS1, o1, o2) <==> o1.rd == o2.rd && o1.rs1 == o2.rs1
    ensures SameOn(FMT_RD_FRS1_FRS2, o1, o2) <==> o1.rd == o2.rd && o1.rs1 == o2.rs1 && o1.rs2 == o2.rs2
  {
    hide SameCsr, SameRounding;
  }

  lemma ShownFieldsD(o1: Operands, o2: Operands)
    ensures SameOn(FMT_FRD_FRS1_FRS2, o1, o2) <==> o1.rd == o2.rd && o1.rs1 == o2.rs1 && o1.rs2 == o2.rs2
    ensures SameOn(FMT_RM_FRD_FRS1, o1, o2) <==> SameRounding(o1.rm, o2.rm) && o1.rd == o2.rd && o1.rs1 == o2.rs1
  {
    hide SameCsr, SameRounding;
  }

  lemma ShownFieldsE(o1: Operands, o2: Operands)
    ensures SameOn(FMT_RM_FRD_RS1, o1, o2) <==> SameRounding(o1.rm, o2.rm) && o1.rd == o2.rd && o1.rs1 == o2.rs1
    ensures SameOn(FMT_RM_RD_FRS1, o1, o2) <==> SameRounding(o1.rm, o2.rm) && o1.rd == o2.rd && o1.rs1 == o2.rs1
  {
    hide SameCsr, SameRounding;
  }

  lemma ShownFieldsF(o1: Operands, o2: Operands)
    ensures SameOn(FMT_RM_FRD_FRS1_FRS2, o1, o2) <==>
      SameRounding(o1.rm, o2.rm) && o1.rd == o2.rd && o1.rs1 == o2.rs1 && o1.rs2 == o2.rs2
  {
    hide SameCsr, SameRounding;
  }

  lemma ShownFieldsG(o1: Operands, o2: Operands)
    ensures SameOn(FMT_RM_FRD_FRS1_FRS2_FRS3, o1, o2) <==>
      SameRounding(o1.rm, o2.rm) && o1.rd == o2.rd && o1.rs1 == o2.rs1 && o1.rs2 == o2.rs2 && o1.rs3 == o2.rs3
  {
    hide SameCsr, SameRounding;
  }

  lemma ShownFieldsH(o1: Operands, o2: Operands)
    ensures SameOn(FMT_RD_RS1_IMM, o1, o2) <==> o1.rd == o2.rd && o1.rs1 == o2.rs1 && o1.imm == o2.imm
    ensures SameOn(FMT_RD_OFFSET_RS1, o1, o2) <==> o1.rd == o2.rd && o1.imm == o2.imm && o1.rs1 == o2.rs1
  {
    hide SameCsr, SameRounding;
  }

  lemma ShownFieldsI(o1: Operands, o2: Operands)
    ensures SameOn(FMT_FRD_OFFSET_RS1, o1, o2) <==> o1.rd == o2.rd && o1.imm == o2.imm && o1.rs1 == o2.rs1
    ensures SameOn(FMT_RD_CSR_RS1, o1, o2) <==> o1.rd == o2.rd && SameCsr(o1.imm, o2.imm) && o1.rs1 == o2.rs1
  {
    hide SameCsr, SameRounding;
  }

  lemma ShownFieldsJ(o1: Operands, o2: Operands)
    ensures SameOn(FMT_RD_CSR_ZIMM, o1, o2) <==> o1.rd == o2.rd && SameCsr(o1.imm, o2.imm) && o1.rs1 == o2.rs1
    ensures SameOn(FMT_RS2_OFFSET_RS1, o1, o2) <==> o1.rs2 == o2.rs2 && o1.imm == o2.imm && o1.rs1 == o2.rs1
  {
    hide SameCsr, SameRounding;
  }

  lemma ShownFieldsK(o1: Operands, o2: Operands)
    ensures SameOn(FMT_FRS2_OFFSET_RS1, o1, o2) <==> o1.rs2 == o2.rs2 && o1.imm == o2.imm && o1.rs1 == o2.rs1
    ensures SameOn(FMT_RS1_RS2_OFFSET, o1, o2) <==> o1.rs1 == o2.rs1 && o1.rs2 == o2.rs2 && o1.imm == o2.imm
  {
    hide SameCsr, SameRounding;
  }

  lemma ShownFieldsL(o1: Operands, o2: Operands)
    ensures SameOn(FMT_RS2_RS1_OFFSET, o1, o2) <==> o1.rs2 == o2.rs2 && o1.rs1 == o2.rs1 && o1.imm == o2.imm
    ensures SameOn(FMT_AQRL_RD_RS2_RS1, o1, o2) <==>
      o1.rd == o2.rd && o1.rs2 == o2.rs2 && o1.rs1 == o2.rs1 && o1.aq == o2.aq && o1.rl == o2.rl
  {
    hide SameCsr, SameRounding;
  }

  lemma ShownFieldsM(o1: Operands, o2: Operands)
    ensures SameOn(FMT_AQRL_RD_RS1, o1, o2) <==> o1.rd == o2.rd && o1.rs1 == o2.rs1 && o1.aq == o2.aq && o1.rl == o2.rl
    ensures SameOn(FMT_RD, o1, o2) <==> o1.rd == o2.rd
    ensures SameOn(FMT_RD_ZIMM, o1, o2) <==> o1.rd == o2.rd && o1.rs1 == o2.rs1
    ensures SameOn(FMT_RD_RS1, o1, o2) <==> o1.rd == o2.rd && o1.rs1 == o2.rs1
    ensures SameOn(FMT_RD_RS2, o1, o2) <==> o1.rd == o2.rd && o1.rs2 == o2.rs2
  {
    hide SameCsr, SameRounding;
  }

  lemma ShownFieldsN(o1: Operands, o2: Operands)
    ensures SameOn(FMT_RS1_OFFSET, o1, o2) <==> o1.rs1 == o2.rs1 && o1.imm == o2.imm
    ensures SameOn(FMT_RS2_OFFSET, o1, o2) <==> o1.rs2 == o2.rs2 && o1.imm == o2.imm
  {
    hide SameCsr, SameRounding;
  }

  // ----- what a text shows determines the operands

  /** Equal operand sets, or operand sets that differ between the two reserved rounding modes only. */
  predicate SameUpToRounding(o1: Operands, o2: Operands) {
    o1 == o2 || (o1.(rm := o2.rm) == o2 && ReservedRounding(o1.rm) && ReservedRounding(o2.rm))
  }

  /** The operand sets agree on the fields that a 32-bit codec reads, up to the reserved rounding modes. */
  predicate SameUsed(codec: Codec, o1: Operands, o2: Operands) {
    match codec
    case CodecNone => true
    case CodecU | CodecUJ => o1.rd == o2.rd && o1.imm == o2.imm
    case CodecI | CodecISh5 | CodecISh6 | CodecISh7 | CodecICsr =>
      o1.rd == o2.rd && o1.rs1 == o2.rs1 && o1.imm == o2.imm
    case CodecS | CodecSB => o1.rs1 == o2.rs1 && o1.rs2 == o2.rs2 && o1.imm == o2.imm
    case CodecR => o1.rd == o2.rd && o1.rs1 == o2.rs1 && o1.rs2 == o2.rs2
    case CodecRM => o1.rd == o2.rd && o1.rs1 == o2.rs1 && o1.rs2 == o2.rs2 && SameRounding(o1.rm, o2.rm)
    case CodecR4M =>
      o1.rd == o2.rd && o1.rs1 == o2.rs1 && o1.rs2 == o2.rs2 && o1.rs3 == o2.rs3 && SameRounding(o1.rm, o2.rm)
    case CodecRA => o1.rd == o2.rd && o1.rs1 == o2.rs1 && o1.rs2 == o2.rs2 && o1.aq == o2.aq && o1.rl == o2.rl
    case CodecRL => o1.rd == o2.rd && o1.rs1 == o2.rs1 && o1.aq == o2.aq && o1.rl == o2.rl
    case CodecRF => o1.pred == o2.pred && o1.succ == o2.succ
    case _ => false
  }

  lemma UsedImmediates(codec: Codec, o1: Operands, o2: Operands)
    requires || codec.CodecU? || codec.CodecUJ? || codec.CodecI? || codec.CodecICsr?
             || codec.CodecISh5? || codec.CodecISh6? || codec.CodecISh7?
    requires InCodec(codec, o1) && InCodec(codec, o2) && SameUsed(codec, o1, o2)
    ensures SameUpToRounding(o1, o2)
  {
    hide ReservedRounding, RangeI, RangeU, RangeJ, RangeS, RangeB, RangeShamt5, RangeShamt6, RangeShamt7, RangeCsr;
  }

  lemma UsedSources(codec: Codec, o1: Operands, o2: Operands)
    requires codec.CodecS? || codec.CodecSB? || codec.CodecR? || codec.CodecRF? || codec.CodecNone?
    requires InCodec(codec, o1) && InCodec(codec, o2) && SameUsed(codec, o1, o2)
    ensures SameUpToRounding(o1, o2)
  {
    hide ReservedRounding, RangeI, RangeU, RangeJ, RangeS, RangeB, RangeShamt5, RangeShamt6, RangeShamt7, RangeCsr;
  }

  lemma UsedFlags(codec: Codec, o1: Operands, o2: Operands)
    requires codec.CodecRM? || codec.CodecR4M? || codec.CodecRA? || codec.CodecRL?
    requires InCodec(codec, o1) && InCodec(codec, o2) && SameUsed(codec, o1, o2)
    ensures SameUpToRounding(o1, o2)
  {
    hide ReservedRounding, RangeI, RangeU, RangeJ, RangeS, RangeB, RangeShamt5, RangeShamt6, RangeShamt7, RangeCsr;
  }

  lemma UsedDetermines(codec: Codec, o1: Operands, o2: Operands)
    requires InCodec(codec, o1) && InCodec(codec, o2) && SameUsed(codec, o1, o2)
    ensures SameUpToRounding(o1, o2)
  {
    assert IsWideCodec(codec);
    hide InCodec, SameUsed, SameUpToRounding;
    match codec {
      case CodecU | CodecUJ | CodecI | CodecISh5 | CodecISh6 | CodecISh7 | CodecICsr => UsedImmediates(codec, o1, o2);
      case CodecS | CodecSB | CodecR | CodecRF | CodecNone => UsedSources(codec, o1, o2);
      case CodecRM | CodecR4M | CodecRA | CodecRL => UsedFlags(codec, o1, o2);
    }
  }

  lemma SmallCsr(x: bv32, y: bv32)
    requires RangeCsr(x) && RangeCsr(y)
    ensures SameCsr(x, y) <==> x == y
  {}

  lemma CsrsInRange(o1: Operands, o2: Operands)
    requires InCodec(CodecICsr, o1) && InCodec(CodecICsr, o2)
    ensures SameCsr(o1.imm, o2.imm) <==> o1.imm == o2.imm
  {
    hide SameCsr, RangeCsr;
    SmallCsr(o1.imm, o2.imm);
  }

  predicate HasFixedRs2(fp: FpOp) {
    fp.FSqrt? || fp.FToInt? || fp.FFromInt? || fp.FMoveToInt? || fp.FClass? || fp.FMoveFromInt?
  }

  /** The fields that an opcode fixes agree. */
  lemma FixedFields(op: WideOp, o1: Operands, o2: Operands)
    requires Encodable(op, o1) && Encodable(op, o2)
    ensures op.SfenceVm? || op.SfenceVma? ==> o1.rd == o2.rd
    ensures op.SfenceVm? || op.FConvert? || (op.Fp? && HasFixedRs2(op.fp)) ==> o1.rs2 == o2.rs2
  {
    hide InCodec, WideCodec;
    hide BranchBits, StoreBits, ImmBits, AluFunct7, AluFunct3, LogicFunct7, LogicFunct3, AmoBits;
    hide WidthBits, FloatWidthBits, FmtBits, IntFormatBits, CsrBits, FmaMajor, ImmMajor, RegMajor;
  }

  lemma JumpFieldsShown(op: WideOp, o1: Operands, o2: Operands)
    requires op.Lui? || op.Auipc? || op.Jal? || op.Jalr? || op.Branch?
    requires Encodable(op, o1) && Encodable(op, o2) && SameOn(WideFormat(op), o1, o2)
    ensures SameUsed(WideCodec(op), o1, o2)
  {
    hide SameOn, SameRounding, InCodec, Agrees, FixedOf, SameUpToRounding, SameCsr;
    FixedFields(op, o1, o2);
    match op {
      case Lui =>
        ShownFieldsA(o1, o2);
      case Auipc | Jal =>
        ShownFieldsB(o1, o2);
      case Branch(_) =>
        ShownFieldsK(o1, o2);
      case Jalr =>
        ShownFieldsH(o1, o2);
    }
  }

  lemma ArithImmFieldsShown(op: WideOp, o1: Operands, o2: Operands)
    requires op.AddImm? || op.ShiftImm? || op.LogicImm?
    requires Encodable(op, o1) && Encodable(op, o2) && SameOn(WideFormat(op), o1, o2)
    ensures SameUsed(WideCodec(op), o1, o2)
  {
    hide SameOn, SameRounding, InCodec, Agrees, FixedOf, SameUpToRounding, SameCsr;
    FixedFields(op, o1, o2);
    ShownFieldsH(o1, o2);
  }

  lemma ArithFieldsShown(op: WideOp, o1: Operands, o2: Operands)
    requires op.Arith? || op.Logic?
    requires Encodable(op, o1) && Encodable(op, o2) && SameOn(WideFormat(op), o1, o2)
    ensures SameUsed(WideCodec(op), o1, o2)
  {
    hide SameOn, SameRounding, InCodec, Agrees, FixedOf, SameUpToRounding, SameCsr;
    FixedFields(op, o1, o2);
    ShownFieldsB(o1, o2);
  }

  lemma AccessFieldsShown(op: WideOp, o1: Operands, o2: Operands)
    requires op.Load? || op.Store?
    requires Encodable(op, o1) && Encodable(op, o2) && SameOn(WideFormat(op), o1, o2)
    ensures SameUsed(WideCodec(op), o1, o2)
  {
    hide SameOn, SameRounding, InCodec, Agrees, FixedOf, SameUpToRounding, SameCsr;
    FixedFields(op, o1, o2);
    match op {
      case Load(_) => ShownFieldsH(o1, o2);
      case Store(_) => ShownFieldsJ(o1, o2);
    }
  }

  lemma FloatAccessFieldsShown(op: WideOp, o1: Operands, o2: Operands)
    requires op.FLoad? || op.FStore?
    requires Encodable(op, o1) && Encodable(op, o2) && SameOn(WideFormat(op), o1, o2)
    ensures SameUsed(WideCodec(op), o1, o2)
  {
    hide SameOn, SameRounding, InCodec, Agrees, FixedOf, SameUpToRounding, SameCsr;
    FixedFields(op, o1, o2);
    match op {
      case FLoad(_) => ShownFieldsI(o1, o2);
      case FStore(_) => ShownFieldsK(o1, o2);
    }
  }

  lemma AtomicFieldsShown(op: WideOp, o1: Operands, o2: Operands)
    requires op.Amo? || op.Fence? || op.FenceI?
    requires Encodable(op, o1) && Encodable(op, o2) && SameOn(WideFormat(op), o1, o2)
    ensures SameUsed(WideCodec(op), o1, o2)
  {
    hide SameOn, SameRounding, InCodec, Agrees, FixedOf, SameUpToRounding, SameCsr;
    FixedFields(op, o1, o2);
    match op {
      case Amo(_, _) =>
        ShownFieldsL(o1, o2);
        ShownFieldsM(o1, o2);
      case Fence =>
        ShownFieldsA(o1, o2);
      case FenceI =>
        ShownFieldsA(o1, o2);
    }
  }

  lemma SystemFieldsShown(op: WideOp, o1: Operands, o2: Operands)
    requires op.System? || op.SfenceVm? || op.SfenceVma?
    requires Encodable(op, o1) && Encodable(op, o2) && SameOn(WideFormat(op), o1, o2)
    ensures SameUsed(WideCodec(op), o1, o2)
  {
    hide SameOn, SameRounding, InCodec, Agrees, FixedOf, SameUpToRounding, SameCsr;
    FixedFields(op, o1, o2);
    ShownFieldsA(o1, o2);
  }

  lemma CsrFieldsShown(op: WideOp, o1: Operands, o2: Operands)
    requires op.Csr? || op.CsrImm?
    requires Encodable(op, o1) && Encodable(op, o2) && SameOn(WideFormat(op), o1, o2)
    ensures SameUsed(WideCodec(op), o1, o2)
  {
    hide SameOn, SameRounding, InCodec, Agrees, FixedOf, SameUpToRounding, SameCsr;
    FixedFields(op, o1, o2);
    CsrsInRange(o1, o2);
    match op {
      case Csr(_) => ShownFieldsI(o1, o2);
      case CsrImm(_) => ShownFieldsJ(o1, o2);
    }
  }

  lemma RoundedFieldsShown(op: WideOp, o1: Operands, o2: Operands)
    requires op.Fma? || op.FConvert?
    requires Encodable(op, o1) && Encodable(op, o2) && SameOn(WideFormat(op), o1, o2)
    ensures SameUsed(WideCodec(op), o1, o2)
  {
    hide SameOn, SameRounding, InCodec, Agrees, FixedOf, SameUpToRounding, SameCsr;
    FixedFields(op, o1, o2);
    match op {
      case Fma(_, _) =>
        ShownFieldsG(o1, o2);
      case FConvert(_) =>
        ShownFieldsD(o1, o2);
    }
  }

  lemma FpFieldsShown(op: WideOp, o1: Operands, o2: Operands)
    requires op.Fp?
    requires Encodable(op, o1) && Encodable(op, o2) && SameOn(WideFormat(op), o1, o2)
    ensures SameUsed(WideCodec(op), o1, o2)
  {
    hide SameOn, SameRounding, InCodec, Agrees, FixedOf, SameUpToRounding, SameCsr;
    FixedFields(op, o1, o2);
    match op.fp {
      case FAdd | FSub | FMul | FDiv => ShownFieldsF(o1, o2);
      case FSqrt => ShownFieldsD(o1, o2);
      case FSgnj | FSgnjn | FSgnjx | FMin | FMax => ShownFieldsD(o1, o2);
      case FLe | FLt | FEq => ShownFieldsC(o1, o2);
      case FToInt(_) => ShownFieldsE(o1, o2);
      case FFromInt(_) => ShownFieldsE(o1, o2);
      case FMoveToInt | FClass => ShownFieldsC(o1, o2);
      case FMoveFromInt => ShownFieldsB(o1, o2);
    }
  }

  lemma WideFieldsShown(op: WideOp, o1: Operands, o2: Operands)
    requires Encodable(op, o1) && Encodable(op, o2) && SameOn(WideFormat(op), o1, o2)
    ensures SameUsed(WideCodec(op), o1, o2)
  {
    hide Encodable, SameOn, SameUsed, WideFormat, WideCodec;
    if op.Lui? || op.Auipc? || op.Jal? || op.Jalr? || op.Branch? {
      JumpFieldsShown(op, o1, o2);
    } else if op.AddImm? || op.ShiftImm? || op.LogicImm? {
      ArithImmFieldsShown(op, o1, o2);
    } else if op.Arith? || op.Logic? {
      ArithFieldsShown(op, o1, o2);
    } else if op.Load? || op.Store? {
      AccessFieldsShown(op, o1, o2);
    } else if op.FLoad? || op.FStore? {
      FloatAccessFieldsShown(op, o1, o2);
    } else if op.Csr? || op.CsrImm? {
      CsrFieldsShown(op, o1, o2);
    } else if op.Amo? || op.Fence? || op.FenceI? {
      AtomicFieldsShown(op, o1, o2);
    } else if op.Fma? || op.FConvert? {
      RoundedFieldsShown(op, o1, o2);
    } else if op.Fp? {
      FpFieldsShown(op, o1, o2);
    } else {
      SystemFieldsShown(op, o1, o2);
    }
  }

  /** The text of a 32-bit instruction determines its operands. */
  lemma WideOperandsShown(op: WideOp, o1: Operands, o2: Operands)
    requires Encodable(op, o1) && Encodable(op, o2) && SameOn(WideFormat(op), o1, o2)
    ensures SameUpToRounding(o1, o2)
  {
    hide InCodec, SameOn, SameUsed, SameUpToRounding, WideCodec, WideFormat, Agrees, FixedOf;
    WideFieldsShown(op, o1, o2);
    UsedDetermines(WideCodec(op), o1, o2);
  }

  lemma PlainPseudoShown(p: PseudoOp, o1: Operands, o2: Operands)
    requires || p.Nop? || p.Mv? || p.Not? || p.Neg? || p.Negw? || p.SextW?
             || p.Seqz? || p.Snez? || p.Sltz? || p.Sgtz? || p.FMove?
    requires Condition(p, o1) && Condition(p, o2) && SameOn(PseudoFormat(p), o1, o2)
    ensures SameUsed(PseudoCodec(p), o1, o2)
  {
    hide SameOn, CounterNumber, FloatCsrNumber, SameRounding;
    ShownFieldsA(o1, o2);
    ShownFieldsM(o1, o2);
  }

  lemma JumpPseudoShown(p: PseudoOp, o1: Operands, o2: Operands)
    requires p.BranchTo? || p.J? || p.Jr?
    requires Condition(p, o1) && Condition(p, o2) && SameOn(PseudoFormat(p), o1, o2)
    ensures SameUsed(PseudoCodec(p), o1, o2)
  {
    hide SameOn, CounterNumber, FloatCsrNumber, SameRounding;
    ShownFieldsA(o1, o2);
    ShownFieldsN(o1, o2);
    ShownFieldsL(o1, o2);
  }

  lemma CsrPseudoShown(p: PseudoOp, o1: Operands, o2: Operands)
    requires p.ReadCounter? || p.ReadCounterHigh? || p.ReadFloatCsr? || p.WriteFloatCsr? || p.Fsrmi? || p.Fsflagsi?
    requires Condition(p, o1) && Condition(p, o2) && SameOn(PseudoFormat(p), o1, o2)
    ensures SameUsed(PseudoCodec(p), o1, o2)
  {
    hide SameOn, CounterNumber, FloatCsrNumber, SameRounding;
    ShownFieldsM(o1, o2);
  }

  lemma PseudoFieldsShown(p: PseudoOp, o1: Operands, o2: Operands)
    requires p != Ret && Condition(p, o1) && Condition(p, o2) && SameOn(PseudoFormat(p), o1, o2)
    ensures SameUsed(PseudoCodec(p), o1, o2)
  {
    hide Condition, SameOn, PseudoFormat, PseudoCodec, SameUsed;
    match p {
      case BranchTo(_) | J | Jr => JumpPseudoShown(p, o1, o2);
      case ReadCounter(_) | ReadCounterHigh(_) | ReadFloatCsr(_) | WriteFloatCsr(_) | Fsrmi | Fsflagsi =>
        CsrPseudoShown(p, o1, o2);
      case Nop | Mv | Not | Neg | Negw | SextW | Seqz | Snez | Sltz | Sgtz | FMove(_, _) => PlainPseudoShown(p, o1, o2);
    }
  }

  /** The text of a pseudo-instruction other than `ret` determines the operands of its base instruction. */
  lemma PseudoOperandsShown(p: PseudoOp, o1: Operands, o2: Operands)
    requires p != Ret && Condition(p, o1) && Condition(p, o2) && Encodable(BaseOf(p), o1) && Encodable(BaseOf(p), o2)
    requires SameOn(PseudoFormat(p), o1, o2)
    ensures SameUpToRounding(o1, o2)
  {
    hide Condition, InCodec, Agrees, FixedOf, BaseOf, WideCodec, SameOn, PseudoFormat, PseudoCodec, SameUsed;
    hide SameUpToRounding;
    BaseKeepsCodec(p);
    PseudoFieldsShown(p, o1, o2);
    UsedDetermines(PseudoCodec(p), o1, o2);
  }
}
