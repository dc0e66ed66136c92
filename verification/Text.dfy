/**
 The text of a decoded instruction, twice: as the bounded appends of the source
 build it in a buffer of a given size, and as the unbounded concatenation they
 stand for.
*/
module Text {
  import opened Opcodes
  import opened Decoding
  import opened Immediates
  import opened Mnemonics
  import opened Numerals
  import opened Registers

  /** The name table of the control and status registers; None where it has no entry. */
  type CsrNames = bv32 -> Option<string>

  // ----- the text of the operands

  function CsrText(csr: CsrNames, imm: bv32): string {
    match csr(imm & 0xFFF)
    case Some(name) => name
    case None => "0x" + Hex3(CsrNumber(imm))
  }

  function CsrNumber(imm: bv32): (n: int)
    ensures 0 <= n < 4096
  {
    (imm & 0xFFF) as bv12 as int
  }

  function RoundingText(rm: bv8): string {
    match rm
    case 0 => "rne" case 1 => "rtz" case 2 => "rdn" case 3 => "rup" case 4 => "rmm" case 7 => "dyn"
    case _ => "inv"
  }

  /** The modes in the order of table 11.1; the two reserved ones have no name. */
  lemma RoundingModes(rm: bv8)
    requires rm < 8
    ensures RoundingText(rm) == ["rne", "rtz", "rdn", "rup", "rmm", "inv", "inv", "dyn"][rm as int]
  {}

  function Letter(bits: bv8, mask: bv8, letter: string): string {
    if bits & mask != 0 then letter else ""
  }

  function FenceText(bits: bv8): string {
    Letter(bits, 8, "i") + Letter(bits, 4, "o") + Letter(bits, 2, "r") + Letter(bits, 1, "w")
  }

  /** A fence set prints the letters of its bits (section 2.7). */
  lemma FenceSetLetters(bits: bv8)
    ensures 'i' in FenceText(bits) <==> bits & 8 != 0
    ensures 'o' in FenceText(bits) <==> bits & 4 != 0
    ensures 'r' in FenceText(bits) <==> bits & 2 != 0
    ensures 'w' in FenceText(bits) <==> bits & 1 != 0
  {}

  /** The letters are printed in alphabetical order, each once, and nothing else is. */
  lemma FenceOrder(bits: bv8)
    ensures forall j, k :: 0 <= j < k < |FenceText(bits)| ==> FenceText(bits)[j] < FenceText(bits)[k]
    ensures forall c :: c in FenceText(bits) ==> c in "iorw"
  {}

  /** A register without a name prints as `0x` and three hexadecimal digits, which stand for its number. */
  lemma CsrTextRead(csr: CsrNames, imm: bv32)
    ensures csr(imm & 0xFFF).Some? ==> CsrText(csr, imm) == csr(imm & 0xFFF).value
    ensures csr(imm & 0xFFF).None? ==>
      && |CsrText(csr, imm)| == 5 && CsrText(csr, imm)[..2] == "0x"
      && NumberOf(CsrText(csr, imm)[2..], 16) == (imm & 0xFFF) as int
  {
    hide Hex3, NumberOf;
    Hex3Read(CsrNumber(imm));
    assert ("0x" + Hex3(CsrNumber(imm)))[2..] == Hex3(CsrNumber(imm));
    CsrNumberIs(imm);
  }

  lemma CsrNumberIs(imm: bv32)
    ensures CsrNumber(imm) == (imm & 0xFFF) as int
  {}

  function SignExtended64(imm: bv32): bv64 {
    if imm >= 0x8000_0000 then 0xFFFF_FFFF_0000_0000 | imm as bv64 else imm as bv64
  }

  /** The address an offset leads to. */
  function Target(pc: bv64, imm: bv32): bv64 {
    pc + SignExtended64(imm)
  }

  function TargetText(pc: bv64, imm: bv32): string {
    "# 0x" + Hex(Target(pc, imm) as int)
  }

  // ----- the unbounded text

  function Blanks(n: int): (s: string)
    ensures |s| == if n <= 0 then 0 else n
    ensures forall c :: c in s ==> c == ' '
  {
    if n <= 0 then "" else " " + Blanks(n - 1)
  }

  /** What one format directive adds to a text that ends in column col. */
  function Directive(c: char, tab: nat, d: Decoded, csr: CsrNames, col: nat): string {
    match c
    case 'O' => NameOf(d.op)
    case '(' => "("
    case ',' => ","
    case ')' => ")"
    case '0' => IregName(d.args.rd)
    case '1' => IregName(d.args.rs1)
    case '2' => IregName(d.args.rs2)
    case '3' => FregName(d.args.rd)
    case '4' => FregName(d.args.rs1)
    case '5' => FregName(d.args.rs2)
    case '6' => FregName(d.args.rs3)
    case '7' => Decimal(d.args.rs1 as int)
    case 'i' => Decimal(Value(d.args.imm))
    case 'o' =>
      var offset := Decimal(Value(d.args.imm));
      offset + Blanks(2 * tab - col - |offset|) + TargetText(d.pc, d.args.imm)
    case 'c' => CsrText(csr, d.args.imm)
    case 'r' => RoundingText(d.args.rm)
    case 'p' => FenceText(d.args.pred)
    case 's' => FenceText(d.args.succ)
    case '\t' => Blanks(tab - col)
    case 'A' => if d.args.aq != 0 then ".aq" else ""
    case 'R' => if d.args.rl != 0 then ".rl" else ""
    case _ => ""
  }

  /** What the directives of format f from the i-th on add to a text that ends in column col. */
  function Rendered(f: string, i: nat, tab: nat, d: Decoded, csr: CsrNames, col: nat): string
    decreases |f| - i
  {
    if i >= |f| then ""
    else
      var t := Directive(f[i], tab, d, csr, col);
      t + Rendered(f, i + 1, tab, d, csr, col + |t|)
  }

  // ----- the bounded text

  /** What `append` leaves in a buffer that holds s. */
  function Appended(s: string, t: string, n: nat): string {
    if |s| + 1 < n then s + t[..if |t| < n - |s| then |t| else n - |s|] else s
  }

  /** What appending each of the strings in turn leaves. */
  function AppendedAll(s: string, pieces: seq<string>, n: nat): string
    decreases |pieces|
  {
    if pieces == [] then s else AppendedAll(Appended(s, pieces[0], n), pieces[1..], n)
  }

  /** What a padding loop leaves when it ends. */
  function Padded(s: string, col: nat): string {
    s + Blanks(col - |s|)
  }

  function AppendedLetter(s: string, bits: bv8, mask: bv8, letter: string, n: nat): string {
    if bits & mask != 0 then Appended(s, letter, n) else s
  }

  function AppendedFence(s: string, bits: bv8, n: nat): string {
    AppendedLetter(
      AppendedLetter(AppendedLetter(AppendedLetter(s, bits, 8, "i", n), bits, 4, "o", n), bits, 2, "r", n),
      bits, 1, "w", n)
  }

  /** The buffer after one format directive. */
  function Emitted(c: char, tab: nat, d: Decoded, csr: CsrNames, s: string, n: nat): string {
    match c
    case '\t' => Padded(s, tab)
    case 'o' =>
      Appended(Padded(Appended(s, Decimal(Value(d.args.imm)), n), 2 * tab), TargetText(d.pc, d.args.imm), n)
    case 'p' => AppendedFence(s, d.args.pred, n)
    case 's' => AppendedFence(s, d.args.succ, n)
    case 'A' => if d.args.aq != 0 then Appended(s, ".aq", n) else s
    case 'R' => if d.args.rl != 0 then Appended(s, ".rl", n) else s
    case _ =>
      if IsText(c) then Appended(s, Directive(c, tab, d, csr, |s|), n) else s
  }

  /** The directives that append one string. */
  predicate IsText(c: char) {
    c == 'O' || c == '(' || c == ',' || c == ')' || '0' <= c <= '7' || c == 'i' || c == 'c' || c == 'r'
  }

  /** The buffer after the directives of format f from the i-th on. */
  function Formatted(f: string, i: nat, tab: nat, d: Decoded, csr: CsrNames, s: string, n: nat): string
    decreases |f| - i
  {
    if i >= |f| then s else Formatted(f, i + 1, tab, d, csr, Emitted(f[i], tab, d, csr, s, n), n)
  }

  // ----- whether the padding loops end

  /** What k rounds of a padding loop append. */
  function Spaces(k: int): seq<string> {
    if k <= 0 then [] else [" "] + Spaces(k - 1)
  }

  /** A padding loop ends: some number of rounds takes the text to the column. */
  ghost predicate PaddingEnds(s: string, col: nat, n: nat) {
    exists k: nat :: |AppendedAll(s, Spaces(k), n)| >= col
  }

  /**
   Every round adds a blank while that leaves room for the terminator; in a
   buffer that the column exceeds no number of rounds reaches the column.
  */
  lemma {:induction false} PaddingProgress(s: string, col: nat, n: nat, k: nat)
    ensures |s| + k < n ==> AppendedAll(s, Spaces(k), n) == s + Blanks(k)
    ensures |s| < col && n <= col ==> |AppendedAll(s, Spaces(k), n)| < col
    decreases k
  {
    if k > 0 {
      assert Spaces(k)[1..] == Spaces(k - 1);
      assert " "[..1] == " ";
      PaddingProgress(Appended(s, " ", n), col, n, k - 1);
      assert s + " " + Blanks(k - 1) == s + (" " + Blanks(k - 1));
    }
  }

  /** A padding loop ends exactly from texts that reach the column and for sizes that exceed it, and pads. */
  lemma PaddingEndsExactly(s: string, col: nat, n: nat)
    ensures PaddingEnds(s, col, n) <==> |s| >= col || n > col
    ensures PaddingEnds(s, col, n) ==> AppendedAll(s, Spaces(col - |s|), n) == Padded(s, col)
  {
    if |s| >= col {
      assert AppendedAll(s, Spaces(0), n) == s;
    } else if n > col {
      PaddingProgress(s, col, n, col - |s|);
    } else {
      forall k: nat ensures |AppendedAll(s, Spaces(k), n)| < col {
        PaddingProgress(s, col, n, k);
      }
    }
  }

  /** The padding loop of a directive ends, if it has one. */
  ghost predicate DirectiveEnds(c: char, tab: nat, d: Decoded, s: string, n: nat) {
    match c
    case '\t' => PaddingEnds(s, tab, n)
    case 'o' => PaddingEnds(Appended(s, Decimal(Value(d.args.imm)), n), 2 * tab, n)
    case _ => true
  }

  /** Every padding loop ends that the directives of format f from the i-th on run. */
  ghost predicate LoopEnds(f: string, i: nat, tab: nat, d: Decoded, csr: CsrNames, s: string, n: nat)
    decreases |f| - i
  {
    || i >= |f|
    || (DirectiveEnds(f[i], tab, d, s, n) && LoopEnds(f, i + 1, tab, d, csr, Emitted(f[i], tab, d, csr, s, n), n))
  }

  // ----- the bounded text is the unbounded one while it fits

  lemma AppendedFits(s: string, t: string, n: nat)
    requires |s| + |t| < n
    ensures Appended(s, t, n) == s + t
  {
    assert t[..|t|] == t;
    if t == "" {
      assert t[..0] == "";
    }
  }

  /**
   An append that is cut off fills the whole size, so that its terminator goes
   one character past it: exactly when there is room for more than one character
   but not for the addition and the terminator.
  */
  lemma AppendOverruns(s: string, t: string, n: nat)
    requires |s| < n
    ensures |Appended(s, t, n)| == n <==> |s| + 1 < n <= |s| + |t|
    ensures |Appended(s, t, n)| <= n
  {}

  lemma LetterFits(s: string, bits: bv8, mask: bv8, letter: string, n: nat)
    requires |s| + |Letter(bits, mask, letter)| < n
    ensures AppendedLetter(s, bits, mask, letter, n) == s + Letter(bits, mask, letter)
  {
    if bits & mask != 0 {
      AppendedFits(s, letter, n);
    }
  }

  lemma FenceFits(s: string, bits: bv8, n: nat)
    requires |s| + |FenceText(bits)| < n
    ensures AppendedFence(s, bits, n) == s + FenceText(bits)
  {
    hide Letter, AppendedLetter;
    var i, o, r, w := Letter(bits, 8, "i"), Letter(bits, 4, "o"), Letter(bits, 2, "r"), Letter(bits, 1, "w");
    LetterFits(s, bits, 8, "i", n);
    LetterFits(s + i, bits, 4, "o", n);
    LetterFits(s + i + o, bits, 2, "r", n);
    LetterFits(s + i + o + r, bits, 1, "w", n);
    assert s + (i + o + r + w) == s + i + o + r + w;
  }

  lemma OffsetFits(tab: nat, d: Decoded, csr: CsrNames, s: string, n: nat)
    requires |s| + |Directive('o', tab, d, csr, |s|)| < n
    ensures Emitted('o', tab, d, csr, s, n) == s + Directive('o', tab, d, csr, |s|)
  {
    hide Appended, Decimal, TargetText;
    var offset, target := Decimal(Value(d.args.imm)), TargetText(d.pc, d.args.imm);
    var pad := Blanks(2 * tab - |s| - |offset|);
    AppendedFits(s, offset, n);
    AppendedFits(s + offset + pad, target, n);
    assert s + (offset + pad + target) == s + offset + pad + target;
  }

  lemma DirectiveFits(c: char, tab: nat, d: Decoded, csr: CsrNames, s: string, n: nat)
    requires |s| + |Directive(c, tab, d, csr, |s|)| < n
    ensures Emitted(c, tab, d, csr, s, n) == s + Directive(c, tab, d, csr, |s|)
  {
    hide Appended, AppendedFence, FenceText, IregName, FregName, NameOf, CsrText, RoundingText, Decimal, TargetText;
    if c == 'o' {
      OffsetFits(tab, d, csr, s, n);
    } else if c == 'p' {
      FenceFits(s, d.args.pred, n);
    } else if c == 's' {
      FenceFits(s, d.args.succ, n);
    } else if c == 'A' || c == 'R' {
      AppendedFits(s, Directive(c, tab, d, csr, |s|), n);
    } else if IsText(c) {
      AppendedFits(s, Directive(c, tab, d, csr, |s|), n);
    }
  }

  /** The appends build the unbounded text whenever it is shorter than the buffer. */
  lemma {:induction false} FormattedFits(f: string, i: nat, tab: nat, d: Decoded, csr: CsrNames, s: string, n: nat)
    requires |s| + |Rendered(f, i, tab, d, csr, |s|)| < n
    ensures Formatted(f, i, tab, d, csr, s, n) == s + Rendered(f, i, tab, d, csr, |s|)
    decreases |f| - i
  {
    hide Emitted, Directive;
    if i < |f| {
      var t := Directive(f[i], tab, d, csr, |s|);
      DirectiveFits(f[i], tab, d, csr, s, n);
      FormattedFits(f, i + 1, tab, d, csr, s + t, n);
    }
  }
}
