/**
 When the format loop ends, and when a text is cut off: for every record and
 buffer size, whether the padding loops end, and the length of what is left.
*/
module Truncation {
  import opened Decoding
  import opened Formats
  import opened Immediates
  import opened Layout
  import opened Locality
  import opened Mnemonics
  import opened Numerals
  import opened Text

  predicate EndsInOffset(f: string) { |f| > 0 && f[|f| - 1] == 'o' }

  lemma {:induction false} ColumnBeforeOffset(f: string, i: nat, bound: nat)
    requires i < |f| && EndsInOffset(f) && LastColumn(f, i, bound) <= MAX_TEXT
    ensures bound + MaxWidth('o') <= 2 * TAB
    decreases |f| - i
  {
    if i + 1 < |f| {
      ColumnBeforeOffset(f, i + 1, Advance(f[i], bound));
    }
  }

  lemma OffsetIsLast(f: string, i: nat)
    requires Separated(f, i) && i + 1 < |f|
    ensures f[i] != 'o'
  {}

  lemma OffsetToken(d: Decoded, csr: CsrNames)
    requires InTables(d.args) && GoodCsrNames(csr)
    ensures Token('o', d, csr) == Decimal(Value(d.args.imm)) && |Token('o', d, csr)| <= MaxWidth('o')
  {
    hide InTables, GoodCsrNames, Decimal, Value;
    TokenIsText('o', d, csr);
  }

  lemma OperandOrPunctuation(f: string, i: nat)
    requires Separated(f, i) && i < |f|
    ensures (IsOperand(f[i]) || IsPunctuation(f[i])) && Separated(f, i + 1)
  {}

  // ----- appends in sequence

  function JoinedLength(pieces: seq<string>): nat {
    if pieces == [] then 0 else |pieces[0]| + JoinedLength(pieces[1..])
  }

  /** The strings that one operand or punctuation directive appends. */
  function Pieces(c: char, d: Decoded, csr: CsrNames, col: nat): seq<string> {
    match c
    case 'o' =>
      var offset := Token('o', d, csr);
      [offset] + (Spaces(2 * TAB - col - |offset|) + [TargetText(d.pc, d.args.imm)])
    case 'p' => FencePieces(d.args.pred)
    case 's' => FencePieces(d.args.succ)
    case _ => [Directive(c, TAB, d, csr, 0)]
  }

  /** The letters of a fence set, one string each. */
  function FencePieces(bits: bv8): seq<string> {
    (if bits & 8 != 0 then ["i"] else []) + (if bits & 4 != 0 then ["o"] else [])
    + (if bits & 2 != 0 then ["r"] else []) + (if bits & 1 != 0 then ["w"] else [])
  }

  /** The strings that the directives of a format from the i-th on append, as long as nothing is cut off. */
  function FormatPieces(f: string, i: nat, d: Decoded, csr: CsrNames, col: nat): seq<string>
    decreases |f| - i
  {
    if i >= |f| then []
    else Pieces(f[i], d, csr, col) + FormatPieces(f, i + 1, d, csr, col + |Directive(f[i], TAB, d, csr, col)|)
  }

  /** After some of the strings, appended to a text that ends in column col, the text ends in column m. */
  predicate Pauses(col: nat, pieces: seq<string>, m: int)
    decreases |pieces|
  {
    col == m || (pieces != [] && Pauses(col + |pieces[0]|, pieces[1..], m))
  }

  /** What a size leaves of a text of some length, which pauses one short of the size or not. */
  function CutLength(total: nat, pauses: bool, n: nat): nat {
    if total < n then total else if pauses && n > 0 then n - 1 else n
  }

  lemma {:induction false} FullStays(s: string, pieces: seq<string>, n: nat)
    requires |s| + 1 >= n
    ensures AppendedAll(s, pieces, n) == s
    decreases |pieces|
  {
    if pieces != [] {
      FullStays(s, pieces[1..], n);
    }
  }

  lemma {:induction false} NeverPauses(col: nat, pieces: seq<string>, m: int)
    requires col > m
    ensures !Pauses(col, pieces, m)
    decreases |pieces|
  {
    if pieces != [] {
      NeverPauses(col + |pieces[0]|, pieces[1..], m);
    }
  }

  /**
   Appends in sequence fill the whole size, their terminator going one past it,
   exactly when the strings are too long together and do not pause one short of
   the size.
  */
  lemma {:induction false} AppendsAreCut(s: string, pieces: seq<string>, n: nat)
    requires |s| < n
    ensures |AppendedAll(s, pieces, n)| == CutLength(|s| + JoinedLength(pieces), Pauses(|s|, pieces, n - 1), n)
    decreases |pieces|
  {
    if pieces != [] {
      if |s| + 1 == n {
        FullStays(s, pieces, n);
      } else if |s| + |pieces[0]| < n {
        AppendedFits(s, pieces[0], n);
        AppendsAreCut(s + pieces[0], pieces[1..], n);
      } else {
        FullStays(Appended(s, pieces[0], n), pieces[1..], n);
        NeverPauses(|s| + |pieces[0]|, pieces[1..], n - 1);
      }
    }
  }

  lemma {:induction false} AppendedPlus(s: string, ps: seq<string>, qs: seq<string>, n: nat)
    ensures AppendedAll(s, ps + qs, n) == AppendedAll(AppendedAll(s, ps, n), qs, n)
    decreases |ps|
  {
    hide Appended;
    if ps == [] {
      assert ps + qs == qs;
    } else {
      assert (ps + qs)[0] == ps[0] && (ps + qs)[1..] == ps[1..] + qs;
      AppendedPlus(Appended(s, ps[0], n), ps[1..], qs, n);
    }
  }

  lemma {:induction false} JoinedPlus(ps: seq<string>, qs: seq<string>)
    ensures JoinedLength(ps + qs) == JoinedLength(ps) + JoinedLength(qs)
    decreases |ps|
  {
    if ps == [] {
      assert ps + qs == qs;
    } else {
      assert (ps + qs)[0] == ps[0] && (ps + qs)[1..] == ps[1..] + qs;
      JoinedPlus(ps[1..], qs);
    }
  }

  /** Strings that end before a column do not decide whether later ones pause there. */
  lemma {:induction false} PausesPlus(col: nat, ps: seq<string>, qs: seq<string>, m: int)
    requires col + JoinedLength(ps) <= m
    ensures Pauses(col, ps + qs, m) <==> Pauses(col + JoinedLength(ps), qs, m)
    decreases |ps|
  {
    if ps == [] {
      assert ps + qs == qs;
    } else {
      assert (ps + qs)[0] == ps[0] && (ps + qs)[1..] == ps[1..] + qs;
      PausesPlus(col + |ps[0]|, ps[1..], qs, m);
      if col == m {
        StillPauses(col, ps, qs);
      }
    }
  }

  lemma {:induction false} StillPauses(col: nat, ps: seq<string>, qs: seq<string>)
    requires JoinedLength(ps) == 0
    ensures Pauses(col + JoinedLength(ps), qs, col)
  {}

  lemma {:induction false} SpacesJoin(k: int)
    ensures JoinedLength(Spaces(k)) == if k <= 0 then 0 else k
    decreases k
  {
    if k > 0 {
      assert Spaces(k)[1..] == Spaces(k - 1);
      SpacesJoin(k - 1);
    }
  }

  // ----- the directives as appends

  lemma OnePiece(s: string, t: string, n: nat)
    ensures AppendedAll(s, [t], n) == Appended(s, t, n) && JoinedLength([t]) == |t|
  {
    hide Appended;
    assert [t][1..] == [];
    assert AppendedAll(Appended(s, t, n), [], n) == Appended(s, t, n);
  }

  lemma OptionalLetter(s: string, bits: bv8, mask: bv8, letter: string, n: nat)
    ensures AppendedAll(s, if bits & mask != 0 then [letter] else [], n) == AppendedLetter(s, bits, mask, letter, n)
    ensures JoinedLength(if bits & mask != 0 then [letter] else []) == |Letter(bits, mask, letter)|
  {
    hide Appended;
    OnePiece(s, letter, n);
  }

  lemma FenceIsPieces(s: string, bits: bv8, n: nat)
    ensures AppendedAll(s, FencePieces(bits), n) == AppendedFence(s, bits, n)
    ensures JoinedLength(FencePieces(bits)) == |FenceText(bits)|
  {
    hide Appended, AppendedAll, AppendedLetter, Letter, JoinedLength;
    var i, o := if bits & 8 != 0 then ["i"] else [], if bits & 4 != 0 then ["o"] else [];
    var r, w := if bits & 2 != 0 then ["r"] else [], if bits & 1 != 0 then ["w"] else [];
    var si := AppendedLetter(s, bits, 8, "i", n);
    var so := AppendedLetter(si, bits, 4, "o", n);
    var sr := AppendedLetter(so, bits, 2, "r", n);
    OptionalLetter(s, bits, 8, "i", n);
    OptionalLetter(si, bits, 4, "o", n);
    OptionalLetter(so, bits, 2, "r", n);
    OptionalLetter(sr, bits, 1, "w", n);
    AppendedPlus(s, i + o + r, w, n);
    AppendedPlus(s, i + o, r, n);
    AppendedPlus(s, i, o, n);
    JoinedPlus(i + o + r, w);
    JoinedPlus(i + o, r);
    JoinedPlus(i, o);
  }

  /** An operand other than an offset, or punctuation, is appended as its strings. */
  lemma DirectiveIsPieces(c: char, d: Decoded, csr: CsrNames, s: string, col: nat, n: nat)
    requires (IsOperand(c) && c != 'o') || IsPunctuation(c)
    ensures Emitted(c, TAB, d, csr, s, n) == AppendedAll(s, Pieces(c, d, csr, col), n)
    ensures JoinedLength(Pieces(c, d, csr, col)) == |Directive(c, TAB, d, csr, col)|
  {
    hide Appended, AppendedAll, AppendedFence, FencePieces, JoinedLength, FenceText;
    hide NameOf, Decimal, CsrText, RoundingText, Value;
    FenceIsPieces(s, d.args.pred, n);
    FenceIsPieces(s, d.args.succ, n);
    OnePiece(s, Directive(c, TAB, d, csr, 0), n);
  }

  lemma OffsetPiecesJoin(d: Decoded, csr: CsrNames, col: nat)
    requires InTables(d.args) && GoodCsrNames(csr) && col + MaxWidth('o') <= 2 * TAB
    ensures var offset, target := Token('o', d, csr), TargetText(d.pc, d.args.imm);
      && JoinedLength([offset] + Spaces(2 * TAB - col - |offset|)) == 2 * TAB - col
      && JoinedLength(Pieces('o', d, csr, col)) == |Directive('o', TAB, d, csr, col)| == 2 * TAB - col + |target|
  {
    hide Token, TargetText, JoinedLength, InTables, GoodCsrNames;
    var offset, target := Token('o', d, csr), TargetText(d.pc, d.args.imm);
    var blanks := Spaces(2 * TAB - col - |offset|);
    OffsetToken(d, csr);
    SpacesJoin(2 * TAB - col - |offset|);
    OnePiece("", offset, 0);
    OnePiece("", target, 0);
    JoinedPlus([offset], blanks);
    JoinedPlus(blanks, [target]);
    JoinedPlus([offset], blanks + [target]);
  }

  /** An offset is appended as its strings, in a buffer of more than two tab stops. */
  lemma OffsetIsPieces(d: Decoded, csr: CsrNames, s: string, n: nat)
    requires InTables(d.args) && GoodCsrNames(csr) && |s| + MaxWidth('o') <= 2 * TAB < n
    ensures Emitted('o', TAB, d, csr, s, n) == AppendedAll(s, Pieces('o', d, csr, |s|), n)
  {
    hide Token, TargetText, Appended, AppendedAll, Spaces, Padded, Decimal, Value, InTables, GoodCsrNames;
    var offset, target := Token('o', d, csr), TargetText(d.pc, d.args.imm);
    var blanks := Spaces(2 * TAB - |s| - |offset|);
    OffsetToken(d, csr);
    AppendedFits(s, offset, n);
    PaddingEndsExactly(s + offset, 2 * TAB, n);
    OnePiece(s, offset, n);
    OnePiece(Padded(s + offset, 2 * TAB), target, n);
    AppendedPlus(s, [offset], blanks + [target], n);
    AppendedPlus(s + offset, blanks, [target], n);
  }

  // ----- the operands of a format as appends

  lemma {:induction false} PiecesOfFormat(f: string, i: nat, d: Decoded, csr: CsrNames, col: nat, bound: nat)
    requires Separated(f, i) && LastColumn(f, i, bound) <= MAX_TEXT && col <= bound
    requires InTables(d.args) && GoodCsrNames(csr)
    ensures JoinedLength(FormatPieces(f, i, d, csr, col)) == |Rendered(f, i, TAB, d, csr, col)|
    decreases |f| - i
  {
    hide Directive, GoodCsrNames, InTables, Pieces, IsOperand, IsPunctuation, Token;
    if i < |f| {
      OperandOrPunctuation(f, i);
      DirectiveAdvances(f[i], d, csr, col, bound);
      var next := col + |Directive(f[i], TAB, d, csr, col)|;
      JoinedPlus(Pieces(f[i], d, csr, col), FormatPieces(f, i + 1, d, csr, next));
      PiecesOfFormat(f, i + 1, d, csr, next, Advance(f[i], bound));
      if f[i] == 'o' {
        if i + 1 < |f| {
          OffsetIsLast(f, i);
        }
        ColumnBeforeOffset(f, i, bound);
        OffsetPiecesJoin(d, csr, col);
      } else {
        DirectiveIsPieces(f[i], d, csr, "", col, 0);
      }
    }
  }

  /** The bounded appends of a format are those of its strings, in sequence. */
  lemma {:induction false} FormattedIsPieces(
    f: string, i: nat, d: Decoded, csr: CsrNames, s: string, col: nat, bound: nat, n: nat)
    requires Separated(f, i) && LastColumn(f, i, bound) <= MAX_TEXT
    requires InTables(d.args) && GoodCsrNames(csr)
    requires EndsInOffset(f) ==> n > 2 * TAB && |s| == col <= bound
    ensures Formatted(f, i, TAB, d, csr, s, n) == AppendedAll(s, FormatPieces(f, i, d, csr, col), n)
    decreases |f| - i
  {
    hide Directive, Emitted, GoodCsrNames, InTables, Pieces, IsOperand, IsPunctuation;
    if i < |f| {
      OperandOrPunctuation(f, i);
      var next, t := col + |Directive(f[i], TAB, d, csr, col)|, Emitted(f[i], TAB, d, csr, s, n);
      AppendedPlus(s, Pieces(f[i], d, csr, col), FormatPieces(f, i + 1, d, csr, next), n);
      if i + 1 == |f| && f[i] == 'o' {
        ColumnBeforeOffset(f, i, bound);
        OffsetIsPieces(d, csr, s, n);
      } else {
        assert f[i] != 'o' by {
          if i + 1 < |f| {
            OffsetIsLast(f, i);
          }
        }
        DirectiveIsPieces(f[i], d, csr, s, col, n);
        if EndsInOffset(f) {
          DirectiveAdvances(f[i], d, csr, col, bound);
          ColumnBeforeOffset(f, i + 1, Advance(f[i], bound));
          DirectiveFits(f[i], TAB, d, csr, s, n);
        }
        FormattedIsPieces(f, i + 1, d, csr, t, next, Advance(f[i], bound), n);
      }
    }
  }

  /** With a format that ends in an offset, what follows the number of the offset starts in column 64. */
  lemma {:induction false} OffsetTextLength(f: string, i: nat, d: Decoded, csr: CsrNames, col: nat, bound: nat)
    requires i < |f| && EndsInOffset(f) && Separated(f, i) && LastColumn(f, i, bound) <= MAX_TEXT && col <= bound
    requires InTables(d.args) && GoodCsrNames(csr)
    ensures col + |Rendered(f, i, TAB, d, csr, col)| == 2 * TAB + |TargetText(d.pc, d.args.imm)|
    decreases |f| - i
  {
    hide GoodCsrNames, InTables, IsOperand, IsPunctuation, Directive, Pieces, TargetText;
    OperandOrPunctuation(f, i);
    ColumnBeforeOffset(f, i, bound);
    if i + 1 == |f| {
      OffsetPiecesJoin(d, csr, col);
    } else {
      DirectiveAdvances(f[i], d, csr, col, bound);
      OffsetTextLength(f, i + 1, d, csr, col + |Directive(f[i], TAB, d, csr, col)|, Advance(f[i], bound));
    }
  }

  /** A format that ends in an offset pauses past column 63 only before the target and at its end. */
  lemma {:induction false} PausesBeforeTarget(
    f: string, i: nat, d: Decoded, csr: CsrNames, col: nat, bound: nat, m: int)
    requires i < |f| && EndsInOffset(f) && Separated(f, i) && LastColumn(f, i, bound) <= MAX_TEXT && col <= bound
    requires InTables(d.args) && GoodCsrNames(csr) && m >= 2 * TAB
    ensures Pauses(col, FormatPieces(f, i, d, csr, col), m)
       <==> m == 2 * TAB || m == 2 * TAB + |TargetText(d.pc, d.args.imm)|
    decreases |f| - i
  {
    hide GoodCsrNames, InTables, IsOperand, IsPunctuation, Directive, Pieces, TargetText, Pauses, JoinedLength;
    OperandOrPunctuation(f, i);
    ColumnBeforeOffset(f, i, bound);
    if i + 1 == |f| {
      LastPauses(d, csr, col, m);
      assert FormatPieces(f, i, d, csr, col) == Pieces('o', d, csr, col);
    } else {
      OffsetIsLast(f, i);
      var next := col + |Directive(f[i], TAB, d, csr, col)|;
      DirectiveAdvances(f[i], d, csr, col, bound);
      DirectiveIsPieces(f[i], d, csr, "", col, 0);
      PausesBeforeTarget(f, i + 1, d, csr, next, Advance(f[i], bound), m);
      ColumnBeforeOffset(f, i + 1, Advance(f[i], bound));
      PausesPlus(col, Pieces(f[i], d, csr, col), FormatPieces(f, i + 1, d, csr, next), m);
    }
  }

  lemma LastPauses(d: Decoded, csr: CsrNames, col: nat, m: int)
    requires InTables(d.args) && GoodCsrNames(csr) && col + MaxWidth('o') <= 2 * TAB <= m
    ensures Pauses(col, Pieces('o', d, csr, col), m)
       <==> m == 2 * TAB || m == 2 * TAB + |TargetText(d.pc, d.args.imm)|
  {
    hide Token, TargetText, JoinedLength, Spaces, InTables, GoodCsrNames, Pauses;
    var offset, target := Token('o', d, csr), TargetText(d.pc, d.args.imm);
    var blanks := Spaces(2 * TAB - col - |offset|);
    OffsetPiecesJoin(d, csr, col);
    assert [offset] + (blanks + [target]) == [offset] + blanks + [target];
    PausesPlus(col, [offset] + blanks, [target], m);
    OnePauses(2 * TAB, target, m);
  }

  lemma OnePauses(col: nat, t: string, m: int)
    ensures Pauses(col, [t], m) <==> m == col || m == col + |t|
  {
    assert [t][1..] == [];
  }

  // ----- the heading fits

  lemma FormatStep(f: string, i: nat, d: Decoded, csr: CsrNames, s: string, t: string, n: nat)
    requires i < |f| && Directive(f[i], TAB, d, csr, |s|) == t && |s| + |t| < n
    ensures Formatted(f, i, TAB, d, csr, s, n) == Formatted(f, i + 1, TAB, d, csr, s + t, n)
  {
    hide Directive, Emitted;
    DirectiveFits(f[i], TAB, d, csr, s, n);
  }

  lemma PlainHeading(f: string, d: Decoded, csr: CsrNames, n: nat) returns (s: string)
    requires Sound(f) && !HasFlags(f) && |NameOf(d.op)| <= TAB && n > TAB
    ensures |s| == TAB && Formatted(f, 0, TAB, d, csr, "", n) == Formatted(f, 2, TAB, d, csr, s, n)
  {
    hide NameOf, Separated, LastColumn, Directive, Formatted, Blanks;
    var name := NameOf(d.op);
    HeadingDirectives(d, csr, 0);
    HeadingDirectives(d, csr, |name|);
    FormatStep(f, 0, d, csr, "", name, n);
    assert "" + name == name;
    FormatStep(f, 1, d, csr, name, Blanks(TAB - |name|), n);
    s := name + Blanks(TAB - |name|);
  }

  lemma FlagHeading(f: string, d: Decoded, csr: CsrNames, n: nat) returns (s: string)
    requires Sound(f) && HasFlags(f) && |NameOf(d.op)| + 6 <= TAB && n > TAB
    ensures |s| == TAB && Formatted(f, 0, TAB, d, csr, "", n) == Formatted(f, 4, TAB, d, csr, s, n)
  {
    hide NameOf, Separated, LastColumn, Directive, Formatted, Blanks;
    var name := NameOf(d.op);
    var aq, rl := if d.args.aq != 0 then ".aq" else "", if d.args.rl != 0 then ".rl" else "";
    HeadingDirectives(d, csr, 0);
    HeadingDirectives(d, csr, |name|);
    HeadingDirectives(d, csr, |name| + |aq|);
    HeadingDirectives(d, csr, |name| + |aq| + |rl|);
    FormatStep(f, 0, d, csr, "", name, n);
    assert "" + name == name;
    FormatStep(f, 1, d, csr, name, aq, n);
    FormatStep(f, 2, d, csr, name + aq, rl, n);
    FormatStep(f, 3, d, csr, name + aq + rl, Blanks(TAB - |name| - |aq| - |rl|), n);
    s := name + aq + rl + Blanks(TAB - |name| - |aq| - |rl|);
  }

  lemma HeadingFits(d: Decoded, csr: CsrNames, n: nat) returns (s: string)
    requires !d.op.Compressed? && n > TAB
    ensures |s| == TAB
    ensures Formatted(FormatOf(d.op), 0, TAB, d, csr, "", n)
         == Formatted(FormatOf(d.op), OperandStart(FormatOf(d.op)), TAB, d, csr, s, n)
  {
    hide NameOf, FormatOf, Formatted;
    FormatsAreSound(d.op);
    PrintedNamesAreMnemonics(d.op);
    if HasFlags(FormatOf(d.op)) {
      s := FlagHeading(FormatOf(d.op), d, csr, n);
    } else {
      s := PlainHeading(FormatOf(d.op), d, csr, n);
    }
  }

  // ----- when the format loop ends

  /** The sizes for which every padding loop of a record ends. */
  predicate Ends(d: Decoded, n: nat) {
    n > TAB && (EndsInOffset(FormatOf(d.op)) ==> n > 2 * TAB)
  }

  lemma AppendedInside(s: string, t: string, n: nat)
    ensures |s| <= |Appended(s, t, n)| <= |s| + |t|
  {}

  /** An operand other than an offset, or punctuation, adds no more than its text. */
  lemma EmittedInside(c: char, d: Decoded, csr: CsrNames, s: string, n: nat)
    requires (IsOperand(c) && c != 'o') || IsPunctuation(c)
    ensures |Emitted(c, TAB, d, csr, s, n)| <= |s| + |Directive(c, TAB, d, csr, |s|)|
  {
    hide Appended, NameOf, Decimal, CsrText, RoundingText, Value, FenceText, FencePieces, AppendedAll, Pieces;
    DirectiveIsPieces(c, d, csr, s, |s|, n);
    PiecesInside(s, Pieces(c, d, csr, |s|), n);
  }

  lemma {:induction false} PiecesInside(s: string, pieces: seq<string>, n: nat)
    ensures |AppendedAll(s, pieces, n)| <= |s| + JoinedLength(pieces)
    decreases |pieces|
  {
    if pieces != [] {
      AppendedInside(s, pieces[0], n);
      PiecesInside(Appended(s, pieces[0], n), pieces[1..], n);
    }
  }

  lemma OffsetEnds(d: Decoded, csr: CsrNames, s: string, n: nat)
    requires InTables(d.args) && GoodCsrNames(csr) && |s| + MaxWidth('o') < 2 * TAB
    ensures DirectiveEnds('o', TAB, d, s, n) <==> n > 2 * TAB
  {
    hide Appended, Decimal, Value, InTables, GoodCsrNames, PaddingEnds;
    OffsetToken(d, csr);
    AppendedInside(s, Decimal(Value(d.args.imm)), n);
    PaddingEndsExactly(Appended(s, Decimal(Value(d.args.imm)), n), 2 * TAB, n);
  }

  lemma OthersEnd(c: char, tab: nat, d: Decoded, s: string, n: nat)
    requires c != 'o' && c != '\t'
    ensures DirectiveEnds(c, tab, d, s, n)
  {}

  /** The loop over the operands ends unless an offset follows that is to be padded past the size. */
  lemma {:induction false} OperandsEnd(f: string, i: nat, d: Decoded, csr: CsrNames, s: string, bound: nat, n: nat)
    requires Separated(f, i) && LastColumn(f, i, bound) <= MAX_TEXT && |s| < bound
    requires InTables(d.args) && GoodCsrNames(csr)
    ensures LoopEnds(f, i, TAB, d, csr, s, n) <==> (i < |f| && EndsInOffset(f) ==> n > 2 * TAB)
    decreases |f| - i
  {
    hide Directive, Emitted, DirectiveEnds, GoodCsrNames, InTables;
    if i < |f| {
      if f[i] == 'o' {
        if i + 1 < |f| {
          OffsetIsLast(f, i);
        }
        ColumnBeforeOffset(f, i, bound);
        OffsetEnds(d, csr, s, n);
      } else {
        OperandOrPunctuation(f, i);
        OthersEnd(f[i], TAB, d, s, n);
        EmittedInside(f[i], d, csr, s, n);
        DirectiveAdvances(f[i], d, csr, |s|, bound - 1);
        OperandsEnd(f, i + 1, d, csr, Emitted(f[i], TAB, d, csr, s, n), Advance(f[i], bound), n);
      }
    }
  }

  lemma PlainDirective(f: string, i: nat, d: Decoded, csr: CsrNames, s: string, n: nat)
    requires i < |f| && f[i] != 'o' && f[i] != '\t'
    ensures LoopEnds(f, i, TAB, d, csr, s, n) == LoopEnds(f, i + 1, TAB, d, csr, Emitted(f[i], TAB, d, csr, s, n), n)
  {
    hide Emitted;
  }

  /** A tab from a text that ends before the tab stop. */
  lemma TabEnds(f: string, i: nat, d: Decoded, csr: CsrNames, s: string, n: nat)
    requires i < |f| && f[i] == '\t' && |s| < TAB
    ensures LoopEnds(f, i, TAB, d, csr, s, n) <==> n > TAB && LoopEnds(f, i + 1, TAB, d, csr, Padded(s, TAB), n)
    ensures |Padded(s, TAB)| == TAB
  {
    hide PaddingEnds;
    PaddingEndsExactly(s, TAB, n);
  }

  lemma HeadingEmitted(d: Decoded, csr: CsrNames, s: string, n: nat)
    ensures |Emitted('O', TAB, d, csr, s, n)| <= |s| + |NameOf(d.op)|
    ensures |Emitted('A', TAB, d, csr, s, n)| <= |s| + 3 && |Emitted('R', TAB, d, csr, s, n)| <= |s| + 3
  {
    hide NameOf, Appended;
    AppendedInside(s, NameOf(d.op), n);
    AppendedInside(s, ".aq", n);
    AppendedInside(s, ".rl", n);
  }

  /** The heading ends exactly in buffers of more than one tab stop. */
  lemma HeadingEnds(f: string, d: Decoded, csr: CsrNames, n: nat) returns (s: string)
    requires Sound(f) && |NameOf(d.op)| <= 10
    ensures |s| == TAB
    ensures LoopEnds(f, 0, TAB, d, csr, "", n) <==> n > TAB && LoopEnds(f, OperandStart(f), TAB, d, csr, s, n)
  {
    hide NameOf, Separated, LastColumn, Emitted, LoopEnds, Padded;
    var name := Emitted('O', TAB, d, csr, "", n);
    HeadingEmitted(d, csr, "", n);
    PlainDirective(f, 0, d, csr, "", n);
    if HasFlags(f) {
      var aq := Emitted('A', TAB, d, csr, name, n);
      var rl := Emitted('R', TAB, d, csr, aq, n);
      HeadingEmitted(d, csr, name, n);
      HeadingEmitted(d, csr, aq, n);
      PlainDirective(f, 1, d, csr, name, n);
      PlainDirective(f, 2, d, csr, aq, n);
      TabEnds(f, 3, d, csr, rl, n);
      s := Padded(rl, TAB);
    } else {
      TabEnds(f, 1, d, csr, name, n);
      s := Padded(name, TAB);
    }
  }

  /**
   The format loop ends for exactly these sizes: more than one tab stop, and more
   than two when the format ends in an offset.
  */
  lemma EndsExactly(d: Decoded, csr: CsrNames, n: nat)
    requires !d.op.Compressed? && InTables(d.args) && GoodCsrNames(csr)
    ensures LoopEnds(FormatOf(d.op), 0, TAB, d, csr, "", n) <==> Ends(d, n)
  {
    hide NameOf, FormatOf, LoopEnds, Separated, LastColumn, InTables, GoodCsrNames;
    var f := FormatOf(d.op);
    FormatsAreSound(d.op);
    PrintedNamesAreMnemonics(d.op);
    var s := HeadingEnds(f, d, csr, n);
    OperandsEnd(f, OperandStart(f), d, csr, s, TAB + 1, n);
    if EndsInOffset(f) {
      StartsBeforeEnd(f);
    }
  }

  // ----- the whole text

  /** The operands of a record, as the strings that are appended for them. */
  function OperandPieces(d: Decoded, csr: CsrNames): seq<string> {
    FormatPieces(FormatOf(d.op), OperandStart(FormatOf(d.op)), d, csr, TAB)
  }

  /** The text is too long for the size, and no operand ends one short of the size. */
  predicate Overruns(d: Decoded, csr: CsrNames, n: nat) {
    n <= |PrintedText(d, csr)| && !Pauses(TAB, OperandPieces(d, csr), n - 1)
  }

  /** For every size for which the format loop ends, how much of the text is left. */
  lemma TextIsCut(d: Decoded, csr: CsrNames, n: nat)
    requires !d.op.Compressed? && InTables(d.args) && GoodCsrNames(csr) && Ends(d, n)
    ensures |Formatted(FormatOf(d.op), 0, TAB, d, csr, "", n)|
         == CutLength(|PrintedText(d, csr)|, Pauses(TAB, OperandPieces(d, csr), n - 1), n)
  {
    hide NameOf, FormatOf, Formatted, Rendered, Separated, LastColumn, InTables, GoodCsrNames, Blanks, PrintedText;
    hide FormatPieces, AppendedAll, JoinedLength, Pauses;
    var f := FormatOf(d.op);
    FormatsAreSound(d.op);
    TextShape(d, csr);
    HeadingIsShort(d);
    var s := HeadingFits(d, csr, n);
    FormattedIsPieces(f, OperandStart(f), d, csr, s, TAB, TAB + 1, n);
    PiecesOfFormat(f, OperandStart(f), d, csr, TAB, TAB + 1);
    AppendsAreCut(s, OperandPieces(d, csr), n);
  }

  lemma StartsBeforeEnd(f: string)
    requires Sound(f) && EndsInOffset(f)
    ensures OperandStart(f) < |f|
  {
    hide Separated, LastColumn;
  }

  /**
   The buffer is overrun, by the terminator, exactly when the text is too long
   for the size and no operand ends one short of it; for sizes of more than two
   tab stops, exactly from 66 to the length of the text.
  */
  lemma OverrunExactly(d: Decoded, csr: CsrNames, n: nat)
    requires !d.op.Compressed? && InTables(d.args) && GoodCsrNames(csr) && Ends(d, n)
    ensures |Formatted(FormatOf(d.op), 0, TAB, d, csr, "", n)| >= n <==> Overruns(d, csr, n)
    ensures |Formatted(FormatOf(d.op), 0, TAB, d, csr, "", n)| <= n
    ensures n > 2 * TAB ==> (Overruns(d, csr, n) <==> 2 * TAB + 1 < n <= |PrintedText(d, csr)|)
  {
    hide FormatOf, Formatted, PrintedText, OperandPieces, Pauses, InTables, GoodCsrNames;
    TextIsCut(d, csr, n);
    if n > 2 * TAB {
      LongTextPauses(d, csr, n - 1);
    }
  }

  /** A text of more than two tab stops ends in an offset, whose target starts at the second. */
  lemma LongTextPauses(d: Decoded, csr: CsrNames, m: nat)
    requires !d.op.Compressed? && InTables(d.args) && GoodCsrNames(csr) && m >= 2 * TAB
    ensures |PrintedText(d, csr)| > m ==> (Pauses(TAB, OperandPieces(d, csr), m) <==> m == 2 * TAB)
    ensures EndsInOffset(FormatOf(d.op)) ==> |PrintedText(d, csr)| == 2 * TAB + |TargetText(d.pc, d.args.imm)|
  {
    hide NameOf, FormatOf, Rendered, Separated, LastColumn, InTables, GoodCsrNames, Blanks, PrintedText, TargetText;
    hide FormatPieces, Pauses;
    var f := FormatOf(d.op);
    FormatsAreSound(d.op);
    TextShape(d, csr);
    HeadingIsShort(d);
    if EndsInOffset(f) {
      StartsBeforeEnd(f);
      OffsetTextLength(f, OperandStart(f), d, csr, TAB, TAB + 1);
      PausesBeforeTarget(f, OperandStart(f), d, csr, TAB, TAB + 1, m);
    } else {
      RenderedInside(f, OperandStart(f), d, csr, TAB, TAB + 1);
    }
  }
}
