/** Register names, with the lookups that show them to be pairwise distinct. */
module Registers {

  /** The integer register names; the empty string beyond the table. */
  function IregName(r: bv8): string {
    match r
    case 0 => "zero" case 1 => "ra" case 2 => "sp" case 3 => "gp" case 4 => "tp" case 5 => "t0" case 6 => "t1"
    case 7 => "t2"
    case 8 => "s0" case 9 => "s1" case 10 => "a0" case 11 => "a1" case 12 => "a2" case 13 => "a3" case 14 => "a4"
    case 15 => "a5"
    case 16 => "a6" case 17 => "a7" case 18 => "s2" case 19 => "s3" case 20 => "s4" case 21 => "s5" case 22 => "s6"
    case 23 => "s7"
    case 24 => "s8" case 25 => "s9" case 26 => "s10" case 27 => "s11" case 28 => "t3" case 29 => "t4" case 30 => "t5"
    case 31 => "t6"
    case _ => ""
  }

  /** The floating-point register names; the empty string beyond the table. */
  function FregName(r: bv8): string {
    match r
    case 0 => "ft0" case 1 => "ft1" case 2 => "ft2" case 3 => "ft3" case 4 => "ft4" case 5 => "ft5" case 6 => "ft6"
    case 7 => "ft7"
    case 8 => "fs0" case 9 => "fs1" case 10 => "fa0" case 11 => "fa1" case 12 => "fa2" case 13 => "fa3"
    case 14 => "fa4" case 15 => "fa5"
    case 16 => "fa6" case 17 => "fa7" case 18 => "fs2" case 19 => "fs3" case 20 => "fs4" case 21 => "fs5"
    case 22 => "fs6" case 23 => "fs7"
    case 24 => "fs8" case 25 => "fs9" case 26 => "fs10" case 27 => "fs11" case 28 => "ft8" case 29 => "ft9"
    case 30 => "ft10" case 31 => "ft11"
    case _ => ""
  }

  /** The number of an integer register name. */
  function IregNumber(s: string): int {
    if |s| < 2 then 0
    else if |s| == 4 && s[0] == 'z' then (match s[3] case 'o' => 0 case _ => 0)
    else if |s| == 2 && s[0] == 'r' then (match s[1] case 'a' => 1 case _ => 0)
    else if |s| == 2 && s[0] == 's' then (match s[1] case 'p' => 2 case '0' => 8 case '1' => 9 case '2' => 18
         case '3' => 19 case '4' => 20 case '5' => 21 case '6' => 22 case '7' => 23 case '8' => 24 case '9' => 25
         case _ => 0)
    else if |s| == 2 && s[0] == 'g' then (match s[1] case 'p' => 3 case _ => 0)
    else if |s| == 2 && s[0] == 't' then (match s[1] case 'p' => 4 case '0' => 5 case '1' => 6 case '2' => 7
         case '3' => 28 case '4' => 29 case '5' => 30 case '6' => 31 case _ => 0)
    else if |s| == 2 && s[0] == 'a' then (match s[1] case '0' => 10 case '1' => 11 case '2' => 12 case '3' => 13
         case '4' => 14 case '5' => 15 case '6' => 16 case '7' => 17 case _ => 0)
    else if |s| == 3 && s[0] == 's' then (match s[2] case '0' => 26 case '1' => 27 case _ => 0)
    else 0
  }

  /** The number of a floating-point register name. */
  function FregNumber(s: string): int {
    if |s| < 3 then 0
    else if |s| == 3 && s[1] == 't' then (match s[2] case '0' => 0 case '1' => 1 case '2' => 2 case '3' => 3
         case '4' => 4 case '5' => 5 case '6' => 6 case '7' => 7 case '8' => 28 case '9' => 29 case _ => 0)
    else if |s| == 3 && s[1] == 's' then (match s[2] case '0' => 8 case '1' => 9 case '2' => 18 case '3' => 19
         case '4' => 20 case '5' => 21 case '6' => 22 case '7' => 23 case '8' => 24 case '9' => 25 case _ => 0)
    else if |s| == 3 && s[1] == 'a' then (match s[2] case '0' => 10 case '1' => 11 case '2' => 12 case '3' => 13
         case '4' => 14 case '5' => 15 case '6' => 16 case '7' => 17 case _ => 0)
    else if |s| == 4 && s[1] == 's' then (match s[3] case '0' => 26 case '1' => 27 case _ => 0)
    else if |s| == 4 && s[1] == 't' then (match s[3] case '0' => 30 case '1' => 31 case _ => 0)
    else 0
  }

  /** A character that separates operands or ends one. */
  predicate IsDelimiter(c: char) {
    c == ' ' || c == ',' || c == '(' || c == ')' || c == '#'
  }

  /** The text of one operand: short, and without delimiters or the string terminator. */
  predicate IsOperandText(s: string, length: nat) {
    |s| <= length && forall c :: c in s ==> !IsDelimiter(c) && c != '\0'
  }

  predicate IregFound(r: bv8) { IregNumber(IregName(r)) == r as int && IsOperandText(IregName(r), 4) }

  predicate FregFound(r: bv8) { FregNumber(FregName(r)) == r as int && IsOperandText(FregName(r), 4) }

  lemma LowIregs(r: bv8)
    requires r < 16
    ensures IregFound(r)
  {}

  lemma MiddleIregs(r: bv8)
    requires 16 <= r < 24
    ensures IregFound(r)
  {}

  lemma HighIregs(r: bv8)
    requires 24 <= r < 32
    ensures IregFound(r)
  {}

  lemma LowFregs(r: bv8)
    requires r < 16
    ensures FregFound(r)
  {}

  lemma MiddleFregs(r: bv8)
    requires 16 <= r < 24
    ensures FregFound(r)
  {}

  lemma HighFregs(r: bv8)
    requires 24 <= r < 32
    ensures FregFound(r)
  {}

  lemma RegistersFound(r: bv8)
    requires r < 32
    ensures IregFound(r) && FregFound(r)
  {
    hide IregFound, FregFound;
    if r < 16 {
      LowIregs(r);
      LowFregs(r);
    } else if r < 24 {
      MiddleIregs(r);
      MiddleFregs(r);
    } else {
      HighIregs(r);
      HighFregs(r);
    }
  }

  // ----- the numbering of chapter 25

  /** The letters of a register and its number among those. */
  function Numbered(letters: string, n: bv8): string {
    letters + (match n case 0 => "0" case 1 => "1" case 2 => "2" case 3 => "3" case 4 => "4" case 5 => "5" case 6 => "6"
               case 7 => "7" case 8 => "8" case 9 => "9" case 10 => "10" case _ => "11")
  }

  /** Five registers of their own, then temporaries, saved registers and arguments, each kind numbered through. */
  lemma IregsAreNumbered(r: bv8)
    requires r < 32
    ensures r <= 4 ==> IregName(r) == ["zero", "ra", "sp", "gp", "tp"][r as int]
    ensures 5 <= r <= 7 ==> IregName(r) == Numbered("t", r - 5)
    ensures 8 <= r <= 9 ==> IregName(r) == Numbered("s", r - 8)
  {}

  lemma UpperIregsAreNumbered(r: bv8)
    requires r < 32
    ensures 10 <= r <= 17 ==> IregName(r) == Numbered("a", r - 10)
    ensures 18 <= r <= 27 ==> IregName(r) == Numbered("s", r - 16)
    ensures 28 <= r ==> IregName(r) == Numbered("t", r - 25)
  {}

  lemma FregsAreNumbered(r: bv8)
    requires r < 32
    ensures r <= 7 ==> FregName(r) == Numbered("ft", r)
    ensures 8 <= r <= 9 ==> FregName(r) == Numbered("fs", r - 8)
  {}

  lemma UpperFregsAreNumbered(r: bv8)
    requires r < 32
    ensures 10 <= r <= 17 ==> FregName(r) == Numbered("fa", r - 10)
    ensures 18 <= r <= 27 ==> FregName(r) == Numbered("fs", r - 16)
    ensures 28 <= r ==> FregName(r) == Numbered("ft", r - 20)
  {}
}
