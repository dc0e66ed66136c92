/** Printed numbers: `%d`, `%x` and `%03x` as digit strings. */
module Numerals {

  function Digit(i: nat): char
    requires i < 16
  {
    "0123456789abcdef"[i]
  }

  function Quotient(n: nat, base: nat): (q: nat)
    requires base >= 2
    ensures n > 0 ==> q < n
  {
    if n == 0 then 0 else
      QuotientDecreases(n, base);
      n / base
  }

  lemma QuotientDecreases(n: nat, base: nat)
    requires n > 0 && base >= 2
    ensures n / base < n
  {
    var q := n / base;
    assert n == q * base + n % base;
    assert q * base == q + q + q * (base - 2);
    assert q * (base - 2) >= 0;
  }

  function Remainder(n: nat, base: nat): (r: nat)
    requires base >= 2
    ensures r < base
  {
    n % base
  }

  /** The digits of a number, most significant first. */
  function Digits(n: nat, base: nat): string
    requires 2 <= base <= 16
  {
    if n < base then [Digit(n)] else Digits(Quotient(n, base), base) + [Digit(Remainder(n, base))]
  }

  function Decimal(n: int): string {
    if n < 0 then "-" + Digits(0 - n, 10) else Digits(n, 10)
  }

  function Hex(n: nat): string { Digits(n, 16) }

  /** Three hexadecimal digits, with leading zeros. */
  function Hex3(n: nat): string
    requires n < 4096
  {
    [Digit(n / 256), Digit(n / 16 % 16), Digit(n % 16)]
  }

  lemma DigitsDistinct(i: nat, j: nat)
    requires i < 16 && j < 16 && Digit(i) == Digit(j)
    ensures i == j
  {}

  /** A character that can occur in a number. */
  predicate IsNumeric(c: char) {
    '0' <= c <= '9' || 'a' <= c <= 'f' || c == '-'
  }

  lemma DigitIsNumeric(i: nat)
    requires i < 16
    ensures IsNumeric(Digit(i)) && Digit(i) != '-'
  {}

  lemma {:induction false} DigitsNumeric(n: nat, base: nat)
    requires 2 <= base <= 16
    ensures |Digits(n, base)| > 0
    ensures forall c :: c in Digits(n, base) ==> IsNumeric(c) && c != '-'
  {
    hide Digit, IsNumeric, Quotient, Remainder;
    if n < base {
      DigitIsNumeric(n);
    } else {
      DigitsNumeric(Quotient(n, base), base);
      DigitIsNumeric(Remainder(n, base));
    }
  }

  lemma QuotientsDetermine(m: nat, n: nat, base: nat)
    requires base >= 2 && Quotient(m, base) == Quotient(n, base) && Remainder(m, base) == Remainder(n, base)
    ensures m == n
  {
    assert m == (m / base) * base + m % base;
  }

  lemma SameLast<T>(s: seq<T>, x: T, t: seq<T>, y: T)
    requires s + [x] == t + [y]
    ensures s == t && x == y
  {
    assert (s + [x])[..|s|] == s && (t + [y])[..|t|] == t;
    assert (s + [x])[|s|] == x && (t + [y])[|t|] == y;
  }

  lemma {:induction false} DigitsInjective(m: nat, n: nat, base: nat)
    requires 2 <= base <= 16 && Digits(m, base) == Digits(n, base)
    ensures m == n
    decreases m
  {
    hide Digit, Quotient, Remainder, IsNumeric;
    var a, b := Quotient(m, base), Quotient(n, base);
    DigitsNumeric(a, base);
    DigitsNumeric(b, base);
    if m < base {
      assert n < base by { assert |Digits(m, base)| == 1; }
      assert [Digit(m)][0] == [Digit(n)][0];
      DigitsDistinct(m, n);
    } else {
      assert n >= base by { assert |Digits(m, base)| > 1; }
      SameLast(Digits(a, base), Digit(Remainder(m, base)), Digits(b, base), Digit(Remainder(n, base)));
      DigitsDistinct(Remainder(m, base), Remainder(n, base));
      DigitsInjective(a, b, base);
      QuotientsDetermine(m, n, base);
    }
  }

  lemma DecimalInjective(m: int, n: int)
    requires Decimal(m) == Decimal(n)
    ensures m == n
  {
    hide Digits, IsNumeric;
    var a, b := if m < 0 then 0 - m else m, if n < 0 then 0 - n else n;
    var s, t := Digits(a, 10), Digits(b, 10);
    DigitsNumeric(a, 10);
    DigitsNumeric(b, 10);
    assert s[0] in s && t[0] in t;
    assert ("-" + s)[0] == '-' && ("-" + t)[0] == '-';
    assert ("-" + s)[1..] == s && ("-" + t)[1..] == t;
    DigitsInjective(a, b, 10);
  }

  lemma DecimalNumeric(n: int)
    ensures |Decimal(n)| > 0
    ensures forall c :: c in Decimal(n) ==> IsNumeric(c)
  {
    DigitsNumeric(if n < 0 then 0 - n else n, 10);
  }

  // ----- reading numbers back

  /** What a digit stands for, by its character code. */
  function DigitValue(c: char): int {
    if '0' <= c <= '9' then c as int - '0' as int else c as int - 'a' as int + 10
  }

  /** The number that a string of digits stands for. */
  function NumberOf(s: string, base: int): int {
    if s == "" then 0 else NumberOf(s[..|s| - 1], base) * base + DigitValue(s[|s| - 1])
  }

  lemma DigitRead(i: nat)
    requires i < 16
    ensures DigitValue(Digit(i)) == i
  {}

  lemma OneMoreDigit(s: string, c: char, base: int)
    ensures NumberOf(s + [c], base) == NumberOf(s, base) * base + DigitValue(c)
  {
    hide DigitValue;
    assert (s + [c])[..|s|] == s;
  }

  lemma Recomposed(n: nat, base: nat)
    requires base >= 2
    ensures Quotient(n, base) * base + Remainder(n, base) == n
  {}

  /** The printed digits stand for the number. */
  lemma {:induction false} DigitsRead(n: nat, base: nat)
    requires 2 <= base <= 16
    ensures NumberOf(Digits(n, base), base) == n
    decreases n
  {
    hide Digit, DigitValue, NumberOf, Quotient, Remainder;
    if n < base {
      DigitRead(n);
      OneMoreDigit("", Digit(n), base);
      NothingRead(base);
      assert "" + [Digit(n)] == [Digit(n)];
    } else {
      var q, r := Quotient(n, base), Remainder(n, base);
      DigitsRead(q, base);
      DigitRead(r);
      OneMoreDigit(Digits(q, base), Digit(r), base);
      Recomposed(n, base);
    }
  }

  lemma NothingRead(base: int)
    ensures NumberOf("", base) == 0
  {}

  /** The digits do not begin with a zero, but for the number zero. */
  lemma {:induction false} NoLeadingZero(n: nat, base: nat)
    requires 2 <= base <= 16
    ensures |Digits(n, base)| > 0 && (n > 0 ==> Digits(n, base)[0] != '0')
    decreases n
  {
    if n >= base {
      Recomposed(n, base);
      NoLeadingZero(Quotient(n, base), base);
    }
  }

  /** A printed signed number: digits that stand for it, after a minus sign if it is negative. */
  lemma DecimalRead(n: int)
    ensures n >= 0 ==> NumberOf(Decimal(n), 10) == n
    ensures n < 0 ==> |Decimal(n)| > 0 && Decimal(n)[0] == '-' && NumberOf(Decimal(n)[1..], 10) == 0 - n
  {
    hide Digits, NumberOf;
    DigitsRead(if n < 0 then 0 - n else n, 10);
    assert ("-" + Digits(if n < 0 then 0 - n else n, 10))[1..] == Digits(if n < 0 then 0 - n else n, 10);
  }

  lemma Hex3Read(n: nat)
    requires n < 4096
    ensures |Hex3(n)| == 3 && NumberOf(Hex3(n), 16) == n
  {
    hide Digit, DigitValue, NumberOf;
    var a, b, c := Digit(n / 256), Digit(n / 16 % 16), Digit(n % 16);
    DigitRead(n / 256);
    DigitRead(n / 16 % 16);
    DigitRead(n % 16);
    NothingRead(16);
    OneMoreDigit("", a, 16);
    OneMoreDigit([a], b, 16);
    OneMoreDigit([a, b], c, 16);
    assert "" + [a] == [a] && [a] + [b] == [a, b] && [a, b] + [c] == Hex3(n);
  }

  lemma NibblesDetermine(m: nat, n: nat)
    requires m / 256 == n / 256 && m / 16 % 16 == n / 16 % 16 && m % 16 == n % 16
    ensures m == n
  {
    assert m / 16 == 16 * (m / 256) + m / 16 % 16;
    assert n / 16 == 16 * (n / 256) + n / 16 % 16;
  }

  lemma Hex3Injective(m: nat, n: nat)
    requires m < 4096 && n < 4096 && Hex3(m) == Hex3(n)
    ensures m == n
  {
    hide Digit;
    assert Hex3(m)[0] == Hex3(n)[0] && Hex3(m)[1] == Hex3(n)[1] && Hex3(m)[2] == Hex3(n)[2];
    DigitsDistinct(m / 256, n / 256);
    DigitsDistinct(m / 16 % 16, n / 16 % 16);
    DigitsDistinct(m % 16, n % 16);
    NibblesDetermine(m, n);
  }

  lemma Hex3Numeric(n: nat)
    requires n < 4096
    ensures forall c :: c in Hex3(n) ==> IsNumeric(c)
  {
    hide Digit, IsNumeric;
    DigitIsNumeric(n / 256);
    DigitIsNumeric(n / 16 % 16);
    DigitIsNumeric(n % 16);
  }

  // ----- lengths

  function Pow(base: nat, k: nat): nat {
    if k == 0 then 1 else base * Pow(base, k - 1)
  }

  lemma {:induction false} DecimalDigits(n: nat, k: nat)
    requires k > 0 && n < Pow(10, k)
    ensures |Digits(n, 10)| <= k
  {
    if n >= 10 {
      DecimalDigits(n / 10, k - 1);
    }
  }

  lemma {:induction false} HexDigits(n: nat, k: nat)
    requires k > 0 && n < Pow(16, k)
    ensures |Digits(n, 16)| <= k
  {
    if n >= 16 {
      HexDigits(n / 16, k - 1);
    }
  }

  lemma DecimalLength(n: int)
    requires -0x1_0000_0000 <= n <= 0x1_0000_0000
    ensures |Decimal(n)| <= 11
  {
    hide Digits;
    assert Pow(10, 5) == 100_000;
    assert Pow(10, 10) == 10_000_000_000;
    DecimalDigits(if n < 0 then 0 - n else n, 10);
  }

  lemma HexLength(n: nat)
    requires n < 0x1_0000_0000_0000_0000
    ensures |Hex(n)| <= 16
  {
    hide Digits;
    assert Pow(16, 4) == 0x1_0000;
    assert Pow(16, 8) == 0x1_0000_0000;
    assert Pow(16, 12) == 0x1_0000_0000_0000;
    assert Pow(16, 16) == 0x1_0000_0000_0000_0000;
    HexDigits(n, 16);
  }

  lemma {:induction false} DigitsAtLeast(n: nat, k: nat)
    requires n >= Pow(16, k)
    ensures |Digits(n, 16)| > k
  {
    if k > 0 {
      PowPositive(k - 1);
      DigitsAtLeast(n / 16, k - 1);
    }
  }

  lemma {:induction false} PowPositive(k: nat)
    ensures Pow(16, k) > 0
  {
    if k > 0 {
      PowPositive(k - 1);
    }
  }

  /** The upper numbers of 64 bits need all 16 hexadecimal digits. */
  lemma LongHex(n: nat)
    requires 0x1000_0000_0000_0000 <= n < 0x1_0000_0000_0000_0000
    ensures |Hex(n)| == 16
  {
    hide Digits;
    assert Pow(16, 4) == 0x1_0000;
    assert Pow(16, 8) == 0x1_0000_0000;
    assert Pow(16, 12) == 0x1_0000_0000_0000;
    assert Pow(16, 15) == 0x1000_0000_0000_0000;
    DigitsAtLeast(n, 15);
    HexLength(n);
  }
}
