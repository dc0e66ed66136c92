/** 64-bit words as numbers: addition is addition modulo 2^64, and the low bits are the remainder. */
module Words {

  const WORD := 0x1_0000_0000_0000_0000

  function Number(a: bv64): (n: nat)
    ensures n < WORD
  {
    a as int
  }

  // ----- a word as its upper bits and its lowest bit

  function Half(a: bv64): bv64 { a >> 1 }

  function Parity(a: bv64): bv64 { a & 1 }

  function Twice(s: bv64, r: bv64): bv64 { 2 * s + r }

  function Sum(a: bv64, b: bv64): bv64 { a + b }

  function Plus(a: bv64, b: bv64, c: bv64): bv64 { a + b + c }

  function UpperBits(a: bv64): bv63 { ((a >> 1) & 0x7FFF_FFFF_FFFF_FFFF) as bv63 }

  function LowestBit(a: bv64): bv1 { (a & 1) as bv1 }

  function Join(upper: bv63, lowest: bv1): bv64 { ((upper as bv64) << 1) | (lowest as bv64) }

  lemma JoinNumber(upper: bv63, lowest: bv1)
    ensures Number(Join(upper, lowest)) == 2 * Number(upper as bv64) + Number(lowest as bv64)
  {}

  lemma JoinedHalves(a: bv64)
    ensures Join(UpperBits(a), LowestBit(a)) == a
    ensures UpperBits(a) as bv64 == Half(a) && LowestBit(a) as bv64 == Parity(a)
  {}

  lemma Halve(a: bv64)
    ensures Number(a) == 2 * Number(Half(a)) + Number(Parity(a))
  {
    hide Number, Join, UpperBits, LowestBit, Half, Parity;
    JoinNumber(UpperBits(a), LowestBit(a));
    JoinedHalves(a);
  }

  lemma BitNumber(a: bv64)
    requires a <= 1
    ensures (a == 0 && Number(a) == 0) || (a == 1 && Number(a) == 1)
  {}

  lemma ParityIsBit(a: bv64)
    ensures Parity(a) <= 1
  {}

  // ----- doubling

  function Below(a: bv64): bv64 { a & 0x7FFF_FFFF_FFFF_FFFF }

  function BelowBits(a: bv64): bv63 { (a & 0x7FFF_FFFF_FFFF_FFFF) as bv63 }

  function TopBit(a: bv64): bv1 { ((a >> 63) & 1) as bv1 }

  function TopJoin(top: bv1, rest: bv63): bv64 { ((top as bv64) << 63) | (rest as bv64) }

  lemma TopJoinNumber(top: bv1, rest: bv63)
    ensures Number(TopJoin(top, rest)) == 0x8000_0000_0000_0000 * Number(top as bv64) + Number(rest as bv64)
  {}

  lemma RestNumber(rest: bv63)
    ensures Number(rest as bv64) < 0x8000_0000_0000_0000
  {
    assert rest as int < 0x8000_0000_0000_0000;
  }

  lemma TopJoined(a: bv64)
    ensures TopJoin(TopBit(a), BelowBits(a)) == a && BelowBits(a) as bv64 == Below(a)
    ensures TopBit(a) as bv64 <= 1
  {}

  lemma WithoutTop(a: bv64)
    ensures Number(Below(a)) == Number(a) % 0x8000_0000_0000_0000
  {
    hide Number, TopJoin, TopBit, BelowBits, Below;
    TopJoinNumber(TopBit(a), BelowBits(a));
    RestNumber(BelowBits(a));
    TopJoined(a);
    BitNumber(TopBit(a) as bv64);
  }

  lemma TwiceBits(s: bv64, r: bv64)
    requires r <= 1
    ensures Half(Twice(s, r)) == Below(s) && Parity(Twice(s, r)) == r
  {}

  lemma TwiceNumber(s: bv64, r: bv64)
    requires r <= 1
    ensures Number(Twice(s, r)) == (2 * Number(s) + Number(r)) % WORD
  {
    hide Number, Half, Parity, Twice, Below;
    Halve(Twice(s, r));
    TwiceBits(s, r);
    WithoutTop(s);
    BitNumber(r);
  }

  lemma TwiceSmall(s: bv64, r: bv64)
    requires r <= 1 && Number(s) < 0x8000_0000_0000_0000
    ensures Number(Twice(s, r)) == 2 * Number(s) + Number(r)
  {
    hide Number, Twice;
    TwiceNumber(s, r);
    BitNumber(r);
  }

  // ----- addition, one bit at a time

  lemma TwiceHalf(a: bv64)
    ensures a == Twice(Half(a), Parity(a))
  {}

  lemma PlusTwice(p: bv64, x: bv64, q: bv64, y: bv64, c: bv64)
    ensures Plus(2 * p + x, 2 * q + y, c) == Sum(2 * (p + q), x + y + c)
  {}

  lemma SumTwice(p: bv64, q: bv64, carry: bv64, r: bv64)
    ensures Sum(2 * (p + q), 2 * carry + r) == Twice(p + q + carry, r)
  {}

  lemma PlusIs(a: bv64, b: bv64, c: bv64)
    ensures Plus(a, b, c) == a + b + c
  {}

  lemma TwiceIs(s: bv64, r: bv64)
    ensures Twice(s, r) == 2 * s + r
  {}

  lemma Regroup(p: bv64, x: bv64, q: bv64, y: bv64, c: bv64, carry: bv64, r: bv64)
    requires x + y + c == 2 * carry + r
    ensures Plus(Twice(p, x), Twice(q, y), c) == Twice(Plus(p, q, carry), r)
  {
    hide Plus, Twice, Sum;
    TwiceIs(p, x);
    TwiceIs(q, y);
    PlusTwice(p, x, q, y, c);
    SumTwice(p, q, carry, r);
    PlusIs(p, q, carry);
  }

  /** The sum of three bits, as a carry and a bit. */
  lemma AddBits(x: bv64, y: bv64, c: bv64) returns (carry: bv64, r: bv64)
    requires x <= 1 && y <= 1 && c <= 1
    ensures carry <= 1 && r <= 1 && x + y + c == 2 * carry + r
    ensures Number(x) + Number(y) + Number(c) == 2 * Number(carry) + Number(r)
  {
    var two := (x == 1 && y == 1) || (c == 1 && (x == 1 || y == 1));
    carry := if two then 1 else 0;
    r := if (x == 1) != ((y == 1) != (c == 1)) then 1 else 0;
    hide Number;
    BitNumber(x);
    BitNumber(y);
    BitNumber(c);
    BitNumber(carry);
    BitNumber(r);
  }

  /** One step of the addition: the sum of the halves, and a bit. */
  lemma SumStep(a: bv64, b: bv64, c: bv64) returns (carry: bv64, r: bv64)
    requires c <= 1
    ensures carry <= 1 && r <= 1 && Plus(a, b, c) == Twice(Plus(Half(a), Half(b), carry), r)
    ensures Number(a) + Number(b) + Number(c)
         == 2 * (Number(Half(a)) + Number(Half(b)) + Number(carry)) + Number(r)
  {
    hide Number, Half, Parity, Twice, Plus;
    Halve(a);
    Halve(b);
    ParityIsBit(a);
    ParityIsBit(b);
    carry, r := AddBits(Parity(a), Parity(b), c);
    TwiceHalf(a);
    TwiceHalf(b);
    Regroup(Half(a), Parity(a), Half(b), Parity(b), c, carry, r);
  }

  lemma {:induction false} SmallSum(a: bv64, b: bv64, c: bv64)
    requires Number(a) < 0x8000_0000_0000_0000 && Number(b) < 0x8000_0000_0000_0000 && c <= 1
    ensures Number(Plus(a, b, c)) == Number(a) + Number(b) + Number(c)
    decreases Number(a) + Number(b)
  {
    hide Number, Half, Parity, Twice, Plus;
    BitNumber(c);
    if Number(a) == 0 && Number(b) == 0 {
      ZeroSum(a, b, c);
    } else {
      Halve(a);
      Halve(b);
      var carry, r := SumStep(a, b, c);
      BitNumber(carry);
      BitNumber(r);
      SmallSum(Half(a), Half(b), carry);
      TwiceSmall(Plus(Half(a), Half(b), carry), r);
    }
  }

  lemma ZeroSum(a: bv64, b: bv64, c: bv64)
    requires Number(a) == Number(b) == 0
    ensures Plus(a, b, c) == c
  {
    assert a == a as int as bv64 && b == b as int as bv64;
  }

  lemma HalfIsSmall(a: bv64)
    ensures Number(Half(a)) < 0x8000_0000_0000_0000
  {
    hide Number, Half, Parity;
    Halve(a);
  }

  lemma NoCarry(a: bv64, b: bv64)
    ensures Plus(a, b, 0) == a + b
  {
    hide Plus;
    PlusIs(a, b, 0);
    ZeroAdded(a, b);
  }

  lemma ZeroAdded(a: bv64, b: bv64)
    ensures a + b + 0 == a + b
  {}

  /** Words are added modulo 2^64. */
  lemma SumNumber(a: bv64, b: bv64)
    ensures Number(a + b) == (Number(a) + Number(b)) % WORD
  {
    hide Number, Half, Parity, Twice, Plus;
    BitNumber(0);
    NoCarry(a, b);
    HalfIsSmall(a);
    HalfIsSmall(b);
    var carry, r := SumStep(a, b, 0);
    SmallSum(Half(a), Half(b), carry);
    TwiceNumber(Plus(Half(a), Half(b), carry), r);
  }

  lemma NumberInjective(a: bv64, b: bv64)
    requires Number(a) == Number(b)
    ensures a == b
  {
    assert a == a as int as bv64 && b == b as int as bv64;
  }

  // ----- the lowest seven bits

  function Above7(a: bv64): bv57 { (a >> 7) as bv57 }

  function Lowest7(a: bv64): bv7 { (a & 0x7F) as bv7 }

  function Join7(above: bv57, lowest: bv7): bv64 { ((above as bv64) << 7) | (lowest as bv64) }

  lemma Join7Number(above: bv57, lowest: bv7)
    ensures Number(Join7(above, lowest)) == 128 * Number(above as bv64) + Number(lowest as bv64)
    ensures Number(lowest as bv64) < 128
  {}

  lemma Joined7(a: bv64)
    ensures Join7(Above7(a), Lowest7(a)) == a && Lowest7(a) as bv64 == a & 0x7F
  {}

  /** The lowest seven bits are the remainder by 128. */
  lemma LowestSevenBits(a: bv64)
    ensures Number(a) % 128 == Number(a & 0x7F)
  {
    hide Number, Join7, Above7, Lowest7;
    Join7Number(Above7(a), Lowest7(a));
    Joined7(a);
  }
}
