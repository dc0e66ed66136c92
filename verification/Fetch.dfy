/** The length code of instruction words, and fetching over it. */
module Fetch {

  /** inst_length: the length in bytes that the low bits of a word announce, 0 when they announce none. */
  function InstLength(inst: bv64): nat {
    if inst & 0x3 != 0x3 then 2
    else if inst & 0x1C != 0x1C then 4
    else if inst & 0x3F == 0x1F then 6
    else if inst & 0x7F == 0x3F then 8
    else 0
  }

  /**
   The length codes of section 1.5: the low bits of a 16-bit instruction are not
   11, those of a 32-bit one 11 and not 11111; then 011111, 0111111 and the rest.
  */
  lemma LengthPatterns(inst: bv64)
    ensures InstLength(inst) == 2 <==> inst & 0x03 != 0x03
    ensures InstLength(inst) == 4 <==> inst & 0x03 == 0x03 && inst & 0x1F != 0x1F
    ensures InstLength(inst) == 6 <==> inst & 0x3F == 0x1F
    ensures InstLength(inst) == 8 <==> inst & 0x7F == 0x3F
    ensures InstLength(inst) == 0 <==> inst & 0x7F == 0x7F
  {}

  // ----- little-endian values

  /** The value whose lowest byte is `low`, with `rest` above it. */
  function Push(low: bv8, rest: bv64): bv64 { (low as bv64) | (rest << 8) }

  function LowByte(value: bv64): bv8 { (value & 0xFF) as bv8 }

  function Rest(value: bv64): bv64 { value >> 8 }

  function LittleEndian(bytes: seq<bv8>): bv64 {
    if bytes == [] then 0 else Push(bytes[0], LittleEndian(bytes[1..]))
  }

  function Bytes(value: bv64, count: nat): seq<bv8> {
    if count == 0 then [] else [LowByte(value)] + Bytes(Rest(value), count - 1)
  }

  /** The value has no bit set above its first `count` bytes. */
  predicate FitsIn(value: bv64, count: nat) {
    if count == 0 then value == 0 else FitsIn(Rest(value), count - 1)
  }

  lemma PushedBack(value: bv64)
    ensures Push(LowByte(value), Rest(value)) == value
  {}

  lemma Pushed(low: bv8, rest: bv64)
    requires rest >> 56 == 0
    ensures Rest(Push(low, rest)) == rest && LowByte(Push(low, rest)) == low
  {}

  lemma {:induction false} BytesLength(value: bv64, count: nat)
    ensures |Bytes(value, count)| == count
  {
    if count > 0 {
      BytesLength(Rest(value), count - 1);
    }
  }

  lemma {:induction false} LittleEndianOfBytes(value: bv64, count: nat)
    requires FitsIn(value, count)
    ensures LittleEndian(Bytes(value, count)) == value
    decreases count
  {
    hide Push, LowByte, Rest;
    if count > 0 {
      LittleEndianOfBytes(Rest(value), count - 1);
      assert Bytes(value, count)[1..] == Bytes(Rest(value), count - 1);
      PushedBack(value);
    }
  }

  lemma {:induction false} FitsInMore(value: bv64, count: nat, more: nat)
    requires FitsIn(value, count) && count <= more
    ensures FitsIn(value, more)
    decreases more
  {
    if count > 0 {
      FitsInMore(Rest(value), count - 1, more - 1);
    } else if more > 0 {
      assert Rest(0) == 0;
      FitsInMore(Rest(value), 0, more - 1);
    }
  }

  lemma SevenShifts(value: bv64)
    ensures Rest(Rest(Rest(Rest(Rest(Rest(Rest(value))))))) == value >> 56
  {}

  lemma SevenBytes(value: bv64)
    requires FitsIn(value, 7)
    ensures value >> 56 == 0
  {
    hide Rest;
    var v4 := Rest(Rest(Rest(Rest(value))));
    assert FitsIn(Rest(Rest(value)), 5);
    assert FitsIn(v4, 3);
    assert FitsIn(Rest(Rest(v4)), 1);
    assert Rest(Rest(Rest(v4))) == 0;
    SevenShifts(value);
  }

  lemma {:induction false} BytesOfLittleEndian(bytes: seq<bv8>)
    requires |bytes| <= 8
    ensures FitsIn(LittleEndian(bytes), |bytes|)
    ensures Bytes(LittleEndian(bytes), |bytes|) == bytes
  {
    hide Push, LowByte, Rest;
    if bytes != [] {
      var rest := LittleEndian(bytes[1..]);
      BytesOfLittleEndian(bytes[1..]);
      FitsInMore(rest, |bytes| - 1, 7);
      SevenBytes(rest);
      Pushed(bytes[0], rest);
    }
  }

  // ----- fetching

  /** The bytes that hold an instruction: those its length names, and always the first two. */
  function Extent(length: nat): nat { if length < 2 then 2 else length }

  function LengthAt(data: seq<bv8>): nat
    requires |data| >= 2
  {
    InstLength(LittleEndian(data[..2]))
  }

  /** inst_fetch: reads an instruction and its length from a byte buffer. */
  method InstFetch(data: array<bv8>) returns (inst: bv64, length: nat)
    requires data.Length >= 2 && data.Length >= LengthAt(data[..])
    ensures length == LengthAt(data[..])
    ensures inst == LittleEndian(data[..Extent(length)])
    ensures InstLength(inst) == length
  {
    inst := ((data[1] as bv64) << 8) | (data[0] as bv64);
    length := InstLength(inst);
    TwoBytes(data[..2]);
    assert data[..][..2] == data[..2];
    if length >= 8 {
      inst := inst | (((data[7] as bv64) << 56) | ((data[6] as bv64) << 48));
    }
    if length >= 6 {
      inst := inst | (((data[5] as bv64) << 40) | ((data[4] as bv64) << 32));
    }
    if length >= 4 {
      inst := inst | (((data[3] as bv64) << 24) | ((data[2] as bv64) << 16));
    }
    if length == 4 {
      FourBytes(data[..4]);
    } else if length == 6 {
      SixBytes(data[..6]);
    } else if length == 8 {
      EightBytes(data[..8]);
    }
    LengthIsInFirstBytes(inst, LittleEndian(data[..2]));
  }

  lemma TwoBytes(b: seq<bv8>)
    requires |b| == 2
    ensures LittleEndian(b) == ((b[1] as bv64) << 8) | (b[0] as bv64)
  {
    assert b[1..][1..] == [];
    assert Push(b[1], 0) == b[1] as bv64;
  }

  function PushPair(b0: bv8, b1: bv8, rest: bv64): bv64 {
    ((b1 as bv64) << 8) | (b0 as bv64) | (rest << 16)
  }

  lemma PushTwo(b0: bv8, b1: bv8, rest: bv64)
    ensures Push(b0, Push(b1, rest)) == PushPair(b0, b1, rest)
  {}

  lemma TwoMoreBytes(b: seq<bv8>)
    requires |b| >= 2
    ensures LittleEndian(b) == PushPair(b[0], b[1], LittleEndian(b[2..]))
  {
    hide Push, PushPair;
    assert b[1..][1..] == b[2..];
    PushTwo(b[0], b[1], LittleEndian(b[2..]));
  }

  lemma FourBytes(b: seq<bv8>)
    requires |b| == 4
    ensures LittleEndian(b) ==
      ((b[1] as bv64) << 8) | (b[0] as bv64) | (((b[3] as bv64) << 24) | ((b[2] as bv64) << 16))
  {
    TwoMoreBytes(b);
    TwoBytes(b[2..]);
    ShiftPair(b[2], b[3]);
  }

  lemma ShiftPair(b0: bv8, b1: bv8)
    ensures (((b1 as bv64) << 8) | (b0 as bv64)) << 16 == ((b1 as bv64) << 24) | ((b0 as bv64) << 16)
  {}

  lemma SixBytes(b: seq<bv8>)
    requires |b| == 6
    ensures LittleEndian(b) ==
      ((b[1] as bv64) << 8) | (b[0] as bv64) | (((b[5] as bv64) << 40) | ((b[4] as bv64) << 32))
      | (((b[3] as bv64) << 24) | ((b[2] as bv64) << 16))
  {
    TwoMoreBytes(b);
    FourBytes(b[2..]);
    ShiftFour(b[0], b[1], b[2], b[3], b[4], b[5]);
  }

  lemma ShiftFour(b0: bv8, b1: bv8, b2: bv8, b3: bv8, b4: bv8, b5: bv8)
    ensures ((b1 as bv64) << 8) | (b0 as bv64)
            | ((((b3 as bv64) << 8) | (b2 as bv64) | (((b5 as bv64) << 24) | ((b4 as bv64) << 16))) << 16)
         == ((b1 as bv64) << 8) | (b0 as bv64) | (((b5 as bv64) << 40) | ((b4 as bv64) << 32))
            | (((b3 as bv64) << 24) | ((b2 as bv64) << 16))
  {}

  lemma EightBytes(b: seq<bv8>)
    requires |b| == 8
    ensures LittleEndian(b) ==
      ((b[1] as bv64) << 8) | (b[0] as bv64) | (((b[7] as bv64) << 56) | ((b[6] as bv64) << 48))
      | (((b[5] as bv64) << 40) | ((b[4] as bv64) << 32)) | (((b[3] as bv64) << 24) | ((b[2] as bv64) << 16))
  {
    TwoMoreBytes(b);
    SixBytes(b[2..]);
    ShiftSix(b[0], b[1], b[2], b[3], b[4], b[5], b[6], b[7]);
  }

  lemma ShiftSix(b0: bv8, b1: bv8, b2: bv8, b3: bv8, b4: bv8, b5: bv8, b6: bv8, b7: bv8)
    ensures ((b1 as bv64) << 8) | (b0 as bv64)
            | ((((b3 as bv64) << 8) | (b2 as bv64) | (((b7 as bv64) << 40) | ((b6 as bv64) << 32))
                | (((b5 as bv64) << 24) | ((b4 as bv64) << 16))) << 16)
         == ((b1 as bv64) << 8) | (b0 as bv64) | (((b7 as bv64) << 56) | ((b6 as bv64) << 48))
            | (((b5 as bv64) << 40) | ((b4 as bv64) << 32)) | (((b3 as bv64) << 24) | ((b2 as bv64) << 16))
  {}

  lemma LengthIsInFirstBytes(x: bv64, y: bv64)
    requires x & 0x7F == y & 0x7F
    ensures InstLength(x) == InstLength(y)
  {
    assert x & 0x3 == (x & 0x7F) & 0x3 && y & 0x3 == (y & 0x7F) & 0x3;
    assert x & 0x1C == (x & 0x7F) & 0x1C && y & 0x1C == (y & 0x7F) & 0x1C;
    assert x & 0x3F == (x & 0x7F) & 0x3F && y & 0x3F == (y & 0x7F) & 0x3F;
  }

  // ----- streams of instructions

  /** A value that is an instruction of the length it announces. */
  predicate IsInstruction(inst: bv64) {
    InstLength(inst) != 0 && FitsIn(inst, InstLength(inst))
  }

  /** The instructions laid out one after the other. */
  function Stream(insts: seq<bv64>): seq<bv8> {
    if insts == [] then [] else Bytes(insts[0], InstLength(insts[0])) + Stream(insts[1..])
  }

  /** Repeated fetching, up to the first place where no whole instruction is left. */
  function FetchAll(data: seq<bv8>): seq<bv64>
    decreases |data|
  {
    if |data| < 2 || LengthAt(data) == 0 || |data| < LengthAt(data) then []
    else [LittleEndian(data[..LengthAt(data)])] + FetchAll(data[LengthAt(data)..])
  }

  lemma FetchFirst(inst: bv64, rest: seq<bv8>)
    requires IsInstruction(inst)
    ensures var data := Bytes(inst, InstLength(inst)) + rest;
      |data| >= 2 && |data| >= InstLength(inst) && LengthAt(data) == InstLength(inst)
      && data[..InstLength(inst)] == Bytes(inst, InstLength(inst)) && LittleEndian(data[..InstLength(inst)]) == inst
  {
    var n := InstLength(inst);
    var data := Bytes(inst, n) + rest;
    BytesLength(inst, n);
    LittleEndianOfBytes(inst, n);
    assert data[..n] == Bytes(inst, n);
    assert data[..2] == Bytes(inst, n)[..2];
    var b := Bytes(inst, n);
    assert b[0] == LowByte(inst);
    TwoBytes(data[..2]);
    FirstByteDecides(b[0], b[1]);
    assert (b[0] as bv64) & 0x7F == inst & 0x7F;
    LengthIsInFirstBytes(LittleEndian(data[..2]), inst);
  }

  lemma FirstByteDecides(low: bv8, high: bv8)
    ensures (((high as bv64) << 8) | (low as bv64)) & 0x7F == (low as bv64) & 0x7F
  {}

  /** The length code is uniquely decodable: fetching over laid-out instructions gives back exactly those. */
  lemma {:induction false} FetchAllOfStream(insts: seq<bv64>)
    requires forall k :: 0 <= k < |insts| ==> IsInstruction(insts[k])
    ensures FetchAll(Stream(insts)) == insts
  {
    if insts != [] {
      FetchFirst(insts[0], Stream(insts[1..]));
      FetchAllOfStream(insts[1..]);
      var data, n := Stream(insts), InstLength(insts[0]);
      assert data[n..] == Stream(insts[1..]);
    }
  }
}
