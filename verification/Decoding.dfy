/** The decode record and the stages that fill it, up to decompression. */
module Decoding {
  import opened Opcodes
  import opened OpcodeDecoder
  import opened Operands

  /** The decode record. */
  datatype Decoded = Decoded(pc: bv64, inst: bv64, op: Op, codec: Codec, args: Operands)

  /** A record that holds an address and a word and is zero otherwise. */
  function Start(pc: bv64, inst: bv64): Decoded {
    Decoded(pc, inst, Illegal, CodecIllegal, NO_OPERANDS)
  }

  function WithOpcode(d: Decoded, isa: Isa): Decoded {
    d.(op := OpcodeOf(d.inst, isa))
  }

  function WithOperands(d: Decoded): Decoded {
    d.(codec := CodecOf(d.op), args := OperandsOf(CodecOf(d.op), d.inst, d.args))
  }

  function Decompress(d: Decoded, isa: Isa): Decoded {
    match d.op
    case Compressed(short) =>
      (match DecompressesTo(short, isa)
       case Some(wide) =>
         if NeedsNonZeroImm(short) && d.args.imm == 0 then d.(op := Illegal)
         else d.(op := Wide(wide), codec := WideCodec(wide))
       case None => d)
    case _ => d
  }

  /** Opcode and operands of a word. */
  function Decode(pc: bv64, inst: bv64, isa: Isa): Decoded {
    WithOperands(WithOpcode(Start(pc, inst), isa))
  }

  /** Opcode and operands of a word, decompressed. */
  function Expand(pc: bv64, inst: bv64, isa: Isa): Decoded {
    Decompress(Decode(pc, inst, isa), isa)
  }
}
