/**
 The classes of a trace against the disassembler: which instructions the trace
 model takes for jumps and branches, and what that makes a program cost.
*/
module TraceClasses {
  import opened Opcodes
  import opened OpcodeDecoder
  import opened Words
  import opened Traces

  predicate IsJumpOpcode(op: Op) { op == Wide(Jal) || op == Wide(Jalr) }

  predicate IsBranchOpcode(op: Op) { op.Wide? && op.wide.Branch? }

  /** The opcodes by the lowest seven bits of the word. */
  lemma JumpsByLowBits(w: bv64, isa: Isa)
    requires OpcodeOf(w, isa) != Illegal
    ensures w & 0x7F == 0x6F || w & 0x7F == 0x67 <==> IsJumpOpcode(OpcodeOf(w, isa))
  {
    LowBits(w);
    hide Major;
  }

  lemma BranchesByLowBits(w: bv64, isa: Isa)
    requires OpcodeOf(w, isa) != Illegal
    ensures w & 0x7F == 0x63 <==> IsBranchOpcode(OpcodeOf(w, isa))
  {
    LowBits(w);
    hide Major;
  }

  lemma LowBits(w: bv64)
    ensures w & 0x7F == 0x6F <==> w & 0x3 == 3 && Major(w) == 27
    ensures w & 0x7F == 0x67 <==> w & 0x3 == 3 && Major(w) == 25
    ensures w & 0x7F == 0x63 <==> w & 0x3 == 3 && Major(w) == 24
  {}

  lemma SmallNumbers(b: bv64)
    ensures Number(b) == 0x6F <==> b == 0x6F
    ensures Number(b) == 0x67 <==> b == 0x67
    ensures Number(b) == 0x63 <==> b == 0x63
  {
    hide Number;
    OpcodeNumbers();
    if Number(b) == 0x6F {
      NumberInjective(b, 0x6F);
    } else if Number(b) == 0x67 {
      NumberInjective(b, 0x67);
    } else if Number(b) == 0x63 {
      NumberInjective(b, 0x63);
    }
  }

  lemma OpcodeNumbers()
    ensures Number(0x6F) == 0x6F && Number(0x67) == 0x67 && Number(0x63) == 0x63
  {}

  /** The trace model's jumps are jal and jalr, and its branches the conditional branches, for every legal word. */
  lemma ClassesAreOpcodes(w: bv64, isa: Isa)
    requires OpcodeOf(w, isa) != Illegal
    ensures IsJump(w as int) <==> IsJumpOpcode(OpcodeOf(w, isa))
    ensures IsBranch(w as int) <==> IsBranchOpcode(OpcodeOf(w, isa))
  {
    hide OpcodeOf, IsJumpOpcode, IsBranchOpcode;
    JumpsByLowBits(w, isa);
    BranchesByLowBits(w, isa);
    SmallNumbers(w & 0x7F);
    LowestSevenBits(w);
  }

  // ----- the cost of a program

  /** The lines hold the words of a program, all of them legal. */
  predicate HoldWords(lines: seq<Line>, words: seq<bv64>, isa: Isa) {
    && |lines| == |words|
    && forall k :: 0 <= k < |words| ==> lines[k].content == words[k] as int && OpcodeOf(words[k], isa) != Illegal
  }

  function JumpWords(words: seq<bv64>, isa: Isa): nat {
    if words == [] then 0 else JumpWords(words[1..], isa) + if IsJumpOpcode(OpcodeOf(words[0], isa)) then 1 else 0
  }

  /** The branches that are followed by another address than the next word. */
  function TakenBranchWords(lines: seq<Line>, words: seq<bv64>, isa: Isa): nat
    requires |lines| == |words|
  {
    if |lines| <= 1 then 0
    else
      TakenBranchWords(lines[1..], words[1..], isa)
      + if IsBranchOpcode(OpcodeOf(words[0], isa)) && lines[1].pc != lines[0].pc + 4 then 1 else 0
  }

  lemma ParsedTail(lines: seq<Line>)
    requires lines != []
    ensures Parsed(lines)[1..] == Parsed(lines[1..])
    ensures Parsed(lines)[0].content == lines[0].content && |Parsed(lines)| == |lines|
    ensures forall k :: 0 <= k < |lines| ==> Parsed(lines)[k].pc == lines[k].pc
  {}

  lemma {:induction false} CountedByOpcode(lines: seq<Line>, words: seq<bv64>, isa: Isa)
    requires HoldWords(lines, words, isa)
    ensures JumpNum(Parsed(lines)) == JumpWords(words, isa)
    ensures TakenBranches(Parsed(lines)) == TakenBranchWords(lines, words, isa)
  {
    hide Parsed, OpcodeOf, IsJump, IsBranch;
    if lines == [] {
      NoneParsed();
    } else {
      ParsedTail(lines);
      ClassesAreOpcodes(words[0], isa);
      CountedByOpcode(lines[1..], words[1..], isa);
    }
  }

  lemma NoneParsed()
    ensures Parsed([]) == []
  {}

  /** A program costs a cycle for each instruction, and another for each jal, jalr and branch that jumps away. */
  lemma CostOfProgram(lines: seq<Line>, words: seq<bv64>, isa: Isa)
    requires HoldWords(lines, words, isa)
    ensures TotalCost(Annotated(Parsed(lines))) ==
      |lines| + JumpWords(words, isa) + TakenBranchWords(lines, words, isa)
  {
    hide HoldWords, TotalCost, Annotated, Parsed, OpcodeOf;
    CostOfTrace(lines);
    CountedByOpcode(lines, words, isa);
  }
}
