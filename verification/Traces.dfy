/**
 Execution traces: marking where control flow was taken, and the cost that is
 charged for each class of instruction.
*/
module Traces {

  /** What a trace line holds. */
  datatype Line = Line(pc: nat, content: nat, cycle: nat)

  /** The value of an instruction object. */
  datatype Record = Record(pc: nat, content: nat, taken: bool, target: nat)

  function Opcode(content: nat): nat { content % 128 }

  predicate IsBranch(content: nat) { Opcode(content) == 0x63 }

  predicate IsJump(content: nat) { Opcode(content) == 0x6F || Opcode(content) == 0x67 }

  predicate IsJumpOrBranch(content: nat) { IsBranch(content) || IsJump(content) }

  class Instruction {
    var pc: nat
    var content: nat
    var cycle: nat
    var jbOccurred: bool
    var pjb: bool
    var targetPc: nat

    constructor (line: Line)
      ensures pc == line.pc && content == line.content && cycle == line.cycle
      ensures !jbOccurred && !pjb && targetPc == 0
    {
      pc, content, cycle := line.pc, line.content, line.cycle;
      jbOccurred, pjb, targetPc := false, false, 0;
    }

    function View(): Record
      reads this`pc, this`content, this`jbOccurred, this`targetPc
    {
      Record(pc, content, jbOccurred, targetPc)
    }
  }

  function Views(s: seq<Instruction>): (r: seq<Record>)
    reads s`pc, s`content, s`jbOccurred, s`targetPc
    ensures |r| == |s| && forall k :: 0 <= k < |s| ==> r[k] == s[k].View()
  {
    if s == [] then [] else Views(s[..|s| - 1]) + [s[|s| - 1].View()]
  }

  predicate Distinct(s: seq<Instruction>) {
    forall j, k :: 0 <= j < k < |s| ==> s[j] != s[k]
  }

  // ----- marking

  function Parsed(lines: seq<Line>): seq<Record> {
    seq(|lines|, k requires 0 <= k < |lines| => Record(lines[k].pc, lines[k].content, false, 0))
  }

  /** A record followed by one at address next: marked as taken unless that is the next word. */
  function Marked(r: Record, next: nat): Record {
    if r.pc + 4 != next then r.(taken := true, target := next) else r
  }

  /** Every record but the last marked by its successor. */
  function Annotated(s: seq<Record>): seq<Record> {
    seq(|s|, k requires 0 <= k < |s| => if k + 1 < |s| then Marked(s[k], s[k + 1].pc) else s[k])
  }

  // ----- classes of instructions and their costs

  function NormalNum(s: seq<Record>): nat {
    if s == [] then 0 else NormalNum(s[1..]) + if !IsJumpOrBranch(s[0].content) then 1 else 0
  }

  function JumpNum(s: seq<Record>): nat {
    if s == [] then 0 else JumpNum(s[1..]) + if IsJump(s[0].content) then 1 else 0
  }

  function BranchNum(s: seq<Record>): nat {
    if s == [] then 0 else BranchNum(s[1..]) + if IsBranch(s[0].content) then 1 else 0
  }

  function BranchOccurNum(s: seq<Record>): nat {
    if s == [] then 0 else BranchOccurNum(s[1..]) + if IsBranch(s[0].content) && s[0].taken then 1 else 0
  }

  function BranchNotOccurNum(s: seq<Record>): nat {
    if s == [] then 0 else BranchNotOccurNum(s[1..]) + if IsBranch(s[0].content) && !s[0].taken then 1 else 0
  }

  function TotalCost(s: seq<Record>): nat {
    1 * NormalNum(s) + 2 * JumpNum(s) + 2 * BranchOccurNum(s) + 1 * BranchNotOccurNum(s)
  }

  class Trace {
    var instructions: seq<Instruction>

    ghost predicate Valid()
      reads this
    {
      Distinct(instructions)
    }

    function View(): seq<Record>
      reads this`instructions, instructions`pc, instructions`content, instructions`jbOccurred, instructions`targetPc
    {
      Views(instructions)
    }

    constructor (lines: seq<Line>)
      ensures Valid() && View() == Annotated(Parsed(lines))
      ensures fresh(instructions) && forall k :: 0 <= k < |instructions| ==> !instructions[k].pjb
    {
      instructions := [];
      new;
      ParseFile(lines);
      StateUpdate();
    }

    /** One instruction object for each line, in order. */
    method ParseFile(lines: seq<Line>)
      requires instructions == []
      modifies this
      ensures Valid() && View() == Parsed(lines) && fresh(instructions)
      ensures forall k :: 0 <= k < |instructions| ==> !instructions[k].pjb
    {
      var i := 0;
      while i < |lines|
        invariant 0 <= i <= |lines| && |instructions| == i
        invariant fresh(instructions) && Distinct(instructions)
        invariant forall k :: 0 <= k < i ==> instructions[k].View() == Parsed(lines)[k] && !instructions[k].pjb
      {
        var inst := new Instruction(lines[i]);
        assert inst.View() == Parsed(lines)[i];
        instructions := instructions + [inst];
        i := i + 1;
      }
      assert View() == Parsed(lines);
    }

    /** Marks every instruction but the last by its successor. */
    method StateUpdate()
      requires Valid()
      modifies instructions`jbOccurred, instructions`targetPc
      ensures instructions == old(instructions)
      ensures View() == Annotated(old(View()))
    {
      ghost var before := View();
      var instNum := |instructions|;
      var i := 0;
      while i < instNum - 1
        invariant 0 <= i && (i == 0 || i < instNum)
        invariant instructions == old(instructions)
        invariant forall k :: 0 <= k < i ==> instructions[k].View() == Marked(before[k], before[k + 1].pc)
        invariant forall k :: i <= k < instNum ==> instructions[k].View() == before[k]
      {
        if instructions[i].pc + 4 != instructions[i + 1].pc {
          instructions[i].jbOccurred := true;
          instructions[i].targetPc := instructions[i + 1].pc;
        }
        i := i + 1;
      }
      assert View() == Annotated(before);
    }
  }

  // ----- annotation is lossless

  function Pcs(s: seq<Record>): (r: seq<nat>)
    ensures |r| == |s| && forall k :: 0 <= k < |s| ==> r[k] == s[k].pc
  {
    if s == [] then [] else [s[0].pc] + Pcs(s[1..])
  }

  /** The addresses that follow from a first address and the marks of the instructions before the last. */
  function Followed(first: nat, marks: seq<Record>): seq<nat>
    decreases marks
  {
    if marks == [] then [first]
    else [first] + Followed(if marks[0].taken then marks[0].target else first + 4, marks[1..])
  }

  /** No record is marked yet. */
  predicate Unmarked(s: seq<Record>) {
    forall k :: 0 <= k < |s| ==> !s[k].taken && s[k].target == 0
  }

  lemma AnnotatedTail(s: seq<Record>)
    requires |s| > 1
    ensures Annotated(s)[0] == Marked(s[0], s[1].pc)
    ensures Annotated(s)[1..] == Annotated(s[1..])
  {}

  /** Rebuilding the addresses from the first one, the marks and the targets gives back the trace. */
  lemma {:induction false} AnnotationIsLossless(s: seq<Record>)
    requires |s| > 0 && Unmarked(s)
    ensures Followed(s[0].pc, Annotated(s)[..|s| - 1]) == Pcs(s)
  {
    hide Annotated;
    if |s| == 1 {
      assert Annotated(s)[..0] == [];
    } else {
      AnnotatedTail(s);
      assert |Annotated(s)| == |s| by { AnnotatedLength(s); }
      var marks := Annotated(s)[..|s| - 1];
      assert marks[1..] == Annotated(s)[1..][..|s| - 2];
      assert marks[0] == Annotated(s)[0];
      AnnotationIsLossless(s[1..]);
    }
  }

  lemma AnnotatedLength(s: seq<Record>)
    ensures |Annotated(s)| == |s|
  {}

  /** A mark says exactly where control does not fall through; the last record is never marked. */
  lemma MarksAreExact(s: seq<Record>, k: nat)
    requires Unmarked(s) && k < |s|
    ensures var r := Annotated(s)[k];
      && r.pc == s[k].pc && r.content == s[k].content
      && (r.taken <==> k + 1 < |s| && s[k + 1].pc != s[k].pc + 4)
      && r.target == (if r.taken then s[k + 1].pc else 0)
  {}

  // ----- cost is conserved

  /** Every instruction is in exactly one of the four cost classes. */
  lemma {:induction false} ClassesPartition(s: seq<Record>)
    ensures NormalNum(s) + JumpNum(s) + BranchOccurNum(s) + BranchNotOccurNum(s) == |s|
    ensures BranchOccurNum(s) + BranchNotOccurNum(s) == BranchNum(s)
  {
    if s != [] {
      ClassesPartition(s[1..]);
    }
  }

  /** The cost is one cycle for each instruction and one more for each jump and each taken branch. */
  lemma CostIsConserved(s: seq<Record>)
    ensures TotalCost(s) == |s| + JumpNum(s) + BranchOccurNum(s)
    ensures |s| <= TotalCost(s) <= 2 * |s|
  {
    ClassesPartition(s);
  }

  /** The branches that are not followed by the next word. */
  function TakenBranches(s: seq<Record>): nat {
    if |s| <= 1 then 0
    else TakenBranches(s[1..]) + if IsBranch(s[0].content) && s[1].pc != s[0].pc + 4 then 1 else 0
  }

  lemma {:induction false} BranchOccurCountsJumpsAway(s: seq<Record>)
    requires Unmarked(s)
    ensures BranchOccurNum(Annotated(s)) == TakenBranches(s)
  {
    hide Annotated, IsBranch;
    AnnotatedLength(s);
    if |s| == 1 {
      MarksAreExact(s, 0);
      assert Annotated(s)[1..] == [];
    } else if |s| > 1 {
      AnnotatedTail(s);
      BranchOccurCountsJumpsAway(s[1..]);
    }
  }

  lemma {:induction false} MarkingKeepsClasses(s: seq<Record>)
    ensures JumpNum(Annotated(s)) == JumpNum(s) && NormalNum(Annotated(s)) == NormalNum(s)
  {
    hide Annotated, IsJump, IsJumpOrBranch;
    AnnotatedLength(s);
    if |s| == 1 {
      assert Annotated(s) == s by { SingleIsUnmarked(s); }
    } else if |s| > 1 {
      AnnotatedTail(s);
      MarkingKeepsClasses(s[1..]);
    }
  }

  lemma SingleIsUnmarked(s: seq<Record>)
    requires |s| == 1
    ensures Annotated(s) == s
  {}

  /** What the report charges for a parsed trace, in terms of the lines alone. */
  lemma CostOfTrace(lines: seq<Line>)
    ensures TotalCost(Annotated(Parsed(lines))) == |lines| + JumpNum(Parsed(lines)) + TakenBranches(Parsed(lines))
  {
    hide Annotated;
    var s := Parsed(lines);
    AnnotatedLength(s);
    CostIsConserved(Annotated(s));
    MarkingKeepsClasses(s);
    BranchOccurCountsJumpsAway(s);
  }
}
