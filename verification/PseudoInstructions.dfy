/**
 Lifting to pseudo-instructions: the tables of candidates and constraints, and
 the first-match search over them.
*/
module PseudoInstructions {
  import opened Opcodes
  import opened Operands
  import opened Decoding

  datatype Constraint =
    | RdEqRa | RdEqX0 | Rs1EqX0 | Rs2EqX0 | Rs2EqRs1 | Rs1EqRa
    | ImmEqZero | ImmEqN1 | ImmEqP1 | CsrEq(csr: bv32)

  predicate Holds(c: Constraint, o: Operands) {
    match c
    case RdEqRa => o.rd == 1
    case RdEqX0 => o.rd == 0
    case Rs1EqX0 => o.rs1 == 0
    case Rs2EqX0 => o.rs2 == 0
    case Rs2EqRs1 => o.rs2 == o.rs1
    case Rs1EqRa => o.rs1 == 1
    case ImmEqZero => o.imm == 0
    case ImmEqN1 => o.imm == 0xFFFF_FFFF
    case ImmEqP1 => o.imm == 1
    case CsrEq(csr) => o.imm == csr
  }

  predicate AllHold(constraints: seq<Constraint>, o: Operands) {
    forall k :: 0 <= k < |constraints| ==> Holds(constraints[k], o)
  }

  function BranchCandidates(branch: BranchKind): seq<PseudoOp> {
    match branch
    case Beq => [BranchTo(Beqz)]
    case Bne => [BranchTo(Bnez)]
    case Blt => [BranchTo(Bltz), BranchTo(Bgtz), BranchTo(Bgt)]
    case Bge => [BranchTo(Blez), BranchTo(Bgez), BranchTo(Ble)]
    case Bltu => [BranchTo(Bgtu)]
    case Bgeu => [BranchTo(Bleu)]
  }

  function CsrCandidates(csr: CsrKind): seq<PseudoOp> {
    match csr
    case ReadWrite => [WriteFloatCsr(Fcsr), WriteFloatCsr(Frm), WriteFloatCsr(Fflags)]
    case ReadSet =>
      [ReadCounter(Cycle), ReadCounter(Time), ReadCounter(Instret),
       ReadCounterHigh(Cycle), ReadCounterHigh(Time), ReadCounterHigh(Instret),
       ReadFloatCsr(Fcsr), ReadFloatCsr(Frm), ReadFloatCsr(Fflags)]
    case ReadClear => []
  }

  /**
   The pseudo column of the opcode table, in order.  The two entries that lift
   an opcode to itself (jal with rd = ra, jalr with rd = ra and a zero
   immediate) end their lists and change nothing, so they are not listed.
  */
  function Candidates(op: WideOp): seq<PseudoOp> {
    match op
    case Jal => [J]
    case Jalr => [Ret, Jr]
    case Branch(branch) => BranchCandidates(branch)
    case AddImm(Full) => [Nop, Mv]
    case AddImm(Low32) => [SextW]
    case LogicImm(Sltiu) => [Seqz]
    case LogicImm(Xori) => [Not]
    case Arith(Sub, Full) => [Neg]
    case Arith(Sub, Low32) => [Negw]
    case Logic(Slt) => [Sltz, Sgtz]
    case Logic(Sltu) => [Snez]
    case Csr(csr) => CsrCandidates(csr)
    case CsrImm(ReadWrite) => [Fsrmi, Fsflagsi]
    case Fp(FSgnj, fmt) => [FMove(FMv, fmt)]
    case Fp(FSgnjn, fmt) => [FMove(FNeg, fmt)]
    case Fp(FSgnjx, fmt) => [FMove(FAbs, fmt)]
    case _ => []
  }

  function FloatCsrNumber(fcsr: FloatCsrKind): bv32 {
    match fcsr case Fflags => 0x001 case Frm => 0x002 case Fcsr => 0x003
  }

  function CounterNumber(counter: CounterKind): bv32 {
    match counter case Cycle => 0xC00 case Time => 0xC01 case Instret => 0xC02
  }

  /** The upper half of a counter, 0x80 above the counter itself. */
  function HighCounterNumber(counter: CounterKind): bv32 { CounterNumber(counter) + 0x80 }

  /** The constraints of each candidate. */
  function ConstraintsOf(p: PseudoOp): seq<Constraint> {
    match p
    case Nop => [RdEqX0, Rs1EqX0, ImmEqZero]
    case Mv | SextW => [ImmEqZero]
    case Not => [ImmEqN1]
    case Seqz => [ImmEqP1]
    case Neg | Negw | Snez | Sgtz => [Rs1EqX0]
    case Sltz => [Rs2EqX0]
    case FMove(_, _) => [Rs2EqRs1]
    case BranchTo(test) =>
      (match test
       case Beqz | Bnez | Bltz | Bgez => [Rs2EqX0]
       case Bgtz | Blez => [Rs1EqX0]
       case Ble | Bleu | Bgt | Bgtu => [])
    case J => [RdEqX0]
    case Ret => [RdEqX0, Rs1EqRa]
    case Jr => [RdEqX0, ImmEqZero]
    case ReadCounter(counter) => [Rs1EqX0, CsrEq(CounterNumber(counter))]
    case ReadCounterHigh(counter) => [Rs1EqX0, CsrEq(HighCounterNumber(counter))]
    case ReadFloatCsr(fcsr) => [Rs1EqX0, CsrEq(FloatCsrNumber(fcsr))]
    case WriteFloatCsr(fcsr) => [CsrEq(FloatCsrNumber(fcsr))]
    case Fsrmi => [CsrEq(0x002)]
    case Fsflagsi => [CsrEq(0x001)]
  }

  /** The first candidate whose constraints all hold. */
  function FirstMatch(candidates: seq<PseudoOp>, o: Operands): Option<PseudoOp> {
    if candidates == [] then None
    else if AllHold(ConstraintsOf(candidates[0]), o) then Some(candidates[0])
    else FirstMatch(candidates[1..], o)
  }

  function Lift(d: Decoded): Decoded {
    if !d.op.Wide? then d
    else
      match FirstMatch(Candidates(d.op.wide), d.args)
      case Some(p) => d.(op := Pseudo(p), codec := PseudoCodec(p))
      case None => d
  }

  /** Candidate k is the one the search picks. */
  predicate Picks(candidates: seq<PseudoOp>, o: Operands, k: nat) {
    && k < |candidates|
    && AllHold(ConstraintsOf(candidates[k]), o)
    && forall j :: 0 <= j < k ==> !AllHold(ConstraintsOf(candidates[j]), o)
  }

  lemma {:induction false} FirstMatchPicks(candidates: seq<PseudoOp>, o: Operands)
    ensures FirstMatch(candidates, o) == None ==>
              forall j :: 0 <= j < |candidates| ==> !AllHold(ConstraintsOf(candidates[j]), o)
    ensures FirstMatch(candidates, o).Some? ==>
              exists k: nat :: Picks(candidates, o, k) && candidates[k] == FirstMatch(candidates, o).value
  {
    hide AllHold, ConstraintsOf;
    if candidates == [] {
    } else if AllHold(ConstraintsOf(candidates[0]), o) {
      assert Picks(candidates, o, 0);
    } else {
      FirstMatchPicks(candidates[1..], o);
      forall j | 1 <= j < |candidates| ensures candidates[1..][j - 1] == candidates[j] {}
      if FirstMatch(candidates, o).Some? {
        var k: nat :| Picks(candidates[1..], o, k) && candidates[1..][k] == FirstMatch(candidates, o).value;
        assert Picks(candidates, o, k + 1);
      }
    }
  }

  // ----- what a pseudo-instruction stands for

  /** The only opcode that lifts to each pseudo-instruction. */
  function BaseOf(p: PseudoOp): WideOp {
    match p
    case Nop | Mv => AddImm(Full)
    case Not => LogicImm(Xori)
    case Neg => Arith(Sub, Full)
    case Negw => Arith(Sub, Low32)
    case SextW => AddImm(Low32)
    case Seqz => LogicImm(Sltiu)
    case Snez => Logic(Sltu)
    case Sltz | Sgtz => Logic(Slt)
    case FMove(move, fmt) => Fp(match move case FMv => FSgnj case FNeg => FSgnjn case FAbs => FSgnjx, fmt)
    case BranchTo(test) =>
      Branch(match test
             case Beqz => Beq case Bnez => Bne case Bltz | Bgtz | Bgt => Blt
             case Blez | Bgez | Ble => Bge case Bgtu => Bltu case Bleu => Bgeu)
    case J => Jal
    case Ret | Jr => Jalr
    case ReadCounter(_) | ReadCounterHigh(_) | ReadFloatCsr(_) => Csr(ReadSet)
    case WriteFloatCsr(_) => Csr(ReadWrite)
    case Fsrmi | Fsflagsi => CsrImm(ReadWrite)
  }

  /** What the operands satisfy whenever an instruction is lifted to a pseudo-instruction. */
  predicate Condition(p: PseudoOp, o: Operands) {
    match p
    case Nop => o.rd == 0 && o.rs1 == 0 && o.imm == 0
    case Mv | SextW => o.imm == 0
    case Not => o.imm == 0xFFFF_FFFF
    case Seqz => o.imm == 1
    case Neg | Negw | Snez | Sgtz => o.rs1 == 0
    case Sltz => o.rs2 == 0
    case FMove(_, _) => o.rs2 == o.rs1
    case BranchTo(Beqz) | BranchTo(Bnez) | BranchTo(Bltz) | BranchTo(Bgez) => o.rs2 == 0
    case BranchTo(Bgtz) | BranchTo(Blez) => o.rs1 == 0
    case BranchTo(_) => true
    case J => o.rd == 0
    case Ret => o.rd == 0 && o.rs1 == 1
    case Jr => o.rd == 0 && o.imm == 0
    case ReadCounter(counter) => o.rs1 == 0 && o.imm == CounterNumber(counter)
    case ReadCounterHigh(counter) => o.rs1 == 0 && o.imm == HighCounterNumber(counter)
    case ReadFloatCsr(fcsr) => o.rs1 == 0 && o.imm == FloatCsrNumber(fcsr)
    case WriteFloatCsr(fcsr) => o.imm == FloatCsrNumber(fcsr)
    case Fsrmi => o.imm == 0x002
    case Fsflagsi => o.imm == 0x001
  }

  lemma AllHoldUnrolled(cs: seq<Constraint>, o: Operands)
    requires |cs| <= 3
    ensures AllHold(cs, o) <==>
      (|cs| > 0 ==> Holds(cs[0], o)) && (|cs| > 1 ==> Holds(cs[1], o)) && (|cs| > 2 ==> Holds(cs[2], o))
  {
    hide Holds;
  }

  /** The pseudo-instructions that read or write a control and status register. */
  predicate IsCsrPseudo(p: PseudoOp) {
    p.ReadCounter? || p.ReadCounterHigh? || p.ReadFloatCsr? || p.WriteFloatCsr? || p.Fsrmi? || p.Fsflagsi?
  }

  lemma BranchConstraintsMean(test: BranchPseudo, o: Operands)
    ensures AllHold(ConstraintsOf(BranchTo(test)), o) <==> Condition(BranchTo(test), o)
  {
    hide AllHold;
    AllHoldUnrolled(ConstraintsOf(BranchTo(test)), o);
  }

  lemma CsrConstraintsMean(p: PseudoOp, o: Operands)
    requires IsCsrPseudo(p)
    ensures AllHold(ConstraintsOf(p), o) <==> Condition(p, o)
  {
    hide AllHold, CounterNumber, HighCounterNumber, FloatCsrNumber;
    AllHoldUnrolled(ConstraintsOf(p), o);
  }

  lemma PlainConstraintsMean(p: PseudoOp, o: Operands)
    requires !p.BranchTo? && !IsCsrPseudo(p)
    ensures AllHold(ConstraintsOf(p), o) <==> Condition(p, o)
  {
    hide AllHold;
    AllHoldUnrolled(ConstraintsOf(p), o);
  }

  lemma ConstraintsMean(p: PseudoOp, o: Operands)
    ensures AllHold(ConstraintsOf(p), o) <==> Condition(p, o)
  {
    hide AllHold, ConstraintsOf, Condition;
    if p.BranchTo? {
      BranchConstraintsMean(p.test, o);
    } else if IsCsrPseudo(p) {
      CsrConstraintsMean(p, o);
    } else {
      PlainConstraintsMean(p, o);
    }
  }

  lemma CandidatesStandFor(op: WideOp, k: nat)
    requires k < |Candidates(op)|
    ensures BaseOf(Candidates(op)[k]) == op
  {
    match op {
      case Branch(branch) => BranchCandidatesStandFor(branch, k);
      case Csr(csr) => CsrCandidatesStandFor(csr, k);
      case _ =>
    }
  }

  lemma BranchCandidatesStandFor(branch: BranchKind, k: nat)
    requires k < |BranchCandidates(branch)|
    ensures BaseOf(BranchCandidates(branch)[k]) == Branch(branch)
  {}

  lemma CsrCandidatesStandFor(csr: CsrKind, k: nat)
    requires k < |CsrCandidates(csr)|
    ensures BaseOf(CsrCandidates(csr)[k]) == Csr(csr)
  {}

  /** Lifting reaches a pseudo-instruction only from the opcode it stands for, under its condition. */
  lemma LiftedFrom(d: Decoded)
    requires !d.op.Pseudo?
    ensures Lift(d).op.Pseudo? ==>
              d.op == Wide(BaseOf(Lift(d).op.pseudo)) && Condition(Lift(d).op.pseudo, d.args)
    ensures !Lift(d).op.Pseudo? ==> Lift(d) == d
  {
    hide AllHold, ConstraintsOf, Candidates, BaseOf, Condition, FirstMatch;
    if d.op.Wide? {
      var cs := Candidates(d.op.wide);
      FirstMatchPicks(cs, d.args);
      if FirstMatch(cs, d.args).Some? {
        var k: nat :| Picks(cs, d.args, k) && cs[k] == FirstMatch(cs, d.args).value;
        CandidatesStandFor(d.op.wide, k);
        ConstraintsMean(cs[k], d.args);
      }
    }
  }

  /** `ret` is the first candidate of jalr: it is picked whenever its condition holds. */
  lemma JalrToRa(e: Decoded)
    requires e.op == Wide(Jalr) && Condition(Ret, e.args)
    ensures Lift(e).op == Pseudo(Ret)
  {
    ConstraintsMean(Ret, e.args);
    hide ConstraintsOf, Condition, AllHold;
  }

  /** Lifting reaches `ret` from every `jalr x0, imm(ra)`, and from nothing else. */
  lemma ReturnsLift(d: Decoded)
    requires d.op.Wide?
    ensures Lift(d).op == Pseudo(Ret) <==> d.op == Wide(Jalr) && d.args.rd == 0 && d.args.rs1 == 1
  {
    hide Lift;
    LiftedFrom(d);
    if d.op == Wide(Jalr) && Condition(Ret, d.args) {
      JalrToRa(d);
    }
  }

  /** A pseudo-instruction of the same opcode that is printed instead, because its condition holds as well. */
  predicate Preceded(p: PseudoOp, o: Operands) {
    match p
    case Mv => Condition(Nop, o)
    case Jr => Condition(Ret, o)
    case Sgtz => Condition(Sltz, o)
    case BranchTo(Bgtz) => Condition(BranchTo(Bltz), o)
    case BranchTo(Bgt) => Condition(BranchTo(Bltz), o) || Condition(BranchTo(Bgtz), o)
    case BranchTo(Bgez) => Condition(BranchTo(Blez), o)
    case BranchTo(Ble) => Condition(BranchTo(Blez), o) || Condition(BranchTo(Bgez), o)
    case _ => false
  }

  lemma FirstOfOne(p: PseudoOp, o: Operands)
    ensures FirstMatch([p], o) == if Condition(p, o) then Some(p) else None
  {
    hide AllHold, Condition, ConstraintsOf;
    ConstraintsMean(p, o);
    assert [p][1..] == [];
  }

  lemma FirstOfMore(candidates: seq<PseudoOp>, o: Operands)
    requires candidates != []
    ensures FirstMatch(candidates, o) ==
      if Condition(candidates[0], o) then Some(candidates[0]) else FirstMatch(candidates[1..], o)
  {
    hide AllHold, Condition, ConstraintsOf;
    ConstraintsMean(candidates[0], o);
  }

  lemma FirstOfTwo(p: PseudoOp, q: PseudoOp, o: Operands)
    ensures FirstMatch([p, q], o) == if Condition(p, o) then Some(p) else if Condition(q, o) then Some(q) else None
  {
    hide FirstMatch, Condition;
    FirstOfMore([p, q], o);
    assert [p, q][1..] == [q];
    FirstOfOne(q, o);
  }

  lemma FirstOfThree(p: PseudoOp, q: PseudoOp, r: PseudoOp, o: Operands)
    ensures FirstMatch([p, q, r], o) ==
      if Condition(p, o) then Some(p)
      else if Condition(q, o) then Some(q)
      else if Condition(r, o) then Some(r) else None
  {
    hide FirstMatch, Condition;
    FirstOfMore([p, q, r], o);
    assert [p, q, r][1..] == [q, r];
    FirstOfTwo(q, r, o);
  }

  /** p is the pseudo-instruction that the search over the candidates of an opcode should find. */
  predicate Wanted(op: WideOp, o: Operands, p: PseudoOp) {
    op == BaseOf(p) && Condition(p, o) && !Preceded(p, o)
  }

  predicate FindsWanted(op: WideOp, o: Operands, p: PseudoOp) {
    FirstMatch(Candidates(op), o) == Some(p) <==> Wanted(op, o, p)
  }

  lemma BltFound(o: Operands, p: PseudoOp)
    ensures FindsWanted(Branch(Blt), o, p)
  {
    hide FirstMatch;
    FirstOfThree(BranchTo(Bltz), BranchTo(Bgtz), BranchTo(Bgt), o);
  }

  lemma BgeFound(o: Operands, p: PseudoOp)
    ensures FindsWanted(Branch(Bge), o, p)
  {
    hide FirstMatch;
    FirstOfThree(BranchTo(Blez), BranchTo(Bgez), BranchTo(Ble), o);
  }

  lemma EqualitiesFound(branch: BranchKind, o: Operands, p: PseudoOp)
    requires branch == Beq || branch == Bne
    ensures FindsWanted(Branch(branch), o, p)
  {
    hide FirstMatch;
    FirstOfOne(BranchTo(Beqz), o);
    FirstOfOne(BranchTo(Bnez), o);
  }

  lemma UnsignedBranchesFound(branch: BranchKind, o: Operands, p: PseudoOp)
    requires branch == Bltu || branch == Bgeu
    ensures FindsWanted(Branch(branch), o, p)
  {
    hide FirstMatch;
    FirstOfOne(BranchTo(Bgtu), o);
    FirstOfOne(BranchTo(Bleu), o);
  }

  lemma BranchesFound(branch: BranchKind, o: Operands, p: PseudoOp)
    ensures FindsWanted(Branch(branch), o, p)
  {
    hide FindsWanted;
    match branch {
      case Blt => BltFound(o, p);
      case Bge => BgeFound(o, p);
      case Beq | Bne => EqualitiesFound(branch, o, p);
      case Bltu | Bgeu => UnsignedBranchesFound(branch, o, p);
    }
  }

  lemma JumpsFound(op: WideOp, o: Operands, p: PseudoOp)
    requires op.Jal? || op.Jalr?
    ensures FindsWanted(op, o, p)
  {
    hide FirstMatch;
    FirstOfOne(J, o);
    FirstOfTwo(Ret, Jr, o);
  }

  lemma AddImmFound(op: WideOp, o: Operands, p: PseudoOp)
    requires op.AddImm?
    ensures FindsWanted(op, o, p)
  {
    hide FirstMatch;
    FirstOfTwo(Nop, Mv, o);
    FirstOfOne(SextW, o);
    NothingFirst(o);
  }

  lemma LogicImmFound(op: WideOp, o: Operands, p: PseudoOp)
    requires op.LogicImm?
    ensures FindsWanted(op, o, p)
  {
    hide FirstMatch;
    FirstOfOne(Seqz, o);
    FirstOfOne(Not, o);
    NothingFirst(o);
  }

  lemma ArithFound(op: WideOp, o: Operands, p: PseudoOp)
    requires op.Arith?
    ensures FindsWanted(op, o, p)
  {
    hide FirstMatch;
    FirstOfOne(Neg, o);
    FirstOfOne(Negw, o);
    NothingFirst(o);
  }

  lemma LogicFound(op: WideOp, o: Operands, p: PseudoOp)
    requires op.Logic?
    ensures FindsWanted(op, o, p)
  {
    hide FirstMatch;
    FirstOfTwo(Sltz, Sgtz, o);
    FirstOfOne(Snez, o);
    NothingFirst(o);
  }

  lemma NothingFirst(o: Operands)
    ensures FirstMatch([], o) == None
  {}

  lemma FloatMovesFound(op: WideOp, o: Operands, p: PseudoOp)
    requires op.Fp?
    ensures FindsWanted(op, o, p)
  {
    hide FirstMatch;
    FirstOfOne(FMove(FMv, op.fmt), o);
    FirstOfOne(FMove(FNeg, op.fmt), o);
    FirstOfOne(FMove(FAbs, op.fmt), o);
    NothingFirst(o);
  }

  lemma CsrWritesFound(o: Operands, p: PseudoOp)
    ensures FindsWanted(Csr(ReadWrite), o, p)
  {
    hide FirstMatch;
    FirstOfThree(WriteFloatCsr(Fcsr), WriteFloatCsr(Frm), WriteFloatCsr(Fflags), o);
  }

  lemma CsrImmediatesFound(csr: CsrKind, o: Operands, p: PseudoOp)
    ensures FindsWanted(CsrImm(csr), o, p)
  {
    hide FirstMatch;
    FirstOfTwo(Fsrmi, Fsflagsi, o);
    NothingFirst(o);
  }

  lemma CsrClearsFound(o: Operands, p: PseudoOp)
    ensures FindsWanted(Csr(ReadClear), o, p)
  {
    hide Condition, Preceded;
  }

  lemma {:induction false} FirstOfBoth(a: seq<PseudoOp>, b: seq<PseudoOp>, o: Operands)
    ensures FirstMatch(a + b, o) == if FirstMatch(a, o).Some? then FirstMatch(a, o) else FirstMatch(b, o)
  {
    hide AllHold, ConstraintsOf;
    if a == [] {
      assert a + b == b;
    } else {
      assert (a + b)[0] == a[0] && (a + b)[1..] == a[1..] + b;
      FirstOfBoth(a[1..], b, o);
    }
  }

  // which read a CSR number stands for

  function CounterRead(imm: bv32): Option<PseudoOp> {
    match imm
    case 0xC00 => Some(ReadCounter(Cycle)) case 0xC01 => Some(ReadCounter(Time))
    case 0xC02 => Some(ReadCounter(Instret))
    case _ => None
  }

  function HighCounterRead(imm: bv32): Option<PseudoOp> {
    match imm
    case 0xC80 => Some(ReadCounterHigh(Cycle)) case 0xC81 => Some(ReadCounterHigh(Time))
    case 0xC82 => Some(ReadCounterHigh(Instret))
    case _ => None
  }

  function FloatRead(imm: bv32): Option<PseudoOp> {
    match imm
    case 0x003 => Some(ReadFloatCsr(Fcsr)) case 0x002 => Some(ReadFloatCsr(Frm))
    case 0x001 => Some(ReadFloatCsr(Fflags))
    case _ => None
  }

  lemma FirstCounter(o: Operands)
    ensures FirstMatch([ReadCounter(Cycle), ReadCounter(Time), ReadCounter(Instret)], o)
         == if o.rs1 == 0 then CounterRead(o.imm) else None
  {
    hide FirstMatch;
    FirstOfThree(ReadCounter(Cycle), ReadCounter(Time), ReadCounter(Instret), o);
  }

  lemma FirstHighCounter(o: Operands)
    ensures FirstMatch([ReadCounterHigh(Cycle), ReadCounterHigh(Time), ReadCounterHigh(Instret)], o)
         == if o.rs1 == 0 then HighCounterRead(o.imm) else None
  {
    hide FirstMatch;
    FirstOfThree(ReadCounterHigh(Cycle), ReadCounterHigh(Time), ReadCounterHigh(Instret), o);
  }

  lemma FirstFloatRead(o: Operands)
    ensures FirstMatch([ReadFloatCsr(Fcsr), ReadFloatCsr(Frm), ReadFloatCsr(Fflags)], o)
         == if o.rs1 == 0 then FloatRead(o.imm) else None
  {
    hide FirstMatch;
    FirstOfThree(ReadFloatCsr(Fcsr), ReadFloatCsr(Frm), ReadFloatCsr(Fflags), o);
  }

  function ReadOf(imm: bv32): Option<PseudoOp> {
    if CounterRead(imm).Some? then CounterRead(imm)
    else if HighCounterRead(imm).Some? then HighCounterRead(imm)
    else FloatRead(imm)
  }

  lemma FirstRead(o: Operands)
    ensures FirstMatch(CsrCandidates(ReadSet), o) == if o.rs1 == 0 then ReadOf(o.imm) else None
  {
    hide FirstMatch, CounterRead, HighCounterRead, FloatRead;
    var counters := [ReadCounter(Cycle), ReadCounter(Time), ReadCounter(Instret)];
    var high := [ReadCounterHigh(Cycle), ReadCounterHigh(Time), ReadCounterHigh(Instret)];
    var floats := [ReadFloatCsr(Fcsr), ReadFloatCsr(Frm), ReadFloatCsr(Fflags)];
    assert CsrCandidates(ReadSet) == counters + (high + floats);
    FirstOfBoth(counters, high + floats, o);
    FirstOfBoth(high, floats, o);
    FirstCounter(o);
    FirstHighCounter(o);
    FirstFloatRead(o);
  }

  lemma ReadsApart(imm: bv32)
    ensures CounterRead(imm).Some? ==>
      HighCounterRead(imm) == FloatRead(imm) == None && CounterRead(imm).value.ReadCounter?
    ensures HighCounterRead(imm).Some? ==> FloatRead(imm) == None && HighCounterRead(imm).value.ReadCounterHigh?
    ensures FloatRead(imm).Some? ==> FloatRead(imm).value.ReadFloatCsr?
  {}

  lemma CounterNumbers(counter: CounterKind, imm: bv32)
    ensures imm == CounterNumber(counter) <==> CounterRead(imm) == Some(ReadCounter(counter))
    ensures imm == HighCounterNumber(counter) <==> HighCounterRead(imm) == Some(ReadCounterHigh(counter))
  {}

  lemma FloatCsrNumbers(fcsr: FloatCsrKind, imm: bv32)
    ensures imm == FloatCsrNumber(fcsr) <==> FloatRead(imm) == Some(ReadFloatCsr(fcsr))
  {}

  lemma CounterWanted(o: Operands, counter: CounterKind)
    ensures Wanted(Csr(ReadSet), o, ReadCounter(counter)) <==> o.rs1 == 0 && o.imm == CounterNumber(counter)
    ensures Wanted(Csr(ReadSet), o, ReadCounterHigh(counter)) <==> o.rs1 == 0 && o.imm == HighCounterNumber(counter)
  {
    hide CounterNumber, HighCounterNumber;
  }

  lemma FloatReadWanted(o: Operands, fcsr: FloatCsrKind)
    ensures Wanted(Csr(ReadSet), o, ReadFloatCsr(fcsr)) <==> o.rs1 == 0 && o.imm == FloatCsrNumber(fcsr)
  {
    hide FloatCsrNumber;
  }

  lemma OnlyReadsWanted(o: Operands, p: PseudoOp)
    requires !p.ReadCounter? && !p.ReadCounterHigh? && !p.ReadFloatCsr?
    ensures !Wanted(Csr(ReadSet), o, p)
  {
    hide Condition, Preceded;
  }

  lemma ReadWanted(o: Operands, p: PseudoOp)
    ensures Wanted(Csr(ReadSet), o, p) <==> o.rs1 == 0 && ReadOf(o.imm) == Some(p)
  {
    hide CounterRead, HighCounterRead, FloatRead, CounterNumber, HighCounterNumber, FloatCsrNumber, Wanted;
    ReadsApart(o.imm);
    match p {
      case ReadCounter(counter) =>
        CounterNumbers(counter, o.imm);
        CounterWanted(o, counter);
      case ReadCounterHigh(counter) =>
        CounterNumbers(counter, o.imm);
        CounterWanted(o, counter);
      case ReadFloatCsr(fcsr) =>
        FloatCsrNumbers(fcsr, o.imm);
        FloatReadWanted(o, fcsr);
      case _ => OnlyReadsWanted(o, p);
    }
  }

  lemma CsrReadsFound(o: Operands, p: PseudoOp)
    ensures FindsWanted(Csr(ReadSet), o, p)
  {
    hide FirstMatch, Wanted, ReadOf, CsrCandidates;
    FirstRead(o);
    ReadWanted(o, p);
  }

  lemma OthersFound(op: WideOp, o: Operands, p: PseudoOp)
    requires !op.Jal? && !op.Jalr? && !op.Branch? && !op.AddImm? && !op.LogicImm? && !op.Arith? && !op.Logic?
    requires !op.Fp? && !op.Csr? && !op.CsrImm?
    ensures FindsWanted(op, o, p)
  {
    hide Condition, Preceded;
  }

  lemma WantedIsFound(op: WideOp, o: Operands, p: PseudoOp)
    ensures FindsWanted(op, o, p)
  {
    hide FindsWanted;
    match op {
      case Jal | Jalr => JumpsFound(op, o, p);
      case Branch(branch) => BranchesFound(branch, o, p);
      case AddImm(_) => AddImmFound(op, o, p);
      case LogicImm(_) => LogicImmFound(op, o, p);
      case Arith(_, _) => ArithFound(op, o, p);
      case Logic(_) => LogicFound(op, o, p);
      case Fp(_, _) => FloatMovesFound(op, o, p);
      case Csr(ReadWrite) => CsrWritesFound(o, p);
      case Csr(ReadSet) => CsrReadsFound(o, p);
      case Csr(ReadClear) => CsrClearsFound(o, p);
      case CsrImm(csr) => CsrImmediatesFound(csr, o, p);
      case _ => OthersFound(op, o, p);
    }
  }

  /**
   Lifting reaches each pseudo-instruction from exactly the opcode it stands for,
   under its condition, unless one that precedes it applies as well.
  */
  lemma LiftsExactly(d: Decoded, p: PseudoOp)
    requires !d.op.Pseudo?
    ensures Lift(d).op == Pseudo(p) <==>
      d.op == Wide(BaseOf(p)) && Condition(p, d.args) && !Preceded(p, d.args)
  {
    hide Candidates, Condition, Preceded, BaseOf, FirstMatch;
    if d.op.Wide? {
      WantedIsFound(d.op.wide, d.args, p);
    }
  }

  /** The pseudo-instruction that is printed when the condition of p holds. */
  function Printed(p: PseudoOp, o: Operands): PseudoOp {
    match p
    case Mv => if Condition(Nop, o) then Nop else p
    case Jr => if Condition(Ret, o) then Ret else p
    case Sgtz => if Condition(Sltz, o) then Sltz else p
    case BranchTo(Bgtz) => if Condition(BranchTo(Bltz), o) then BranchTo(Bltz) else p
    case BranchTo(Bgt) =>
      if Condition(BranchTo(Bltz), o) then BranchTo(Bltz)
      else if Condition(BranchTo(Bgtz), o) then BranchTo(Bgtz) else p
    case BranchTo(Bgez) => if Condition(BranchTo(Blez), o) then BranchTo(Blez) else p
    case BranchTo(Ble) =>
      if Condition(BranchTo(Blez), o) then BranchTo(Blez)
      else if Condition(BranchTo(Bgez), o) then BranchTo(Bgez) else p
    case _ => p
  }

  lemma PrintedIsWanted(p: PseudoOp, o: Operands)
    requires Condition(p, o)
    ensures Wanted(BaseOf(p), o, Printed(p, o))
  {
    hide Condition;
  }

  /** Whatever meets the condition of a pseudo-instruction of its opcode is lifted, to the one that precedes. */
  lemma LiftsWheneverPossible(d: Decoded, p: PseudoOp)
    requires d.op == Wide(BaseOf(p)) && Condition(p, d.args)
    ensures Lift(d).op == Pseudo(Printed(p, d.args))
  {
    hide Lift, Printed, Condition, Preceded, BaseOf;
    PrintedIsWanted(p, d.args);
    LiftsExactly(d, Printed(p, d.args));
  }

  /** Lifting picks the least candidate that holds, and leaves the record alone when none does. */
  lemma LiftPicksFirst(d: Decoded)
    requires d.op.Wide?
    ensures (Lift(d) == d
               && forall j :: 0 <= j < |Candidates(d.op.wide)| ==> !Condition(Candidates(d.op.wide)[j], d.args))
         || (exists k: nat :: k < |Candidates(d.op.wide)| && Lift(d).op == Pseudo(Candidates(d.op.wide)[k])
               && Condition(Candidates(d.op.wide)[k], d.args)
               && forall j :: 0 <= j < k ==> !Condition(Candidates(d.op.wide)[j], d.args))
  {
    hide AllHold, ConstraintsOf, Candidates, Condition, FirstMatch;
    var cs := Candidates(d.op.wide);
    FirstMatchPicks(cs, d.args);
    forall j | 0 <= j < |cs| ensures AllHold(ConstraintsOf(cs[j]), d.args) <==> Condition(cs[j], d.args) {
      ConstraintsMean(cs[j], d.args);
    }
    if FirstMatch(cs, d.args).Some? {
      var k: nat :| Picks(cs, d.args, k) && cs[k] == FirstMatch(cs, d.args).value;
      assert Lift(d).op == Pseudo(cs[k]);
    }
  }

  lemma BaseKeepsCodec(p: PseudoOp)
    ensures WideCodec(BaseOf(p)) == PseudoCodec(p)
  {}

  /** Lifting keeps everything but the opcode: address, word, operands, and the codec of the base instruction. */
  lemma LiftKeepsTheRest(d: Decoded)
    requires !d.op.Pseudo? && (d.op.Wide? ==> d.codec == CodecOf(d.op))
    ensures Lift(d) == d.(op := Lift(d).op)
  {
    hide FirstMatch, Candidates, BaseOf, PseudoCodec, WideCodec;
    LiftedFrom(d);
    if Lift(d).op.Pseudo? {
      BaseKeepsCodec(Lift(d).op.pseudo);
    }
  }

  lemma LiftIdempotent(d: Decoded)
    ensures Lift(Lift(d)) == Lift(d)
  {}
}
