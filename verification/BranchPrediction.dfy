/**
 The branch predictor model: a saturating counter with the target of the last
 taken jump or branch, scored over a trace.
*/
module BranchPrediction {
  import opened Traces

  /** The value of a predictor object. */
  datatype Predictor = Predictor(pc: nat, cnt: int, predictNum: nat, predictSuccessNum: nat)

  const INITIAL_PREDICTOR := Predictor(0, 0, 0, 0)

  predicate PredictsTaken(p: Predictor) { p.cnt >= 0 }

  function CountUp(cnt: int): int { if cnt <= 2 then cnt + 1 else cnt }

  function CountDown(cnt: int): int { if cnt >= -1 then cnt - 1 else cnt }

  function Updated(p: Predictor, taken: bool, target: nat): Predictor {
    if taken then p.(pc := target, cnt := CountUp(p.cnt)) else p.(cnt := CountDown(p.cnt))
  }

  class BranchPredictor {
    var pc: nat
    var cnt: int
    var predictNum: nat
    var predictSuccessNum: nat

    function View(): Predictor
      reads this
    {
      Predictor(pc, cnt, predictNum, predictSuccessNum)
    }

    constructor ()
      ensures View() == INITIAL_PREDICTOR
    {
      pc, cnt, predictNum, predictSuccessNum := 0, 0, 0, 0;
    }

    method Success()
      modifies this`predictSuccessNum
      ensures predictSuccessNum == old(predictSuccessNum) + 1
    {
      predictSuccessNum := predictSuccessNum + 1;
    }

    /** A taken jump or branch sets the target and counts up to 3; another counts down to -2. */
    method Update(isJump: bool, targetPc: nat)
      modifies this`pc, this`cnt
      ensures View() == Updated(old(View()), isJump, targetPc)
    {
      if isJump {
        pc := targetPc;
        if cnt <= 2 {
          cnt := cnt + 1;
        }
      } else {
        if cnt >= -1 {
          cnt := cnt - 1;
        }
      }
    }

    /** Every prediction is counted, also when the same instruction is predicted again. */
    method PredictJump() returns (taken: bool)
      modifies this`predictNum
      ensures taken == PredictsTaken(old(View()))
      ensures predictNum == old(predictNum) + 1
    {
      predictNum := predictNum + 1;
      taken := cnt >= 0;
    }

    method PredictPc() returns (target: nat)
      ensures target == pc
    {
      target := pc;
    }
  }

  // ----- scoring a trace

  predicate Succeeds(p: Predictor, r: Record) {
    PredictsTaken(p) == r.taken && p.pc == r.target
  }

  /** The predictor after scoring one instruction, which asks for two predictions. */
  function Scored(p: Predictor, r: Record): Predictor {
    if !IsJumpOrBranch(r.content) then p
    else
      var q := p.(predictNum := p.predictNum + 2,
                  predictSuccessNum := p.predictSuccessNum + if Succeeds(p, r) then 1 else 0);
      Updated(q, r.taken, r.target)
  }

  /** The predictor after scoring a trace. */
  function Run(p: Predictor, s: seq<Record>): Predictor {
    if s == [] then p else Scored(Run(p, s[..|s| - 1]), s[|s| - 1])
  }

  /** The direction that scoring leaves in an instruction: that predicted for a jump or branch, else what was there. */
  function LeftPrediction(p: Predictor, r: Record, before: bool): bool {
    if IsJumpOrBranch(r.content) then PredictsTaken(p) else before
  }

  method Score(inst: Instruction, predictor: BranchPredictor)
    modifies inst`pjb, predictor
    ensures predictor.View() == Scored(old(predictor.View()), inst.View())
    ensures predictor.predictSuccessNum == old(predictor.predictSuccessNum)
      + if IsJumpOrBranch(inst.content) && (old(predictor.cnt) >= 0 <==> inst.jbOccurred)
           && old(predictor.pc) == inst.targetPc then 1 else 0
    ensures inst.pjb == LeftPrediction(old(predictor.View()), inst.View(), old(inst.pjb))
  {
    if IsJumpOrBranch(inst.content) {
      var first := predictor.PredictJump();
      inst.pjb := first;
      var second := predictor.PredictJump();
      var target := predictor.PredictPc();
      if second == inst.jbOccurred && target == inst.targetPc {
        predictor.Success();
      }
      predictor.Update(inst.jbOccurred, inst.targetPc);
    }
  }

  /** Scores the instructions in order. */
  method ScoreTrace(instructions: seq<Instruction>, predictor: BranchPredictor)
    requires Distinct(instructions)
    modifies instructions`pjb, predictor
    ensures predictor.View() == Run(old(predictor.View()), Views(instructions))
    ensures forall k :: 0 <= k < |instructions| ==>
      instructions[k].pjb == LeftPrediction(
        Run(old(predictor.View()), Views(instructions)[..k]), Views(instructions)[k], old(instructions[k].pjb))
  {
    hide Scored, LeftPrediction, Run;
    ghost var start := predictor.View();
    ghost var views := Views(instructions);
    var i := 0;
    NothingRun(start, views[..0]);
    while i < |instructions|
      invariant 0 <= i <= |instructions|
      invariant predictor.View() == Run(start, views[..i])
      invariant forall k :: 0 <= k < i ==>
        instructions[k].pjb == LeftPrediction(Run(start, views[..k]), views[k], old(instructions[k].pjb))
      invariant forall k :: i <= k < |instructions| ==> instructions[k].pjb == old(instructions[k].pjb)
    {
      Score(instructions[i], predictor);
      RunStep(start, views, i);
      i := i + 1;
    }
    assert views[..|instructions|] == views;
  }

  lemma NothingRun(p: Predictor, s: seq<Record>)
    requires s == []
    ensures Run(p, s) == p
  {}

  lemma RunStep(p: Predictor, s: seq<Record>, i: nat)
    requires i < |s|
    ensures Run(p, s[..i + 1]) == Scored(Run(p, s[..i]), s[i])
  {
    hide Scored;
    assert s[..i + 1][..i] == s[..i];
  }

  /**
   Parses, marks and scores a trace with a new predictor.  Each jump or branch is
   left with the direction that was predicted for it, every other instruction
   with none.
  */
  method Evaluate(lines: seq<Line>) returns (trace: Trace, predictor: BranchPredictor)
    ensures trace.Valid() && trace.View() == Annotated(Parsed(lines))
    ensures predictor.View() == Run(INITIAL_PREDICTOR, Annotated(Parsed(lines)))
    ensures Predictions(trace.instructions) == Predicted(Annotated(Parsed(lines)), |trace.instructions|)
  {
    hide Annotated, Run, Parsed, Distinct, Views;
    trace := new Trace(lines);
    predictor := new BranchPredictor();
    assert forall k :: 0 <= k < |trace.instructions| ==> !trace.instructions[k].pjb;
    ScoreTrace(trace.instructions, predictor);
  }

  /** The directions that are left in the instructions. */
  function Predictions(s: seq<Instruction>): (r: seq<bool>)
    reads s`pjb
    ensures |r| == |s| && forall k :: 0 <= k < |s| ==> r[k] == s[k].pjb
  {
    if s == [] then [] else Predictions(s[..|s| - 1]) + [s[|s| - 1].pjb]
  }

  /** The directions that the predictor foresees in the first n records of a trace. */
  function Predicted(s: seq<Record>, n: nat): seq<bool> {
    seq(n, k requires 0 <= k < n =>
      k < |s| && IsJumpOrBranch(s[k].content) && PredictsTaken(Run(INITIAL_PREDICTOR, s[..k])))
  }

  // ----- counts over a trace

  function Taken(s: seq<Record>): nat {
    if s == [] then 0
    else Taken(s[..|s| - 1]) + if IsJumpOrBranch(s[|s| - 1].content) && s[|s| - 1].taken then 1 else 0
  }

  function NotTaken(s: seq<Record>): nat {
    if s == [] then 0
    else NotTaken(s[..|s| - 1]) + if IsJumpOrBranch(s[|s| - 1].content) && !s[|s| - 1].taken then 1 else 0
  }

  /** Taken jumps and branches that were predicted not taken. */
  function MissedTaken(p: Predictor, s: seq<Record>): nat {
    if s == [] then 0
    else
      var last := s[|s| - 1];
      MissedTaken(p, s[..|s| - 1])
      + if IsJumpOrBranch(last.content) && last.taken && !PredictsTaken(Run(p, s[..|s| - 1])) then 1 else 0
  }

  /** Jumps and branches that were not taken but predicted taken. */
  function MissedNotTaken(p: Predictor, s: seq<Record>): nat {
    if s == [] then 0
    else
      var last := s[|s| - 1];
      MissedNotTaken(p, s[..|s| - 1])
      + if IsJumpOrBranch(last.content) && !last.taken && PredictsTaken(Run(p, s[..|s| - 1])) then 1 else 0
  }

  function Mispredictions(p: Predictor, s: seq<Record>): nat {
    MissedTaken(p, s) + MissedNotTaken(p, s)
  }

  /** How many of the first n jumps and branches differ from the directions that are left in them. */
  function DifferingNum(s: seq<Record>, left: seq<bool>, n: nat): nat
    requires n <= |s| && n <= |left|
  {
    if n == 0 then 0
    else
      DifferingNum(s, left, n - 1)
      + if IsJumpOrBranch(s[n - 1].content) && left[n - 1] != s[n - 1].taken then 1 else 0
  }

  lemma {:induction false} DifferingBefore(s: seq<Record>, n: nat)
    requires n < |s|
    ensures DifferingNum(s[..|s| - 1], Predicted(s[..|s| - 1], |s| - 1), n) == DifferingNum(s, Predicted(s, |s|), n)
  {
    hide Run, IsJumpOrBranch, PredictsTaken;
    if n > 0 {
      DifferingBefore(s, n - 1);
      assert s[..|s| - 1][..n - 1] == s[..n - 1];
    }
  }

  /** The mispredictions are the jumps and branches that differ from the directions left in them. */
  lemma {:induction false} MispredictionsAreLeft(s: seq<Record>)
    ensures Mispredictions(INITIAL_PREDICTOR, s) == DifferingNum(s, Predicted(s, |s|), |s|)
  {
    hide Run, IsJumpOrBranch, PredictsTaken;
    if s != [] {
      MispredictionsAreLeft(s[..|s| - 1]);
      DifferingBefore(s, |s| - 1);
    }
  }

  function Min(a: nat, b: nat): nat { if a <= b then a else b }

  // ----- invariants of every run

  predicate InRange(p: Predictor) { -2 <= p.cnt <= 3 }

  lemma {:induction false} CounterStaysInRange(p: Predictor, s: seq<Record>)
    requires InRange(p)
    ensures InRange(Run(p, s))
  {
    hide IsJumpOrBranch, Succeeds;
    if s != [] {
      CounterStaysInRange(p, s[..|s| - 1]);
    }
  }

  /** The target of the latest taken jump or branch; 0 when there is none. */
  function LastTarget(s: seq<Record>): nat {
    if s == [] then 0
    else if IsJumpOrBranch(s[|s| - 1].content) && s[|s| - 1].taken then s[|s| - 1].target
    else LastTarget(s[..|s| - 1])
  }

  lemma {:induction false} StoredPcIsLastTarget(s: seq<Record>)
    ensures Run(INITIAL_PREDICTOR, s).pc == LastTarget(s)
  {
    hide IsJumpOrBranch, Succeeds, CountUp, CountDown;
    if s != [] {
      StoredPcIsLastTarget(s[..|s| - 1]);
    }
  }

  /** The jump or branch at k is predicted in its direction, and the latest target before it is its own. */
  predicate WhollyPredicted(s: seq<Record>, k: nat)
    requires k < |s|
  {
    && IsJumpOrBranch(s[k].content)
    && (PredictsTaken(Run(INITIAL_PREDICTOR, s[..k])) <==> s[k].taken)
    && LastTarget(s[..k]) == s[k].target
  }

  /** How many of the first n records are wholly predicted. */
  function WhollyPredictedNum(s: seq<Record>, n: nat): nat
    requires n <= |s|
  {
    if n == 0 then 0 else WhollyPredictedNum(s, n - 1) + if WhollyPredicted(s, n - 1) then 1 else 0
  }

  lemma {:induction false} WhollyPredictedBefore(s: seq<Record>, n: nat)
    requires n < |s|
    ensures WhollyPredictedNum(s[..|s| - 1], n) == WhollyPredictedNum(s, n)
  {
    hide Run, LastTarget, IsJumpOrBranch, PredictsTaken;
    if n > 0 {
      WhollyPredictedBefore(s, n - 1);
      assert s[..|s| - 1][..n - 1] == s[..n - 1];
    }
  }

  /** The successes that are counted are the records that are wholly predicted. */
  lemma {:induction false} SuccessesAreCounted(s: seq<Record>)
    ensures Run(INITIAL_PREDICTOR, s).predictSuccessNum == WhollyPredictedNum(s, |s|)
  {
    hide IsJumpOrBranch, PredictsTaken, CountUp, CountDown, LastTarget;
    if s != [] {
      SuccessesAreCounted(s[..|s| - 1]);
      WhollyPredictedBefore(s, |s| - 1);
      StoredPcIsLastTarget(s[..|s| - 1]);
    }
  }

  /** Two predictions are counted for each jump or branch, and a success needs the right direction. */
  lemma {:induction false} PredictionsAreCounted(s: seq<Record>)
    ensures var q := Run(INITIAL_PREDICTOR, s);
      && q.predictNum == 2 * (Taken(s) + NotTaken(s))
      && q.predictSuccessNum + Mispredictions(INITIAL_PREDICTOR, s) <= Taken(s) + NotTaken(s)
      && 2 * q.predictSuccessNum <= q.predictNum
  {
    hide IsJumpOrBranch, CountUp, CountDown;
    if s != [] {
      PredictionsAreCounted(s[..|s| - 1]);
    }
  }

  /**
   In a marked trace, an instruction that was not taken is a success exactly
   when it is predicted so and the stored pc is 0.
  */
  lemma NotTakenSuccess(s: seq<Record>, k: nat)
    requires Unmarked(s) && k < |s| && !Annotated(s)[k].taken
    ensures var p := Run(INITIAL_PREDICTOR, Annotated(s)[..k]);
      Succeeds(p, Annotated(s)[k]) <==> !PredictsTaken(p) && LastTarget(Annotated(s)[..k]) == 0
  {
    hide Annotated, Run, LastTarget, PredictsTaken;
    AnnotatedLength(s);
    MarksAreExact(s, k);
    StoredPcIsLastTarget(Annotated(s)[..k]);
  }

  // ----- the predictor against the best static guess

  /** How far the counter is from predicting taken, and from predicting not taken. */
  function BelowZero(cnt: int): nat { if cnt < 0 then 0 - cnt else 0 }

  function AboveZero(cnt: int): nat { if cnt >= 0 then cnt + 1 else 0 }

  /** Each missed taken outcome uses up one that was not taken, and the other way round. */
  lemma {:induction false} MissesAreAmortised(p: Predictor, s: seq<Record>)
    requires InRange(p)
    ensures MissedTaken(p, s) + BelowZero(Run(p, s).cnt) <= NotTaken(s) + BelowZero(p.cnt)
    ensures MissedNotTaken(p, s) + AboveZero(Run(p, s).cnt) <= Taken(s) + AboveZero(p.cnt)
    ensures MissedTaken(p, s) <= Taken(s) && MissedNotTaken(p, s) <= NotTaken(s)
  {
    hide IsJumpOrBranch, Succeeds;
    if s != [] {
      MissesAreAmortised(p, s[..|s| - 1]);
    }
  }

  /** At most twice the mispredictions of the better of "always taken" and "never taken", plus one. */
  lemma TwoCompetitive(s: seq<Record>)
    ensures MissedTaken(INITIAL_PREDICTOR, s) <= NotTaken(s)
    ensures MissedNotTaken(INITIAL_PREDICTOR, s) <= Taken(s) + 1
    ensures Mispredictions(INITIAL_PREDICTOR, s) <= 2 * Min(Taken(s), NotTaken(s)) + 1
  {
    hide Taken, NotTaken, MissedTaken, MissedNotTaken, Run;
    MissesAreAmortised(INITIAL_PREDICTOR, s);
  }

  const NOT_TAKEN_BRANCH := Record(0, 0x63, false, 0)
  const TAKEN_BRANCH := Record(4, 0x63, true, 0)
  const PLAIN_RECORD := Record(0, 0x13, false, 0)

  /**
   The trace of two branches, at 0 and at 4, where the first falls through and
   the second jumps back: n branches, and after an even number of them another
   instruction, which the last branch jumps to.
  */
  function AlternatingLines(n: nat): seq<Line> {
    seq(n, k requires 0 <= k < n => Line(if k % 2 == 0 then 0 else 4, 0x63, k))
    + if n % 2 == 0 then [Line(0, 0x13, n)] else []
  }

  /** n branches, alternately not taken and taken. */
  function Alternating(n: nat): seq<Record> {
    if n == 0 then [] else Alternating(n - 1) + [if n % 2 == 1 then NOT_TAKEN_BRANCH else TAKEN_BRANCH]
  }

  lemma {:induction false} AlternatingAt(n: nat, k: nat)
    requires k < n
    ensures |Alternating(n)| == n && Alternating(n)[k] == if k % 2 == 0 then NOT_TAKEN_BRANCH else TAKEN_BRANCH
  {
    if n > 1 {
      AlternatingAt(n - 1, if k < n - 1 then k else 0);
    }
  }

  lemma AlternatingMark(n: nat, k: nat)
    requires k < |AlternatingLines(n)|
    ensures var s := Annotated(Parsed(AlternatingLines(n)));
      && |s| == |AlternatingLines(n)|
      && s[k] == if k == n then PLAIN_RECORD else if k % 2 == 0 then NOT_TAKEN_BRANCH else TAKEN_BRANCH
  {
    hide Annotated;
    AnnotatedLength(Parsed(AlternatingLines(n)));
    MarksAreExact(Parsed(AlternatingLines(n)), k);
  }

  /** Marking the trace of the two branches gives the alternating records. */
  lemma AlternatingIsMarked(n: nat)
    ensures Annotated(Parsed(AlternatingLines(n))) == Alternating(n) + if n % 2 == 0 then [PLAIN_RECORD] else []
  {
    var size := |AlternatingLines(n)|;
    assert size == n + if n % 2 == 0 then 1 else 0;
    hide Annotated, Parsed, AlternatingLines, Alternating;
    AnnotatedLength(Parsed(AlternatingLines(n)));
    ParsedLength(AlternatingLines(n));
    AlternatingLength(n);
    var s, t := Annotated(Parsed(AlternatingLines(n))), Alternating(n) + if n % 2 == 0 then [PLAIN_RECORD] else [];
    forall k | 0 <= k < size ensures s[k] == t[k] {
      AlternatingMark(n, k);
      if k < n {
        AlternatingAt(n, k);
      }
    }
  }

  lemma ParsedLength(lines: seq<Line>)
    ensures |Parsed(lines)| == |lines|
  {}

  lemma AlternatingLength(n: nat)
    ensures |Alternating(n)| == n
  {
    if n > 0 {
      AlternatingAt(n, 0);
    }
  }

  /** One more record. */
  lemma RunExtended(p: Predictor, s: seq<Record>, r: Record)
    ensures Run(p, s + [r]) == Scored(Run(p, s), r)
    ensures IsJumpOrBranch(r.content) && r.taken ==>
      && Taken(s + [r]) == Taken(s) + 1 && NotTaken(s + [r]) == NotTaken(s)
      && Mispredictions(p, s + [r]) == Mispredictions(p, s) + if PredictsTaken(Run(p, s)) then 0 else 1
    ensures IsJumpOrBranch(r.content) && !r.taken ==>
      && Taken(s + [r]) == Taken(s) && NotTaken(s + [r]) == NotTaken(s) + 1
      && Mispredictions(p, s + [r]) == Mispredictions(p, s) + if PredictsTaken(Run(p, s)) then 1 else 0
    ensures !IsJumpOrBranch(r.content) ==>
      && Taken(s + [r]) == Taken(s) && NotTaken(s + [r]) == NotTaken(s)
      && Mispredictions(p, s + [r]) == Mispredictions(p, s)
  {
    hide IsJumpOrBranch, Scored, PredictsTaken;
    var t := s + [r];
    assert t[..|t| - 1] == s && t[|t| - 1] == r;
  }

  lemma BranchOpcodes()
    ensures IsJumpOrBranch(0x63) && !IsJumpOrBranch(0x13)
  {}

  lemma {:induction false} AlternatingIsMissed(n: nat)
    ensures Mispredictions(INITIAL_PREDICTOR, Alternating(n)) == n == Taken(Alternating(n)) + NotTaken(Alternating(n))
    ensures NotTaken(Alternating(n)) == Taken(Alternating(n)) + n % 2
    ensures Run(INITIAL_PREDICTOR, Alternating(n)).cnt == 0 - (n % 2)
  {
    hide Succeeds, Run, Taken, NotTaken, Mispredictions, IsJumpOrBranch;
    if n == 0 {
      NothingScored(Alternating(n));
    } else {
      BranchOpcodes();
      AlternatingIsMissed(n - 1);
      RunExtended(INITIAL_PREDICTOR, Alternating(n - 1), if n % 2 == 1 then NOT_TAKEN_BRANCH else TAKEN_BRANCH);
    }
  }

  /**
   The bound is reached by traces of every length: the predictor is wrong about
   each of the n branches of the alternating trace, and for odd n this is twice
   the mispredictions of the better static guess, plus one.
  */
  lemma BoundIsTight(n: nat)
    ensures var s := Annotated(Parsed(AlternatingLines(n)));
      && Mispredictions(INITIAL_PREDICTOR, s) == n == Taken(s) + NotTaken(s)
      && (n % 2 == 1 ==> Mispredictions(INITIAL_PREDICTOR, s) == 2 * Min(Taken(s), NotTaken(s)) + 1)
  {
    hide Annotated, Parsed, AlternatingLines, Alternating, Run, Taken, NotTaken, Mispredictions, IsJumpOrBranch;
    AlternatingIsMarked(n);
    AlternatingIsMissed(n);
    BranchOpcodes();
    if n % 2 == 0 {
      RunExtended(INITIAL_PREDICTOR, Alternating(n), PLAIN_RECORD);
    } else {
      assert Alternating(n) + [] == Alternating(n);
    }
  }

  lemma NothingScored(s: seq<Record>)
    requires s == []
    ensures Run(INITIAL_PREDICTOR, s) == INITIAL_PREDICTOR
    ensures Mispredictions(INITIAL_PREDICTOR, s) == Taken(s) == NotTaken(s) == 0
  {}

  // ----- runs of equal outcomes

  /** The outcome of the last jump or branch. */
  datatype Outcome = NoOutcome | WasTaken | WasNotTaken

  function LastOutcome(s: seq<Record>): Outcome {
    if s == [] then NoOutcome
    else if !IsJumpOrBranch(s[|s| - 1].content) then LastOutcome(s[..|s| - 1])
    else if s[|s| - 1].taken then WasTaken else WasNotTaken
  }

  /** The number of maximal runs of taken jumps and branches: those that follow another outcome, or none. */
  function TakenRuns(s: seq<Record>): nat {
    if s == [] then 0
    else
      TakenRuns(s[..|s| - 1])
      + if LastOutcome(s) == WasTaken && LastOutcome(s[..|s| - 1]) != WasTaken then 1 else 0
  }

  function NotTakenRuns(s: seq<Record>): nat {
    if s == [] then 0
    else
      NotTakenRuns(s[..|s| - 1])
      + if LastOutcome(s) == WasNotTaken && LastOutcome(s[..|s| - 1]) != WasNotTaken then 1 else 0
  }

  /** The mispredictions that the current run can still cause. */
  function Remaining(last: Outcome, cnt: int): nat {
    match last
    case NoOutcome => 0
    case WasTaken => BelowZero(cnt)
    case WasNotTaken => AboveZero(cnt)
  }

  /** A run of equal outcomes, wherever it starts: at most 2 mispredictions if taken, 4 if not. */
  lemma SingleRun(p: Predictor, s: seq<Record>)
    requires InRange(p)
    ensures NotTaken(s) == 0 ==> Mispredictions(p, s) <= 2
    ensures Taken(s) == 0 ==> Mispredictions(p, s) <= 4
  {
    hide Taken, NotTaken, MissedTaken, MissedNotTaken, Run;
    MissesAreAmortised(p, s);
  }

  lemma {:induction false} RunsAreAmortised(p: Predictor, s: seq<Record>)
    requires InRange(p)
    ensures Mispredictions(p, s) + Remaining(LastOutcome(s), Run(p, s).cnt) <= 2 * TakenRuns(s) + 4 * NotTakenRuns(s)
    ensures InRange(Run(p, s))
  {
    hide IsJumpOrBranch, Succeeds;
    if s != [] {
      RunsAreAmortised(p, s[..|s| - 1]);
    }
  }

  /** Over a whole trace: at most 2 mispredictions for each run of taken outcomes, 4 for each other run. */
  lemma MispredictionsPerRun(p: Predictor, s: seq<Record>)
    requires InRange(p)
    ensures Mispredictions(p, s) <= 2 * TakenRuns(s) + 4 * NotTakenRuns(s)
  {
    hide Mispredictions, Run, TakenRuns, NotTakenRuns, LastOutcome;
    RunsAreAmortised(p, s);
  }

  /** The first run spares two of the mispredictions, because the counter starts at 0. */
  function Spared(last: Outcome): nat { if last == NoOutcome then 0 else 2 }

  lemma {:induction false} RunsFromStart(s: seq<Record>)
    ensures Mispredictions(INITIAL_PREDICTOR, s) + Remaining(LastOutcome(s), Run(INITIAL_PREDICTOR, s).cnt)
         <= 2 * TakenRuns(s) + 4 * NotTakenRuns(s) - Spared(LastOutcome(s))
    ensures LastOutcome(s) == NoOutcome ==> Run(INITIAL_PREDICTOR, s).cnt == 0
    ensures LastOutcome(s) == NoOutcome <==> TakenRuns(s) + NotTakenRuns(s) == 0
    ensures InRange(Run(INITIAL_PREDICTOR, s))
  {
    hide IsJumpOrBranch, Succeeds;
    if s != [] {
      RunsFromStart(s[..|s| - 1]);
    }
  }

  /** A new predictor spares two of them, if there is a run at all. */
  lemma MispredictionsFromStart(s: seq<Record>)
    ensures TakenRuns(s) + NotTakenRuns(s) > 0 ==>
      Mispredictions(INITIAL_PREDICTOR, s) <= 2 * TakenRuns(s) + 4 * NotTakenRuns(s) - 2
  {
    hide Mispredictions, Run, TakenRuns, NotTakenRuns, LastOutcome;
    RunsFromStart(s);
  }

  // ----- the bound on runs is reached

  /**
   The addresses of a loop of ten steps: a branch at 20 to 0, four branches from
   0 to itself, and five branches, at 0 to 16, that fall through.
  */
  function LoopAddress(j: nat): nat {
    if j == 0 then 20 else if j <= 5 then 0 else 4 * (j - 5)
  }

  function LoopLines(n: nat): seq<Line> {
    seq(n, k requires 0 <= k < n => Line(LoopAddress(k % 10), 0x63, k))
  }

  function LoopRecord(j: nat): Record { Record(LoopAddress(j), 0x63, j < 5, 0) }

  /** n records of the loop. */
  function LoopRecords(n: nat): seq<Record> {
    if n == 0 then [] else LoopRecords(n - 1) + [LoopRecord((n - 1) % 10)]
  }

  lemma {:induction false} LoopRecordAt(n: nat, k: nat)
    requires k < n
    ensures |LoopRecords(n)| == n && LoopRecords(n)[k] == LoopRecord(k % 10)
  {
    hide LoopRecord;
    if n > 1 {
      LoopRecordAt(n - 1, if k < n - 1 then k else 0);
    }
  }

  lemma LoopMark(n: nat, k: nat)
    requires k < n && n % 10 == 0
    ensures var s := Annotated(Parsed(LoopLines(n))); |s| == n && s[k] == LoopRecord(k % 10)
  {
    hide Annotated;
    AnnotatedLength(Parsed(LoopLines(n)));
    MarksAreExact(Parsed(LoopLines(n)), k);
  }

  /** Marking whole rounds of the loop gives its records. */
  lemma LoopIsMarked(n: nat)
    requires n % 10 == 0
    ensures Annotated(Parsed(LoopLines(n))) == LoopRecords(n)
  {
    assert |LoopLines(n)| == n;
    hide Annotated, Parsed, LoopLines, LoopRecords, LoopRecord;
    AnnotatedLength(Parsed(LoopLines(n)));
    ParsedLength(LoopLines(n));
    if n > 0 {
      LoopRecordAt(n, 0);
    } else {
      NoLoopRecords();
    }
    var s := Annotated(Parsed(LoopLines(n)));
    forall k | 0 <= k < n ensures s[k] == LoopRecords(n)[k] {
      LoopMark(n, k);
      LoopRecordAt(n, k);
    }
  }

  lemma NoLoopRecords()
    ensures LoopRecords(0) == []
  {}

  /** The counter after q rounds of the loop and j more steps. */
  function LoopCounter(q: nat, j: nat): int {
    if j > 5 then 3 - (j - 5)
    else if q > 0 then j - 2
    else if j < 3 then j else 3
  }

  /** The mispredictions so far: none in the first five steps, later two and four in turn. */
  function LoopMisses(q: nat, j: nat): nat {
    (if q > 0 then 6 * q - 2 + Min(j, 2) else 0) + if j <= 5 then 0 else Min(j - 5, 4)
  }

  function LoopOutcome(q: nat, j: nat): Outcome {
    if 1 <= j <= 5 then WasTaken else if q + j == 0 then NoOutcome else WasNotTaken
  }

  /** Where the predictor and the runs stand after q rounds of the loop and j more steps. */
  predicate LoopState(s: seq<Record>, q: nat, j: nat) {
    && Run(INITIAL_PREDICTOR, s).cnt == LoopCounter(q, j)
    && Mispredictions(INITIAL_PREDICTOR, s) == LoopMisses(q, j)
    && LastOutcome(s) == LoopOutcome(q, j)
    && TakenRuns(s) == (if j == 0 then q else q + 1)
    && NotTakenRuns(s) == (if j <= 5 then q else q + 1)
  }

  lemma RunsExtended(s: seq<Record>, r: Record)
    requires IsJumpOrBranch(r.content)
    ensures LastOutcome(s + [r]) == if r.taken then WasTaken else WasNotTaken
    ensures TakenRuns(s + [r]) == TakenRuns(s) + if r.taken && LastOutcome(s) != WasTaken then 1 else 0
    ensures NotTakenRuns(s + [r]) == NotTakenRuns(s) + if !r.taken && LastOutcome(s) != WasNotTaken then 1 else 0
  {
    hide IsJumpOrBranch;
    var t := s + [r];
    assert t[..|t| - 1] == s && t[|t| - 1] == r;
  }

  lemma LoopStep(s: seq<Record>, q: nat, j: nat)
    requires j < 10 && LoopState(s, q, j)
    ensures if j < 9 then LoopState(s + [LoopRecord(j)], q, j + 1) else LoopState(s + [LoopRecord(j)], q + 1, 0)
  {
    hide Run, Mispredictions, LastOutcome, TakenRuns, NotTakenRuns, IsJumpOrBranch, LoopAddress, Succeeds;
    BranchOpcodes();
    RunExtended(INITIAL_PREDICTOR, s, LoopRecord(j));
    RunsExtended(s, LoopRecord(j));
  }

  lemma LoopStart()
    ensures LoopState(LoopRecords(0), 0, 0)
  {}

  lemma NextStep(n: nat)
    requires n > 0
    ensures if (n - 1) % 10 < 9 then n / 10 == (n - 1) / 10 && n % 10 == (n - 1) % 10 + 1
            else n / 10 == (n - 1) / 10 + 1 && n % 10 == 0
  {}

  lemma {:induction false} LoopStates(n: nat)
    ensures LoopState(LoopRecords(n), n / 10, n % 10)
  {
    hide LoopState, LoopRecord;
    if n == 0 {
      LoopStart();
    } else {
      LoopStates(n - 1);
      NextStep(n);
      LoopStep(LoopRecords(n - 1), (n - 1) / 10, (n - 1) % 10);
    }
  }

  /**
   The bound on runs is reached by traces of any number of runs: each run but the
   first causes 2 mispredictions if it is one of taken outcomes, 4 if not.
  */
  lemma RunBoundIsTight(k: nat)
    requires k > 0
    ensures var s := Annotated(Parsed(LoopLines(10 * k)));
      && TakenRuns(s) == NotTakenRuns(s) == k
      && Mispredictions(INITIAL_PREDICTOR, s) == 2 * TakenRuns(s) + 4 * NotTakenRuns(s) - 2
  {
    hide Annotated, Parsed, LoopLines, LoopRecords, Run, Mispredictions, LastOutcome, TakenRuns, NotTakenRuns;
    LoopIsMarked(10 * k);
    LoopStates(10 * k);
  }
}
