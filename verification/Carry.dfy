/** Addition and subtraction of numbers of two words: ADDC and SUBC leave a carry, ADDX
    and SUBX take it and leave another.  Dropping unused assignments keeps it. */
module Carry {
  import opened Ops
  import opened RegAlloc
  import opened Machine
  import opened Rewrites
  import opened Fusion
  import opened StoreFold
  import opened UnusedAssign
  import opened Shapes
  import opened Liveness
  import opened Passes
  import opened WordMachine
  import Flow

  /** What a program can tell apart besides registers. */
  datatype CarryMemory = CarryMemory(mem: Memory, carry: bool)

  function Bit(carry: bool): int {
    if carry then 1 else 0
  }

  /** The sum or difference of two words, before it is cut to a word. */
  function Total(code: Code, x: int, y: int, carry: bool): int {
    match code
    case ADDC => Word(TWO_64, x) + Word(TWO_64, y)
    case ADDX => Word(TWO_64, x) + Word(TWO_64, y) + Bit(carry)
    case SUBC => Word(TWO_64, x) - Word(TWO_64, y)
    case _ => Word(TWO_64, x) - Word(TWO_64, y) - Bit(carry)
  }

  function LeavesCarry(code: Code, x: int, y: int, carry: bool): bool {
    var total := Total(code, x, y, carry);
    total >= TWO_64 || total < 0
  }

  /** A machine with a carry on top of one without. */
  function WithCarry(e: Env<int, Memory>): Env<int, CarryMemory> {
    Env(e.imm,
        (s: Sig, v, m: CarryMemory) =>
          if s.code in {ADDC, ADDX, SUBC, SUBX} && |v| == 3 then Word(TWO_64, Total(s.code, v[1], v[2], m.carry))
          else e.value(s, v, m.mem),
        (s: Sig, v, m: CarryMemory) =>
          if s.code in {ADDC, ADDX, SUBC, SUBX} && |v| == 3 then m.(carry := LeavesCarry(s.code, v[1], v[2], m.carry))
          else m.(mem := e.effect(s, v, m.mem)),
        (s, v, m: CarryMemory) => e.taken(s, v, m.mem),
        e.extend,
        (f, args, m: CarryMemory) => (e.call(f, args, m.mem).0, CarryMemory(e.call(f, args, m.mem).1, false)),
        (h, f, args, m: CarryMemory) => e.clobber(h, f, args, m.mem),
        e.address,
        e.decode)
  }

  /** What the four operations are for. */
  lemma TwoWordSum(x0: int, x1: int, y0: int, y1: int, carry: bool)
    requires 0 <= x0 < TWO_64 && 0 <= x1 < TWO_64 && 0 <= y0 < TWO_64 && 0 <= y1 < TWO_64
    ensures var low, out := Word(TWO_64, Total(ADDC, x0, y0, carry)), LeavesCarry(ADDC, x0, y0, carry);
      var high, over := Word(TWO_64, Total(ADDX, x1, y1, out)), LeavesCarry(ADDX, x1, y1, out);
      low + high * TWO_64 + Bit(over) * (TWO_64 * TWO_64) == (x0 + x1 * TWO_64) + (y0 + y1 * TWO_64)
  {
    hide Word, LeavesCarry;
    Whole(x0);
    Whole(x1);
    Whole(y0);
    Whole(y1);
    OneWordSum(ADDC, x0, y0, carry);
    OneWordSum(ADDX, x1, y1, LeavesCarry(ADDC, x0, y0, carry));
  }

  lemma Whole(x: int)
    requires 0 <= x < TWO_64
    ensures Word(TWO_64, x) == x
  {
  }

  /** The word that is kept and the carry make up the sum. */
  lemma OneWordSum(code: Code, x: int, y: int, carry: bool)
    requires code in {ADDC, ADDX}
    ensures var t := Total(code, x, y, carry); Word(TWO_64, t) + Bit(LeavesCarry(code, x, y, carry)) * TWO_64 == t
  {
    CutWord(Total(code, x, y, carry));
  }

  lemma OneWordDifference(code: Code, x: int, y: int, carry: bool)
    requires code in {SUBC, SUBX}
    ensures var t := Total(code, x, y, carry); Word(TWO_64, t) - Bit(LeavesCarry(code, x, y, carry)) * TWO_64 == t
  {
    CutWord(Total(code, x, y, carry));
  }

  lemma CutWord(t: int)
    requires -TWO_64 <= t < 2 * TWO_64
    ensures Word(TWO_64, t) == if t >= TWO_64 then t - TWO_64 else if t < 0 then t + TWO_64 else t
  {
  }

  lemma TwoWordDifference(x0: int, x1: int, y0: int, y1: int, carry: bool)
    requires 0 <= x0 < TWO_64 && 0 <= x1 < TWO_64 && 0 <= y0 < TWO_64 && 0 <= y1 < TWO_64
    ensures var low, out := Word(TWO_64, Total(SUBC, x0, y0, carry)), LeavesCarry(SUBC, x0, y0, carry);
      var high, under := Word(TWO_64, Total(SUBX, x1, y1, out)), LeavesCarry(SUBX, x1, y1, out);
      low + high * TWO_64 - Bit(under) * (TWO_64 * TWO_64) == (x0 + x1 * TWO_64) - (y0 + y1 * TWO_64)
  {
    hide Word, LeavesCarry;
    Whole(x0);
    Whole(x1);
    Whole(y0);
    Whole(y1);
    OneWordDifference(SUBC, x0, y0, carry);
    OneWordDifference(SUBX, x1, y1, LeavesCarry(SUBC, x0, y0, carry));
  }

  /** Everything else leaves the carry alone. */
  lemma OthersKeepCarry(e: Env<int, Memory>, op: Op)
    requires OnlyAssigns(e, op)
    ensures OnlyAssigns(WithCarry(e), op)
  {
    hide MayBranch, Total, LeavesCarry;
    if op.t0 == TREG && op.code !in {ADDC, ADDX, SUBC, SUBX} {
      forall v: seq<int>, m: CarryMemory
        ensures WithCarry(e).effect(SigOf(op), v, m) == m
      {
        assert e.effect(SigOf(op), v, m.mem) == m.mem;
      }
    }
  }

  /** Dropping unused assignments changes no run on a machine with a carry. */
  lemma DroppingKeepsCarry(e: Env<int, Memory>, ops: seq<Op>, infos: map<int, seq<ArgInfo>>, targets: set<nat>,
                           beyond: map<int, seq<set<int>>>, s: Flow.Sets, reach: set<nat>, q: nat, c: Cfg<int, CarryMemory>)
    requires AnalysedRun(ops, infos, targets, beyond, s, reach, q) && c.pc == q && AllOnlyAssign(e, ops, reach)
    ensures |s.out| == |ops| && SameRuns(WithCarry(e), ops, DropAll(ops, s.out), targets, c)
  {
    hide SameRuns, OnlyAssigns, ListShape, Analysed, TakesTargets, Sound, WithCarry;
    ExactIsSound(ops, infos, targets, beyond, s, reach, q);
    forall i: nat | i in reach && i < |ops|
      ensures OnlyAssigns(WithCarry(e), ops[i])
    {
      OthersKeepCarry(e, ops[i]);
    }
    UnusedAssignmentsPreserveRuns(WithCarry(e), ops, DropAll(ops, s.out), targets, NeedsOf(s, q, reach), s.out, c);
  }

  /** And on the machine of words and bytes nothing has to be asked of a program. */
  lemma DroppingKeepsCarry64(ops: seq<Op>, infos: map<int, seq<ArgInfo>>, targets: set<nat>,
                             beyond: map<int, seq<set<int>>>, s: Flow.Sets, reach: set<nat>, q: nat, c: Cfg<int, CarryMemory>)
    requires AnalysedRun(ops, infos, targets, beyond, s, reach, q) && c.pc == q
    requires forall i :: 0 <= i < |ops| ==> !MadeByPasses(ops[i].code)
    ensures |s.out| == |ops| && SameRuns(WithCarry(Machine64()), ops, DropAll(ops, s.out), targets, c)
  {
    hide SameRuns, OnlyAssigns, ListShape, Analysed, TakesTargets, OwnRun, Machine64, WithCarry;
    forall i: nat | i in reach && i < |ops|
      ensures OnlyAssigns(Machine64(), ops[i])
    {
      ShapeAt(ops, infos, i);
      AssignsOnly64(ops[i], DeclaredAt(ops, infos, i));
    }
    DroppingKeepsCarry(Machine64(), ops, infos, targets, beyond, s, reach, q, c);
  }

  lemma AssignsOnly64(op: Op, info: seq<ArgInfo>)
    requires OpShape(op, info) && !MadeByPasses(op.code)
    ensures OnlyAssigns(Machine64(), op)
  {
    hide Machine64, OperandsOk, Flow.OpOk, AluForm;
    if op.code !in {ST, STX, X86_STI, X86_STXI} {
      OnlyAssigns64(op);
    }
  }
}
