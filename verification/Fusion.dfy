/** Instruction fusion: the `join_*` functions of `myjit/x86-common-stuff.c`. */
module Fusion {
  import opened Ops
  import opened Machine
  import opened Rewrites
  import opened Merging
  import opened StoreFold
  import opened Bits

  // ---- Words ------------------------------------------------------------------------

  const TWO_32 := 0x1_0000_0000
  const TWO_64 := 0x1_0000_0000_0000_0000

  predicate WordSize(p: int) {
    p == TWO_32 || p == TWO_64
  }

  /** What a register holds of a result. */
  function Word(p: nat, x: int): (r: nat)
    requires WordSize(p)
    ensures r < p
  {
    if p == TWO_32 then x % TWO_32 else x % TWO_64
  }

  /** Results of the operations involved, modulo the word size; a displacement is a
      32-bit field, sign-extended. */
  function AluValue(p: nat, s: Sig, v: seq<int>): int
    requires WordSize(p) && |v| == 3
  {
    match s.code
    case ADD => Word(p, v[1] + v[2])
    case SUB => Word(p, v[1] - v[2])
    case MUL => Word(p, v[1] * v[2])
    case LSH => if v[2] >= 0 then Word(p, v[1] * Pow2(v[2])) else 0
    case OR => Or(Word(p, v[1]), Word(p, v[2]))
    case X86_ADDMUL =>
      if s.size < 0 then 0
      else if s.mode == ImmForm then Word(p, v[1] * Pow2(s.size) + SignExtended(v[2]))
      else Word(p, v[1] + v[2] * Pow2(s.size))
    case _ => Word(p, v[1] + v[2] + SignExtended(s.disp))
  }

  predicate InAlu(code: Code) {
    code in {ADD, SUB, MUL, LSH, OR, X86_ADDMUL, X86_ADDIMM}
  }

  /** A 32-bit or 64-bit machine, as far as these operations are concerned. */
  ghost predicate ComputesWords<M(!new)>(env: Env<int, M>, p: nat) {
    && WordSize(p)
    && (forall i :: env.imm(i) == i)
    && (forall s: Sig, v: seq<int>, m: M :: InAlu(s.code) ==> env.effect(s, v, m) == m)
    && (forall s: Sig, v: seq<int>, m: M :: |v| == 3 && InAlu(s.code) ==> env.value(s, v, m) == AluValue(p, s, v))
  }

  // ---- The tests --------------------------------------------------------------------------

  predicate Is(op: Op, code: Code, mode: Mode) {
    op.code == code && op.mode == mode && !op.unsigned
  }

  /** `get_related_op`: that the next operation reads the result is not tested, only
      that it reads some register whose number is not zero. */
  predicate RelatedOp(op: Op, next: Op, liveOut: set<int>) {
    && (next.a0 == op.a0 || op.a0 !in liveOut)
    && exists i :: 0 <= i < 3 && next.T(i) == REG && next.A(i) != 0
  }

  predicate SuitableMul(op: Op) {
    (Is(op, MUL, ImmForm) && op.a2 in {2, 4, 8}) || (Is(op, LSH, ImmForm) && op.a2 in {1, 2, 3})
  }

  function ShiftIndex(arg: int): nat {
    if arg == 2 then 1 else if arg == 4 then 2 else 3
  }

  function Shift(op: Op): nat
    requires SuitableMul(op)
  {
    if op.code == MUL then ShiftIndex(op.a2) else op.a2
  }

  // ---- What becomes of the second operation --------------------------------------------------

  function AddMulI(op: Op, next: Op): Op
    requires SuitableMul(op)
  {
    next.(code := X86_ADDMUL, mode := ImmForm, unsigned := false, t0 := TREG, t1 := REG, t2 := IMM, a1 := op.a1, size := Shift(op))
  }

  function JoinMuliAddi(op: Op, next: Op): Option<Op> {
    if Is32Bit(next.a2) && SuitableMul(op) then Some(AddMulI(op, next)) else None
  }

  function JoinMuliOri(op: Op, next: Op): Option<Op> {
    if SuitableMul(op) && 0 < next.a2 < Pow2(Shift(op)) then Some(AddMulI(op, next)) else None
  }

  function JoinMuliAddr(op: Op, next: Op): Option<Op> {
    if !SuitableMul(op) || next.a1 == next.a2 then None
    else
      var addReg := if next.a1 == op.a0 then next.a2 else next.a1;
      Some(next.(code := X86_ADDMUL, mode := RegForm, unsigned := false, t0 := TREG, t1 := REG, t2 := REG,
                 a1 := addReg, a2 := op.a1, size := Shift(op)))
  }

  function JoinAddrAddi(op: Op, next: Op): Option<Op> {
    if !Is32Bit(next.a2) then None
    else Some(next.(code := X86_ADDIMM, mode := Bare, unsigned := false, t0 := TREG, t1 := REG, t2 := REG,
                    a1 := op.a1, a2 := op.a2, disp := next.a2))
  }

  /** The displacement: negated for SUB, doubled when both operands are the result. */
  function Displacement(op: Op, next: Op): int {
    (if op.code == SUB then -op.a2 else op.a2) * (if next.a1 == next.a2 then 2 else 1)
  }

  function JoinAddiAddr(op: Op, next: Op): Option<Op> {
    if !Is32Bit(op.a2) then None
    else Some(next.(code := X86_ADDIMM, mode := Bare, unsigned := false, t0 := TREG, t1 := REG, t2 := REG,
                    a1 := if next.a1 == op.a0 then op.a1 else next.a1,
                    a2 := if next.a2 == op.a0 then op.a1 else next.a2,
                    disp := Displacement(op, next)))
  }

  /** The two passes. */
  datatype Pass = JoinAddMul | JoinAddImm

  /** `join_2ops`, for every pair of codes a pass tries. */
  function Join(pass: Pass, op: Op, next: Op, liveOut: set<int>): Option<Op> {
    if !RelatedOp(op, next, liveOut) then None
    else
      match pass
      case JoinAddMul =>
        if Is(op, MUL, ImmForm) || Is(op, LSH, ImmForm) then
          if Is(next, ADD, ImmForm) then JoinMuliAddi(op, next)
          else if Is(next, ADD, RegForm) then JoinMuliAddr(op, next)
          else if Is(next, OR, ImmForm) then JoinMuliOri(op, next)
          else None
        else None
      case JoinAddImm =>
        if Is(op, ADD, RegForm) && (Is(next, ADD, ImmForm) || Is(next, SUB, ImmForm)) then JoinAddrAddi(op, next)
        else if (Is(op, ADD, ImmForm) || Is(op, SUB, ImmForm)) && Is(next, ADD, RegForm) then JoinAddiAddr(op, next)
        else None
  }

  // ---- From machine to arithmetic --------------------------------------------------------------

  /** Operand specifications of the operations that are joined. */
  predicate AluShape(op: Op) {
    && op.jmp.None? && op.t0 == TREG && op.t1 == REG && op.t2 == (if op.mode == ImmForm then IMM else REG)
  }

  function OperandValues(op: Op, f: int -> int): (v: seq<int>)
    ensures |v| == 3
  {
    [0, if op.t1 == REG then f(op.a1) else op.a1, if op.t2 == REG then f(op.a2) else op.a2]
  }

  function ResultOf(p: nat, op: Op, f: int -> int): int
    requires WordSize(p)
  {
    AluValue(p, SigOf(op), OperandValues(op, f))
  }

  /** What the two operations compute, one after the other. */
  function InTurn(p: nat, a: Op, b: Op, g: int -> int): int
    requires WordSize(p)
  {
    ResultOf(p, b, Set(g, a.a0, ResultOf(p, a, g)))
  }

  ghost predicate SameResult(p: nat, a: Op, b: Op, b2: Op)
    requires WordSize(p)
  {
    forall g: int -> int :: InTurn(p, a, b, g) == ResultOf(p, b2, g)
  }

  lemma ResultIs(env: Env<int, Memory>, p: nat, op: Op, f: int -> int, m: Memory)
    requires ComputesWords(env, p) && op.jmp.None? && InAlu(op.code)
    ensures env.value(SigOf(op), VirtVals(env, op, f), m) == ResultOf(p, op, f)
    ensures env.effect(SigOf(op), VirtVals(env, op, f), m) == m
  {
    hide VirtVals;
    Operands(env, op, f);
  }

  /** Whether two operations may be replaced by one is a question of arithmetic. */
  lemma SameEffectIsSameResult(env: Env<int, Memory>, p: nat, a: Op, b: Op, b2: Op)
    requires ComputesWords(env, p) && InAlu(a.code) && InAlu(b.code) && InAlu(b2.code)
    requires a.jmp.None? && b.jmp.None? && b2.jmp.None? && b.t0 == TREG
    ensures SameEffect(env, a, b, b2) <==> SameResult(p, a, b, b2)
  {
    assert WordSize(p);
    hide ComputesWords, VirtVals, ResultOf;
    forall g: int -> int, m: Memory
      ensures var f := After(env, a, g, m);
        && env.effect(SigOf(b), VirtVals(env, b, f), m) == env.effect(SigOf(b2), VirtVals(env, b2, g), m)
        && env.value(SigOf(b), VirtVals(env, b, f), m) == InTurn(p, a, b, g)
        && env.value(SigOf(b2), VirtVals(env, b2, g), m) == ResultOf(p, b2, g)
    {
      ResultIs(env, p, a, g, m);
      ResultIs(env, p, b, After(env, a, g, m), m);
      ResultIs(env, p, b2, g, m);
    }
    if SameEffect(env, a, b, b2) {
      forall g: int -> int
        ensures InTurn(p, a, b, g) == ResultOf(p, b2, g)
      {
        var m: Memory := x => 0;
        SameEffectAt(env, a, b, b2, g, m);
      }
    }
  }

  // ---- Arithmetic ------------------------------------------------------------------------------

  /** A part may be reduced before the sum is. */
  lemma ModAdd(x: int, y: int, p: nat)
    requires WordSize(p)
    ensures Word(p, Word(p, x) + y) == Word(p, x + y)
  {
  }

  // ---- Exactly when each fusion is right ---------------------------------------------------------

  /** The register of a suitable multiplication or shift, scaled. */
  function Scaled(a: Op, g: int -> int): int
    requires SuitableMul(a)
  {
    g(a.a1) * Pow2(Shift(a))
  }

  lemma ScaledValue(p: nat, a: Op, g: int -> int)
    requires WordSize(p) && SuitableMul(a) && AluShape(a)
    ensures ResultOf(p, a, g) == Word(p, Scaled(a, g))
  {
    assert Pow2(1) == 2 && Pow2(2) == 4 && Pow2(3) == 8;
  }

  lemma ScaledOf(a: Op, g: int -> int)
    requires SuitableMul(a)
    ensures g(a.a1) == 0 ==> Scaled(a, g) == 0
    ensures g(a.a1) == 1 ==> Scaled(a, g) in {2, 4, 8}
  {
    assert Pow2(1) == 2 && Pow2(2) == 4 && Pow2(3) == 8;
  }

  lemma AddIValue(p: nat, b: Op, f: int -> int)
    requires WordSize(p) && Is(b, ADD, ImmForm) && AluShape(b)
    ensures ResultOf(p, b, f) == Word(p, f(b.a1) + b.a2)
  {
  }

  lemma SubIValue(p: nat, b: Op, f: int -> int)
    requires WordSize(p) && Is(b, SUB, ImmForm) && AluShape(b)
    ensures ResultOf(p, b, f) == Word(p, f(b.a1) - b.a2)
  {
  }

  lemma AddRValue(p: nat, b: Op, f: int -> int)
    requires WordSize(p) && Is(b, ADD, RegForm) && AluShape(b)
    ensures ResultOf(p, b, f) == Word(p, f(b.a1) + f(b.a2))
  {
  }

  lemma OrIValue(p: nat, b: Op, f: int -> int)
    requires WordSize(p) && Is(b, OR, ImmForm) && AluShape(b)
    ensures ResultOf(p, b, f) == Or(Word(p, f(b.a1)), Word(p, b.a2))
  {
  }

  lemma AddMulIValue(p: nat, a: Op, b: Op, g: int -> int)
    requires WordSize(p) && SuitableMul(a) && Is32Bit(b.a2)
    ensures ResultOf(p, AddMulI(a, b), g) == Word(p, Scaled(a, g) + b.a2)
  {
    hide Word, Pow2, SignExtended;
    Fits32(b.a2);
  }

  lemma AddMulRValue(p: nat, a: Op, b: Op, g: int -> int)
    requires WordSize(p) && JoinMuliAddr(a, b).Some?
    ensures ResultOf(p, JoinMuliAddr(a, b).value, g) == Word(p, g(if b.a1 == a.a0 then b.a2 else b.a1) + Scaled(a, g))
  {
    hide Word, Pow2;
  }

  lemma AddImmValue(p: nat, b2: Op, g: int -> int)
    requires WordSize(p) && b2.code == X86_ADDIMM && b2.t1 == REG && b2.t2 == REG
    ensures ResultOf(p, b2, g) == Word(p, g(b2.a1) + g(b2.a2) + SignExtended(b2.disp))
  {
  }

  /** Small numbers stay apart modulo the word size. */
  lemma Apart(p: nat, x: int, y: int, z: int)
    requires WordSize(p) && x != y && -100 < x - y < 100
    ensures Word(p, x + z) != Word(p, y + z)
  {
  }

  lemma MuliAddiExact(p: nat, a: Op, b: Op)
    requires WordSize(p) && AluShape(a) && AluShape(b) && Is(b, ADD, ImmForm) && JoinMuliAddi(a, b).Some?
    ensures SameResult(p, a, b, JoinMuliAddi(a, b).value) <==> b.a1 == a.a0
  {
    hide ResultOf, Scaled, Word;
    var b2 := JoinMuliAddi(a, b).value;
    forall g: int -> int
      ensures ResultOf(p, b2, g) == Word(p, Scaled(a, g) + b.a2)
      ensures InTurn(p, a, b, g) == if b.a1 == a.a0 then Word(p, Scaled(a, g) + b.a2) else Word(p, g(b.a1) + b.a2)
    {
      ScaledValue(p, a, g);
      AddIValue(p, b, Set(g, a.a0, ResultOf(p, a, g)));
      AddMulIValue(p, a, b, g);
      ModAdd(Scaled(a, g), b.a2, p);
    }
    if b.a1 != a.a0 {
      var g: int -> int := x => if x == b.a1 then 1 else 0;
      ScaledOf(a, g);
      Apart(p, g(b.a1), Scaled(a, g), b.a2);
      assert InTurn(p, a, b, g) != ResultOf(p, b2, g);
    }
  }

  lemma MuliAddrExact(p: nat, a: Op, b: Op)
    requires WordSize(p) && AluShape(a) && AluShape(b) && Is(b, ADD, RegForm) && JoinMuliAddr(a, b).Some?
    ensures SameResult(p, a, b, JoinMuliAddr(a, b).value) <==> b.a1 == a.a0 || b.a2 == a.a0
  {
    hide ResultOf, Scaled, Word;
    var b2, needed := JoinMuliAddr(a, b).value, b.a1 == a.a0 || b.a2 == a.a0;
    forall g: int -> int
      ensures ResultOf(p, b2, g) == Word(p, Scaled(a, g) + g(if b.a1 == a.a0 then b.a2 else b.a1))
      ensures InTurn(p, a, b, g) ==
        if needed then Word(p, Scaled(a, g) + g(if b.a1 == a.a0 then b.a2 else b.a1)) else Word(p, g(b.a1) + g(b.a2))
    {
      ScaledValue(p, a, g);
      AddRValue(p, b, Set(g, a.a0, ResultOf(p, a, g)));
      AddMulRValue(p, a, b, g);
      ModAdd(Scaled(a, g), g(if b.a1 == a.a0 then b.a2 else b.a1), p);
    }
    if !needed {
      var g: int -> int := x => if x == b.a2 then 1 else 0;
      ScaledOf(a, g);
      Apart(p, g(b.a2), Scaled(a, g), g(b.a1));
      assert InTurn(p, a, b, g) != ResultOf(p, b2, g);
    }
  }

  lemma WordsBelow(p: nat, x: int)
    requires WordSize(p) && 0 <= x < 1000
    ensures Word(p, x) == x
  {
  }

  /** A scaled word has no bits below the scale. */
  lemma OrScaled(p: nat, a: Op, g: int -> int, c: nat)
    requires WordSize(p) && SuitableMul(a) && c < Pow2(Shift(a))
    ensures Or(Word(p, Scaled(a, g)), c) == Word(p, Scaled(a, g) + c)
  {
    hide Word, Or;
    var k := Pow2(Shift(a));
    assert k in {2, 4, 8} by { assert Pow2(1) == 2 && Pow2(2) == 4 && Pow2(3) == 8; }
    var q := ScaledRemainder(p, g(a.a1), k);
    OrAdds(q, Shift(a), c);
    OrFits(p, Scaled(a, g), q * k, c);
  }

  lemma OrFits(p: nat, x: int, w: nat, c: nat)
    requires WordSize(p) && Word(p, x) == w && w + c < p && Or(w, c) == w + c
    ensures Or(Word(p, x), c) == Word(p, x + c)
  {
    hide Word, Or;
    ModAdd(x, c, p);
    WordBelow(p, w + c);
  }

  lemma WordBelow(p: nat, x: int)
    requires WordSize(p) && 0 <= x < p
    ensures Word(p, x) == x
  {
  }

  lemma ScaledRemainder(p: nat, x: int, k: nat) returns (q: nat)
    requires WordSize(p) && k in {2, 4, 8}
    ensures Word(p, x * k) == q * k && q * k + k <= p
  {
    q := x % (p / k);
    RemainderBy(x, k, p / k, p);
  }

  /** A multiple of k, reduced by a multiple of k. */
  lemma RemainderBy(x: int, k: nat, m: nat, p: nat)
    requires k > 0 && m > 0 && p == k * m
    ensures x * k % p == x % m * k && x % m * k + k <= p
  {
    var q, r := x / m, x % m;
    assert x == m * q + r;
    assert x * k == p * q + r * k by { ScaleBoth(m, q, r, k, p); }
    assert r * k + k <= p by { ScaleBelow(r, m, k); }
    Remainder(x * k, p, q, r * k);
  }

  lemma ScaleBoth(m: nat, q: int, r: nat, k: nat, p: nat)
    requires p == k * m
    ensures (m * q + r) * k == p * q + r * k
  {
  }

  lemma ScaleBelow(r: nat, m: nat, k: nat)
    requires r < m && k > 0
    ensures r * k + k <= k * m
  {
    LargerMultiple(k, r + 1, m);
  }

  lemma OriBound(a: Op, b: Op)
    requires JoinMuliOri(a, b).Some?
    ensures SuitableMul(a) && 0 < b.a2 < 8 && b.a2 < Pow2(Shift(a)) && Is32Bit(b.a2) && Pow2(Shift(a)) in {2, 4, 8}
  {
    assert Pow2(1) == 2 && Pow2(2) == 4 && Pow2(3) == 8;
  }

  /** An OR on a register the first operation left alone, holding no bit or one above. */
  lemma OriAlone(p: nat, a: Op, b: Op, g: int -> int, q: nat)
    requires WordSize(p) && AluShape(b) && Is(b, OR, ImmForm) && JoinMuliOri(a, b).Some? && b.a1 != a.a0
    requires q <= 1 && g(b.a1) == q * Pow2(Shift(a))
    ensures InTurn(p, a, b, g) == Word(p, g(b.a1) + b.a2)
  {
    hide ResultOf, Pow2, Or, Word, Is, AluShape, SuitableMul, JoinMuliOri;
    assert SuitableMul(a) && 0 < b.a2 < Pow2(Shift(a)) <= 8 by { OriBound(a, b); }
    var f := Set(g, a.a0, ResultOf(p, a, g));
    WordsBelow(p, g(b.a1));
    WordsBelow(p, b.a2);
    WordsBelow(p, g(b.a1) + b.a2);
    OrAdds(q, Shift(a), b.a2);
    OrIValue(p, b, f);
  }

  lemma OriWitness(p: nat, a: Op, b: Op, g: int -> int)
    requires WordSize(p) && AluShape(b) && Is(b, OR, ImmForm) && JoinMuliOri(a, b).Some? && b.a1 != a.a0
    requires SuitableMul(a) && if a.a1 == b.a1 then g(a.a1) == Pow2(Shift(a)) else g(a.a1) == 1 && g(b.a1) == 0
    ensures InTurn(p, a, b, g) != ResultOf(p, JoinMuliOri(a, b).value, g)
  {
    hide *;
    OriBound(a, b);
    OriAloneHere(p, a, b, g);
    OriJoined(p, a, b, g);
    ScaledApart(a, b, g);
    Apart(p, Scaled(a, g), g(b.a1), b.a2);
  }

  lemma OriAloneHere(p: nat, a: Op, b: Op, g: int -> int)
    requires WordSize(p) && AluShape(b) && Is(b, OR, ImmForm) && JoinMuliOri(a, b).Some? && b.a1 != a.a0
    requires SuitableMul(a) && if a.a1 == b.a1 then g(a.a1) == Pow2(Shift(a)) else g(a.a1) == 1 && g(b.a1) == 0
    ensures InTurn(p, a, b, g) == Word(p, g(b.a1) + b.a2)
  {
    hide InTurn, Pow2, Word, Is, AluShape, SuitableMul, JoinMuliOri, Shift;
    OriAlone(p, a, b, g, if a.a1 == b.a1 then 1 else 0);
  }

  lemma OriDiffers(p: nat, a: Op, b: Op)
    requires WordSize(p) && AluShape(b) && Is(b, OR, ImmForm) && JoinMuliOri(a, b).Some? && b.a1 != a.a0
    ensures !SameResult(p, a, b, JoinMuliOri(a, b).value)
  {
    hide ResultOf, InTurn, Pow2, Is, AluShape, SuitableMul, JoinMuliOri, Shift, WordSize;
    OriBound(a, b);
    var k := Pow2(Shift(a));
    var g: int -> int := x => if a.a1 == b.a1 then k else if x == a.a1 then 1 else 0;
    OriWitness(p, a, b, g);
  }

  lemma OriJoined(p: nat, a: Op, b: Op, g: int -> int)
    requires WordSize(p) && JoinMuliOri(a, b).Some?
    ensures SuitableMul(a) && ResultOf(p, JoinMuliOri(a, b).value, g) == Word(p, Scaled(a, g) + b.a2)
  {
    OriBound(a, b);
    hide ResultOf, Pow2, Word, Scaled;
    AddMulIValue(p, a, b, g);
  }

  lemma ScaledApart(a: Op, b: Op, g: int -> int)
    requires SuitableMul(a) && Pow2(Shift(a)) in {2, 4, 8}
    requires if a.a1 == b.a1 then g(a.a1) == Pow2(Shift(a)) else g(a.a1) == 1 && g(b.a1) == 0
    ensures 0 < Scaled(a, g) - g(b.a1) < 100
  {
    hide Pow2, SuitableMul;
  }

  lemma MuliOriExact(p: nat, a: Op, b: Op)
    requires WordSize(p) && AluShape(a) && AluShape(b) && Is(b, OR, ImmForm) && JoinMuliOri(a, b).Some?
    ensures SameResult(p, a, b, JoinMuliOri(a, b).value) <==> b.a1 == a.a0
  {
    if b.a1 == a.a0 {
      forall g: int -> int
        ensures InTurn(p, a, b, g) == ResultOf(p, JoinMuliOri(a, b).value, g)
      {
        OriScales(p, a, b, g);
      }
    } else {
      OriDiffers(p, a, b);
    }
  }

  lemma OriScales(p: nat, a: Op, b: Op, g: int -> int)
    requires WordSize(p) && AluShape(a) && AluShape(b) && Is(b, OR, ImmForm) && JoinMuliOri(a, b).Some? && b.a1 == a.a0
    ensures InTurn(p, a, b, g) == ResultOf(p, JoinMuliOri(a, b).value, g)
  {
    hide ResultOf, Scaled, Pow2, Or, Word, Is, AluShape;
    var c := b.a2;
    assert SuitableMul(a) && 0 < c < Pow2(Shift(a)) <= 8 by { OriBound(a, b); }
    var f := Set(g, a.a0, ResultOf(p, a, g));
    ScaledValue(p, a, g);
    OrIValue(p, b, f);
    AddMulIValue(p, a, b, g);
    OrScaled(p, a, g, c);
    WordsBelow(p, c);
    ModAdd(Scaled(a, g), 0, p);
  }

  /** The immediate may be added where it should be subtracted. */
  predicate OwnNegative(p: nat, imm: int) {
    imm == 0 || (p == TWO_32 && imm == -0x8000_0000)
  }

  lemma NegativeWord(p: nat, x: int, imm: int)
    requires WordSize(p) && Is32Bit(imm)
    ensures OwnNegative(p, imm) ==> Word(p, x - imm) == Word(p, x + imm)
    ensures !OwnNegative(p, imm) ==> Word(p, -imm) != Word(p, imm)
  {
  }

  lemma Fits32(x: int)
    requires Is32Bit(x)
    ensures SignExtended(x) == x
  {
  }

  lemma AddrAddiJoined(p: nat, a: Op, b: Op, g: int -> int)
    requires WordSize(p) && JoinAddrAddi(a, b).Some?
    ensures ResultOf(p, JoinAddrAddi(a, b).value, g) == Word(p, g(a.a1) + g(a.a2) + b.a2)
  {
    hide ResultOf, Word, SignExtended;
    Fits32(b.a2);
    AddImmValue(p, JoinAddrAddi(a, b).value, g);
  }

  /** An addition or subtraction of a constant after an addition. */
  lemma AddrAddiInTurn(p: nat, a: Op, b: Op, g: int -> int)
    requires WordSize(p) && AluShape(a) && AluShape(b) && Is(a, ADD, RegForm) && (Is(b, ADD, ImmForm) || Is(b, SUB, ImmForm))
    ensures InTurn(p, a, b, g) ==
      var x := if b.a1 == a.a0 then g(a.a1) + g(a.a2) else g(b.a1);
      Word(p, if b.code == SUB then x - b.a2 else x + b.a2)
  {
    hide ResultOf, Word, AluShape;
    AddRValue(p, a, g);
    var f, x := Set(g, a.a0, ResultOf(p, a, g)), g(a.a1) + g(a.a2);
    if b.code == SUB {
      SubIValue(p, b, f);
      ModAdd(x, -b.a2, p);
    } else {
      AddIValue(p, b, f);
      ModAdd(x, b.a2, p);
    }
  }

  lemma AddrAddiValues(p: nat, a: Op, b: Op, g: int -> int)
    requires WordSize(p) && AluShape(a) && AluShape(b) && Is(a, ADD, RegForm) && (Is(b, ADD, ImmForm) || Is(b, SUB, ImmForm))
    requires JoinAddrAddi(a, b).Some?
    ensures ResultOf(p, JoinAddrAddi(a, b).value, g) == Word(p, g(a.a1) + g(a.a2) + b.a2)
    ensures InTurn(p, a, b, g) ==
      var x := if b.a1 == a.a0 then g(a.a1) + g(a.a2) else g(b.a1);
      Word(p, if b.code == SUB then x - b.a2 else x + b.a2)
  {
    hide ResultOf, InTurn, Word, AluShape, Is, JoinAddrAddi;
    AddrAddiJoined(p, a, b, g);
    AddrAddiInTurn(p, a, b, g);
  }

  predicate AddrAddiFits(p: nat, a: Op, b: Op) {
    b.a1 == a.a0 && (b.code == SUB ==> OwnNegative(p, b.a2))
  }

  lemma AddrAddiRight(p: nat, a: Op, b: Op, g: int -> int)
    requires WordSize(p) && AluShape(a) && AluShape(b) && Is(a, ADD, RegForm) && (Is(b, ADD, ImmForm) || Is(b, SUB, ImmForm))
    requires JoinAddrAddi(a, b).Some? && AddrAddiFits(p, a, b)
    ensures InTurn(p, a, b, g) == ResultOf(p, JoinAddrAddi(a, b).value, g)
  {
    hide ResultOf, InTurn, Word;
    AddrAddiValues(p, a, b, g);
    NegativeWord(p, g(a.a1) + g(a.a2), b.a2);
  }

  lemma AddrAddiWrong(p: nat, a: Op, b: Op) returns (g: int -> int)
    requires WordSize(p) && AluShape(a) && AluShape(b) && Is(a, ADD, RegForm) && (Is(b, ADD, ImmForm) || Is(b, SUB, ImmForm))
    requires JoinAddrAddi(a, b).Some? && !AddrAddiFits(p, a, b)
    ensures InTurn(p, a, b, g) != ResultOf(p, JoinAddrAddi(a, b).value, g)
  {
    var c := if b.code == SUB && !OwnNegative(p, b.a2) then 0 else 1;
    g := x => c;
    hide ResultOf, InTurn, Word;
    AddrAddiValues(p, a, b, g);
    NegativeWord(p, c, b.a2);
    Apart(p, 1, 2, b.a2);
  }

  /** ADD|REG followed by ADD|IMM or SUB|IMM.  The immediate of SUB is not negated. */
  lemma AddrAddiExact(p: nat, a: Op, b: Op)
    requires WordSize(p) && AluShape(a) && AluShape(b) && Is(a, ADD, RegForm) && (Is(b, ADD, ImmForm) || Is(b, SUB, ImmForm))
    requires JoinAddrAddi(a, b).Some?
    ensures SameResult(p, a, b, JoinAddrAddi(a, b).value) <==> b.a1 == a.a0 && (b.code == SUB ==> OwnNegative(p, b.a2))
  {
    hide ResultOf, InTurn;
    if AddrAddiFits(p, a, b) {
      forall g: int -> int
        ensures InTurn(p, a, b, g) == ResultOf(p, JoinAddrAddi(a, b).value, g)
      {
        AddrAddiRight(p, a, b, g);
      }
    } else {
      var g := AddrAddiWrong(p, a, b);
    }
  }

  /** What the first operation adds. */
  function Addend(a: Op): int {
    if a.code == SUB then -a.a2 else a.a2
  }

  lemma AddiAddrValues(p: nat, a: Op, b: Op, g: int -> int)
    requires WordSize(p) && AluShape(a) && AluShape(b) && (Is(a, ADD, ImmForm) || Is(a, SUB, ImmForm)) && Is(b, ADD, RegForm)
    requires JoinAddiAddr(a, b).Some?
    ensures var b2, d := JoinAddiAddr(a, b).value, Displacement(a, b);
      && ResultOf(p, b2, g) == Word(p, g(b2.a1) + g(b2.a2) + SignExtended(d))
      && InTurn(p, a, b, g) == Word(p, g(b2.a1) + g(b2.a2) + if b.a1 == a.a0 || b.a2 == a.a0 then d else 0)
  {
    hide ResultOf, Word, SignExtended, InTurn;
    AddImmValue(p, JoinAddiAddr(a, b).value, g);
    AddiAddrInTurn(p, a, b, g);
  }

  lemma AddiAddrInTurn(p: nat, a: Op, b: Op, g: int -> int)
    requires WordSize(p) && AluShape(a) && AluShape(b) && (Is(a, ADD, ImmForm) || Is(a, SUB, ImmForm)) && Is(b, ADD, RegForm)
    ensures var x, y := if b.a1 == a.a0 then a.a1 else b.a1, if b.a2 == a.a0 then a.a1 else b.a2;
      InTurn(p, a, b, g) == Word(p, g(x) + g(y) + if b.a1 == a.a0 || b.a2 == a.a0 then Displacement(a, b) else 0)
  {
    hide ResultOf, Word, SignExtended;
    if a.code == SUB { SubIValue(p, a, g); } else { AddIValue(p, a, g); }
    var f, x := Set(g, a.a0, ResultOf(p, a, g)), g(a.a1) + Addend(a);
    AddRValue(p, b, f);
    ModAdd(x, f(if b.a1 == a.a0 then b.a2 else b.a1), p);
    ModAdd(x, x, p);
  }

  lemma DisplacementWords(p: nat, x: int, d: int)
    requires WordSize(p) && -TWO_32 <= d <= TWO_32
    ensures p == TWO_32 || Is32Bit(d) ==> Word(p, x + SignExtended(d)) == Word(p, x + d)
    ensures !(p == TWO_32 || Is32Bit(d)) ==> Word(p, SignExtended(d)) != Word(p, d)
    ensures d % TWO_32 == 0 ==> SignExtended(d) == 0
    ensures d % TWO_32 != 0 ==> Word(p, SignExtended(d)) != Word(p, 0)
  {
  }

  predicate AddiAddrFits(p: nat, a: Op, b: Op) {
    if b.a1 == a.a0 || b.a2 == a.a0 then p == TWO_32 || Is32Bit(Displacement(a, b)) else Displacement(a, b) % TWO_32 == 0
  }

  lemma AddiAddrRight(p: nat, a: Op, b: Op, g: int -> int)
    requires WordSize(p) && AluShape(a) && AluShape(b) && (Is(a, ADD, ImmForm) || Is(a, SUB, ImmForm)) && Is(b, ADD, RegForm)
    requires JoinAddiAddr(a, b).Some? && AddiAddrFits(p, a, b)
    ensures InTurn(p, a, b, g) == ResultOf(p, JoinAddiAddr(a, b).value, g)
  {
    hide ResultOf, InTurn, Word, SignExtended, Displacement, AluShape, JoinAddiAddr, Is;
    var b2 := JoinAddiAddr(a, b).value;
    AddiAddrValues(p, a, b, g);
    DisplacementBound(a, b);
    DisplacementWords(p, g(b2.a1) + g(b2.a2), Displacement(a, b));
  }

  lemma DisplacementBound(a: Op, b: Op)
    requires JoinAddiAddr(a, b).Some?
    ensures -TWO_32 <= Displacement(a, b) <= TWO_32
  {
  }

  lemma AddiAddrWrong(p: nat, a: Op, b: Op) returns (g: int -> int)
    requires WordSize(p) && AluShape(a) && AluShape(b) && (Is(a, ADD, ImmForm) || Is(a, SUB, ImmForm)) && Is(b, ADD, RegForm)
    requires JoinAddiAddr(a, b).Some? && !AddiAddrFits(p, a, b)
    ensures InTurn(p, a, b, g) != ResultOf(p, JoinAddiAddr(a, b).value, g)
  {
    g := x => 0;
    hide ResultOf, InTurn, Word, SignExtended;
    AddiAddrValues(p, a, b, g);
    DisplacementWords(p, 0, Displacement(a, b));
  }

  /** ADD|IMM or SUB|IMM followed by ADD|REG: the displacement must still fit its field
      after it has been negated or doubled. */
  lemma AddiAddrExact(p: nat, a: Op, b: Op)
    requires WordSize(p) && AluShape(a) && AluShape(b) && (Is(a, ADD, ImmForm) || Is(a, SUB, ImmForm)) && Is(b, ADD, RegForm)
    requires JoinAddiAddr(a, b).Some?
    ensures SameResult(p, a, b, JoinAddiAddr(a, b).value) <==>
            if b.a1 == a.a0 || b.a2 == a.a0 then p == TWO_32 || Is32Bit(Displacement(a, b))
            else Displacement(a, b) % TWO_32 == 0
  {
    hide ResultOf, InTurn;
    if AddiAddrFits(p, a, b) {
      forall g: int -> int
        ensures InTurn(p, a, b, g) == ResultOf(p, JoinAddiAddr(a, b).value, g)
      {
        AddiAddrRight(p, a, b, g);
      }
    } else {
      var g := AddiAddrWrong(p, a, b);
    }
  }

  // ---- The passes ----------------------------------------------------------------------------------

  predicate IsFirst(pass: Pass, op: Op) {
    match pass
    case JoinAddMul => Is(op, MUL, ImmForm) || Is(op, LSH, ImmForm)
    case JoinAddImm => Is(op, ADD, RegForm) || Is(op, ADD, ImmForm) || Is(op, SUB, ImmForm)
  }

  /** The list when operations below n have been looked at. */
  function FuseAll(pass: Pass, ops: seq<Op>, liveOut: seq<set<int>>, n: nat): (r: seq<Op>)
    requires n <= |ops| == |liveOut|
    ensures |r| == |ops| && forall k :: n < k < |ops| ==> r[k] == ops[k]
  {
    if n == 0 then ops
    else
      var r := FuseAll(pass, ops, liveOut, n - 1);
      if n < |ops| && Join(pass, r[n - 1], r[n], liveOut[n]).Some?
      then Merged(r, n - 1, Join(pass, r[n - 1], r[n], liveOut[n]).value) else r
  }

  /** `join_2ops`, for one pair of codes. */
  method JoinPair(ops: array<Op>, i: nat, liveOut: set<int>, first: Code, firstMode: Mode, second: Code, secondMode: Mode, pass: Pass)
    returns (change: bool)
    requires i + 1 < ops.Length
    requires Is(ops[i], first, firstMode) ==> IsFirst(pass, ops[i])
    modifies ops
    ensures var s := old(ops[..]); var j := Join(pass, s[i], s[i + 1], liveOut);
      && change == (Is(s[i], first, firstMode) && Is(s[i + 1], second, secondMode) && j.Some?)
      && ops[..] == if change then Merged(s, i, j.value) else s
  {
    change := false;
    if Is(ops[i], first, firstMode) {
      if RelatedOp(ops[i], ops[i + 1], liveOut) && Is(ops[i + 1], second, secondMode) {
        var joined := Join(pass, ops[i], ops[i + 1], liveOut);
        if joined.Some? {
          ops[i], ops[i + 1] := MadeNop(ops[i]), joined.value;
          change := true;
        }
      }
    }
  }

  /** The tries of `jit_optimize_join_addmul` at one operation. */
  method JoinAddMulAt(ops: array<Op>, i: nat, liveOut: set<int>) returns (change: bool)
    requires i + 1 < ops.Length
    modifies ops
    ensures var s := old(ops[..]); var j := Join(JoinAddMul, s[i], s[i + 1], liveOut);
      change == j.Some? && ops[..] == if change then Merged(s, i, j.value) else s
  {
    var c := JoinPair(ops, i, liveOut, MUL, ImmForm, ADD, ImmForm, JoinAddMul);
    change := c;
    c := JoinPair(ops, i, liveOut, LSH, ImmForm, ADD, ImmForm, JoinAddMul);
    change := change || c;
    c := JoinPair(ops, i, liveOut, MUL, ImmForm, ADD, RegForm, JoinAddMul);
    change := change || c;
    c := JoinPair(ops, i, liveOut, LSH, ImmForm, ADD, RegForm, JoinAddMul);
    change := change || c;
    c := JoinPair(ops, i, liveOut, MUL, ImmForm, OR, ImmForm, JoinAddMul);
    change := change || c;
    c := JoinPair(ops, i, liveOut, LSH, ImmForm, OR, ImmForm, JoinAddMul);
    change := change || c;
  }

  /** The tries of `jit_optimize_join_addimm` at one operation. */
  method JoinAddImmAt(ops: array<Op>, i: nat, liveOut: set<int>) returns (change: bool)
    requires i + 1 < ops.Length
    modifies ops
    ensures var s := old(ops[..]); var j := Join(JoinAddImm, s[i], s[i + 1], liveOut);
      change == j.Some? && ops[..] == if change then Merged(s, i, j.value) else s
  {
    var c := JoinPair(ops, i, liveOut, ADD, RegForm, ADD, ImmForm, JoinAddImm);
    change := c;
    c := JoinPair(ops, i, liveOut, ADD, RegForm, SUB, ImmForm, JoinAddImm);
    change := change || c;
    c := JoinPair(ops, i, liveOut, ADD, ImmForm, ADD, RegForm, JoinAddImm);
    change := change || c;
    c := JoinPair(ops, i, liveOut, SUB, ImmForm, ADD, RegForm, JoinAddImm);
    change := change || c;
  }

  /** Either pass.  The last operation of a list is never one that could be joined. */
  method OptimizeJoin(pass: Pass, ops: array<Op>, liveOut: seq<set<int>>) returns (change: bool)
    requires ops.Length == |liveOut| && (ops.Length > 0 ==> !IsFirst(pass, ops[ops.Length - 1]))
    modifies ops
    ensures ops[..] == FuseAll(pass, old(ops[..]), liveOut, ops.Length)
    ensures !change ==> ops[..] == old(ops[..])
  {
    hide Join, Merged, IsFirst;
    change := false;
    for i := 0 to ops.Length
      invariant ops[..] == FuseAll(pass, old(ops[..]), liveOut, i) && (!change ==> ops[..] == old(ops[..]))
    {
      if i + 1 < ops.Length {
        var c;
        match pass {
          case JoinAddMul => c := JoinAddMulAt(ops, i, liveOut[i + 1]);
          case JoinAddImm => c := JoinAddImmAt(ops, i, liveOut[i + 1]);
        }
        change := change || c;
      }
    }
  }

  // ---- Whole runs -----------------------------------------------------------------------------------

  /** The two operations are created with the operands they are meant to have. */
  predicate PairShape(pass: Pass, a: Op, b: Op) {
    IsFirst(pass, a) && (Is(b, ADD, ImmForm) || Is(b, ADD, RegForm) || Is(b, SUB, ImmForm) || Is(b, OR, ImmForm)) ==>
      AluShape(a) && AluShape(b)
  }

  /** When a pair is joined rightly. */
  predicate JoinRight(p: nat, pass: Pass, a: Op, b: Op) {
    match pass
    case JoinAddMul => b.a1 == a.a0 || (Is(b, ADD, RegForm) && b.a2 == a.a0)
    case JoinAddImm => if Is(a, ADD, RegForm) then AddrAddiFits(p, a, b) else AddiAddrFits(p, a, b)
  }

  lemma JoinIsExact(p: nat, pass: Pass, a: Op, b: Op, liveOut: set<int>)
    requires WordSize(p) && PairShape(pass, a, b) && Join(pass, a, b, liveOut).Some?
    ensures SameResult(p, a, b, Join(pass, a, b, liveOut).value) <==> JoinRight(p, pass, a, b)
  {
    hide SameResult;
    match pass
    case JoinAddMul =>
      if Is(b, ADD, ImmForm) {
        MuliAddiExact(p, a, b);
      } else if Is(b, ADD, RegForm) {
        MuliAddrExact(p, a, b);
      } else {
        MuliOriExact(p, a, b);
      }
    case JoinAddImm =>
      if Is(a, ADD, RegForm) {
        AddrAddiExact(p, a, b);
      } else {
        AddiAddrExact(p, a, b);
      }
  }

  lemma UsesOf(op: Op)
    requires op.t0 == TREG && op.t1 == REG
    ensures op.Uses() == {op.a1} + if op.t2 == REG then {op.a2} else {}
  {
    assert op.T(0) == op.t0 && op.T(1) == op.t1 && op.T(2) == op.t2;
    assert op.A(1) in op.Uses();
    assert op.t2 == REG ==> op.A(2) in op.Uses();
  }

  /** Codes and forms. */
  ghost predicate JoinedForm(a: Op, b: Op, b2: Op) {
    && InAlu(a.code) && InAlu(b.code) && InAlu(b2.code) && a.jmp.None? && b.jmp.None? && b2.jmp.None?
    && b.t0 == TREG && PairShaped(a, b, b2)
  }

  /** And registers: everything but the value. */
  ghost predicate JoinedOk(a: Op, b: Op, b2: Op, liveOut: set<int>) {
    JoinedForm(a, b, b2) && b2.Uses() <= a.Uses() + (b.Uses() - {a.a0}) && (a.a0 !in liveOut || b.a0 == a.a0)
  }

  lemma AluComputes(code: Code)
    requires InAlu(code)
    ensures Computes(code) && !MayBranch(code) && !TakesArgs(code) && code != PROLOG && !IsLanding(code)
  {
  }

  lemma FormOfJoined(a: Op, b: Op, b2: Op)
    requires AluShape(a) && AluShape(b) && InAlu(a.code) && InAlu(b.code) && InAlu(b2.code)
    requires b2.jmp.None? && b2.t0 == TREG && b2.t1 == REG && b2.t2 != TREG && b2.a0 == b.a0
    ensures JoinedForm(a, b, b2)
  {
    hide InAlu, Computes, MayBranch, TakesArgs, IsLanding;
    AluComputes(a.code);
    AluComputes(b.code);
    AluComputes(b2.code);
  }

  /** The fused operation is of the same kind as the second, whatever the two do. */
  lemma JoinHasForm(pass: Pass, a: Op, b: Op, liveOut: set<int>)
    requires PairShape(pass, a, b) && Join(pass, a, b, liveOut).Some?
    ensures JoinedForm(a, b, Join(pass, a, b, liveOut).value)
  {
    hide JoinedForm, Pow2, Shift, Displacement;
    FormOfJoined(a, b, Join(pass, a, b, liveOut).value);
  }

  /** The fused operation writes what the second did and reads only what is there. */
  lemma JoinedIsOk(a: Op, b: Op, b2: Op, live: set<int>, liveOut: set<int>)
    requires AluShape(a) && AluShape(b) && InAlu(a.code) && InAlu(b.code) && InAlu(b2.code) && live == a.Uses() + (b.Uses() - {a.a0})
    requires b2.jmp.None? && b2.t0 == TREG && b2.t1 == REG && b2.t2 != TREG && b2.a0 == b.a0
    requires b2.a1 in live && (b2.t2 == REG ==> b2.a2 in live)
    requires a.a0 !in liveOut || b.a0 == a.a0
    ensures JoinedOk(a, b, b2, liveOut)
  {
    hide InAlu, JoinedForm;
    UsesOf(b2);
    FormOfJoined(a, b, b2);
  }

  /** What the fused operation may read. */
  function Readable(a: Op, b: Op): set<int> {
    a.Uses() + (b.Uses() - {a.a0})
  }

  lemma ReadableIs(a: Op, b: Op)
    requires AluShape(a) && AluShape(b)
    ensures a.a1 in Readable(a, b) && (a.t2 == REG ==> a.a2 in Readable(a, b))
    ensures (b.a1 != a.a0 ==> b.a1 in Readable(a, b)) && (b.t2 == REG && b.a2 != a.a0 ==> b.a2 in Readable(a, b))
  {
    UsesOf(a);
    UsesOf(b);
  }

  lemma JoinedAddMul(p: nat, a: Op, b: Op, liveOut: set<int>)
    requires PairShape(JoinAddMul, a, b) && Join(JoinAddMul, a, b, liveOut).Some? && JoinRight(p, JoinAddMul, a, b)
    ensures JoinedOk(a, b, Join(JoinAddMul, a, b, liveOut).value, liveOut)
  {
    hide JoinedOk, Pow2, Shift;
    ReadableIs(a, b);
    JoinedIsOk(a, b, Join(JoinAddMul, a, b, liveOut).value, Readable(a, b), liveOut);
  }

  lemma JoinedAddImm(a: Op, b: Op, liveOut: set<int>)
    requires PairShape(JoinAddImm, a, b) && Join(JoinAddImm, a, b, liveOut).Some?
    ensures JoinedOk(a, b, Join(JoinAddImm, a, b, liveOut).value, liveOut)
  {
    hide JoinedOk, Displacement;
    ReadableIs(a, b);
    JoinedIsOk(a, b, Join(JoinAddImm, a, b, liveOut).value, Readable(a, b), liveOut);
  }

  lemma JoinedShape(p: nat, pass: Pass, a: Op, b: Op, liveOut: set<int>)
    requires PairShape(pass, a, b) && Join(pass, a, b, liveOut).Some? && JoinRight(p, pass, a, b)
    ensures JoinedOk(a, b, Join(pass, a, b, liveOut).value, liveOut)
  {
    hide JoinedOk, Join, PairShape, JoinRight;
    match pass
    case JoinAddMul => JoinedAddMul(p, a, b, liveOut);
    case JoinAddImm => JoinedAddImm(a, b, liveOut);
  }

  lemma JoinedPairOk(env: Env<int, Memory>, p: nat, a: Op, b: Op, b2: Op, liveOut: set<int>)
    requires ComputesWords(env, p) && JoinedOk(a, b, b2, liveOut) && SameEffect(env, a, b, b2)
    ensures PairOk(env, a, b, b2, liveOut)
  {
    hide SameEffect, PairShaped;
    assert NoEffect(env, a);
  }

  lemma JoinPairOk(env: Env<int, Memory>, p: nat, pass: Pass, a: Op, b: Op, liveOut: set<int>)
    requires ComputesWords(env, p) && PairShape(pass, a, b) && Join(pass, a, b, liveOut).Some? && JoinRight(p, pass, a, b)
    ensures PairOk(env, a, b, Join(pass, a, b, liveOut).value, liveOut)
  {
    hide SameEffect, SameResult, ComputesWords, Join, PairShape, JoinRight, PairOk, PairShaped;
    var b2 := Join(pass, a, b, liveOut).value;
    JoinedShape(p, pass, a, b, liveOut);
    WordsHaveSize(env, p);
    JoinIsExact(p, pass, a, b, liveOut);
    SameEffectIsSameResult(env, p, a, b, b2);
    JoinedPairOk(env, p, a, b, b2, liveOut);
  }

  lemma WordsHaveSize(env: Env<int, Memory>, p: nat)
    requires ComputesWords(env, p)
    ensures WordSize(p)
  {
  }

  lemma JoinedIsNotFirst(pass: Pass, a: Op, b: Op, liveOut: set<int>)
    requires Join(pass, a, b, liveOut).Some?
    ensures IsFirst(pass, a) && !IsFirst(pass, Join(pass, a, b, liveOut).value) && !IsFirst(pass, MadeNop(a))
    ensures Is(b, ADD, ImmForm) || Is(b, ADD, RegForm) || Is(b, SUB, ImmForm) || Is(b, OR, ImmForm)
  {
  }

  /** An operation a pass can still start from is one of the program. */
  lemma {:induction false} FirstIsOriginal(pass: Pass, ops: seq<Op>, liveOut: seq<set<int>>, n: nat, k: nat)
    requires n <= |ops| == |liveOut| && k < |ops|
    ensures var r := FuseAll(pass, ops, liveOut, n); IsFirst(pass, r[k]) ==> r[k] == ops[k]
  {
    hide Join, IsFirst, MadeNop;
    if n > 0 {
      FirstIsOriginal(pass, ops, liveOut, n - 1, k);
      var r := FuseAll(pass, ops, liveOut, n - 1);
      if n < |ops| && Join(pass, r[n - 1], r[n], liveOut[n]).Some? {
        JoinedIsNotFirst(pass, r[n - 1], r[n], liveOut[n]);
      }
    }
  }

  /** What a pass relies on without testing it, where execution may come. */
  ghost predicate Joinable(p: nat, pass: Pass, ops: seq<Op>, liveOut: seq<set<int>>, reach: set<nat>)
    requires |ops| == |liveOut|
  {
    forall i: nat :: i + 1 < |ops| ==>
      PairShape(pass, ops[i], ops[i + 1]) &&
      (i in reach && Join(pass, ops[i], ops[i + 1], liveOut[i + 1]).Some? ==> JoinRight(p, pass, ops[i], ops[i + 1]))
  }

  /** One fusion on the way. */
  lemma FuseUnderway(env: Env<int, Memory>, p: nat, pass: Pass, first: seq<Op>, r: seq<Op>, targets: set<nat>, needs: Needs,
                     liveOut: seq<set<int>>, c: Cfg<int, Memory>, i: nat, b2: Op)
    requires ComputesWords(env, p) && i + 1 < |r| == |liveOut| && Underway(env, first, r, targets, needs, liveOut, c)
    requires PairShape(pass, r[i], r[i + 1]) && Join(pass, r[i], r[i + 1], liveOut[i + 1]) == Some(b2)
    requires i in needs.reach ==> JoinRight(p, pass, r[i], r[i + 1])
    ensures |needs.into| == |needs.out| == |r|
    ensures Underway(env, first, Merged(r, i, b2), targets, MergedNeeds(needs, r[i + 1], i, b2), liveOut, c)
  {
    hide Underway, ComputesWords, PairShape, JoinRight, Join, PairOk, PairShaped;
    UnderwayShape(env, first, r, targets, needs, liveOut, c);
    JoinHasForm(pass, r[i], r[i + 1], liveOut[i + 1]);
    if i in needs.reach {
      JoinPairOk(env, p, pass, r[i], r[i + 1], liveOut[i + 1]);
    }
    MergeUnderway(env, first, r, targets, needs, liveOut, i, b2, c);
  }

  /** What a pass relies on holds of the pair it comes to. */
  lemma PairIsOriginal(p: nat, pass: Pass, ops: seq<Op>, liveOut: seq<set<int>>, reach: set<nat>, n: nat)
    requires |ops| == |liveOut| && Joinable(p, pass, ops, liveOut, reach) && 0 < n < |ops|
    requires var r := FuseAll(pass, ops, liveOut, n - 1); Join(pass, r[n - 1], r[n], liveOut[n]).Some?
    ensures var r := FuseAll(pass, ops, liveOut, n - 1);
      PairShape(pass, r[n - 1], r[n]) && (n - 1 in reach ==> JoinRight(p, pass, r[n - 1], r[n]))
  {
    hide FuseAll, PairShape, JoinRight, Join, IsFirst;
    var r := FuseAll(pass, ops, liveOut, n - 1);
    FirstIsOriginal(pass, ops, liveOut, n - 1, n - 1);
    JoinedIsNotFirst(pass, r[n - 1], r[n], liveOut[n]);
    assert r[n - 1] == ops[n - 1] && r[n] == ops[n];
  }

  lemma FuseAllNext(pass: Pass, ops: seq<Op>, liveOut: seq<set<int>>, n: nat)
    requires 0 < n <= |ops| == |liveOut|
    ensures var r := FuseAll(pass, ops, liveOut, n - 1);
      FuseAll(pass, ops, liveOut, n) ==
      if n < |ops| && Join(pass, r[n - 1], r[n], liveOut[n]).Some?
      then Merged(r, n - 1, Join(pass, r[n - 1], r[n], liveOut[n]).value) else r
  {
    hide Join;
  }

  /** Fusing changes no run, on 32-bit and on 64-bit machines. */
  lemma {:induction false} FusionPreservesRuns(env: Env<int, Memory>, p: nat, pass: Pass, first: seq<Op>, ops: seq<Op>, targets: set<nat>,
                                               needs: Needs, liveOut: seq<set<int>>, c: Cfg<int, Memory>, n: nat) returns (needs': Needs)
    requires ComputesWords(env, p) && |ops| == |liveOut| && Joinable(p, pass, ops, liveOut, needs.reach) && n <= |ops|
    requires Underway(env, first, ops, targets, needs, liveOut, c)
    ensures Underway(env, first, FuseAll(pass, ops, liveOut, n), targets, needs', liveOut, c) && needs'.reach == needs.reach
  {
    hide Underway, ComputesWords, PairShape, JoinRight, Merged, Join, Joinable, FuseAll;
    if n == 0 {
      needs' := needs;
      assert FuseAll(pass, ops, liveOut, 0) == ops by { FuseNone(pass, ops, liveOut); }
    } else {
      needs' := FusionPreservesRuns(env, p, pass, first, ops, targets, needs, liveOut, c, n - 1);
      FuseAllNext(pass, ops, liveOut, n);
      var r := FuseAll(pass, ops, liveOut, n - 1);
      if n < |ops| && Join(pass, r[n - 1], r[n], liveOut[n]).Some? {
        var b2 := Join(pass, r[n - 1], r[n], liveOut[n]).value;
        PairIsOriginal(p, pass, ops, liveOut, needs.reach, n);
        FuseUnderway(env, p, pass, first, r, targets, needs', liveOut, c, n - 1, b2);
        needs' := MergedNeeds(needs', r[n], n - 1, b2);
      }
    }
  }

  lemma FuseNone(pass: Pass, ops: seq<Op>, liveOut: seq<set<int>>)
    requires |ops| == |liveOut|
    ensures FuseAll(pass, ops, liveOut, 0) == ops
  {
  }
}
