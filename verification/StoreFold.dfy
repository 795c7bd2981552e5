/** `jit_optimize_st_ops`: a constant that is moved into a register only to be
    stored is stored as an immediate. */
module StoreFold {
  import opened Ops
  import opened Machine
  import opened Rewrites
  import opened Merging

  predicate Is32Bit(x: int) {
    -0x8000_0000 <= x <= 0x7fff_ffff
  }

  /** The value of a 32-bit immediate field in a wider operation. */
  function SignExtended(x: int): int {
    (x + 0x8000_0000) % 0x1_0000_0000 - 0x8000_0000
  }

  // ---- Memory ------------------------------------------------------------------------

  type Memory = int -> int

  /** Byte k of a word, lowest first. */
  function Byte(v: int, k: nat): (b: int)
    ensures 0 <= b < 256
    decreases k
  {
    if k == 0 then v % 256 else Byte(v / 256, k - 1)
  }

  function Stored(m: Memory, at: int, v: int, size: nat): Memory {
    x => if at <= x < at + size then Byte(v, x - at) else m(x)
  }

  /** A machine on which moves, stores and stores of immediates mean what they are
      for; an access has `size` bytes. */
  ghost predicate StoresBytes(env: Env<int, Memory>) {
    && (forall i :: env.imm(i) == i)
    && (forall s: Sig, v: seq<int>, m: Memory :: s.code == MOV ==> env.effect(s, v, m) == m)
    && (forall s: Sig, v: seq<int>, m: Memory :: |v| == 3 && s.code == MOV ==> env.value(s, v, m) == v[1])
    && (forall s: Sig, v: seq<int>, m: Memory :: |v| == 3 ==>
          && (s.code == ST && s.size >= 0 ==> env.effect(s, v, m) == Stored(m, v[0], v[1], s.size))
          && (s.code == STX && s.size >= 0 ==> env.effect(s, v, m) == Stored(m, v[0] + v[1], v[2], s.size))
          && (s.code == X86_STI && s.size >= 0 ==> env.effect(s, v, m) == Stored(m, v[0], SignExtended(v[1]), s.size))
          && (s.code == X86_STXI && s.size >= 0 ==> env.effect(s, v, m) == Stored(m, v[0] + v[1], SignExtended(v[2]), s.size)))
  }

  // ---- The pass -------------------------------------------------------------------------

  predicate IsMovImm(op: Op) {
    op.code == MOV && op.mode == ImmForm && !op.unsigned
  }

  /** The two tests of the pass. */
  predicate FoldsSt(prev: Op, op: Op, liveOut: set<int>) {
    op.code == ST && IsMovImm(prev) && op.a1 == prev.a0 && Is32Bit(prev.a1) && op.a1 !in liveOut
  }

  predicate FoldsStx(prev: Op, op: Op, liveOut: set<int>) {
    op.code == STX && IsMovImm(prev) && op.a2 == prev.a0 && Is32Bit(prev.a1) && op.a2 !in liveOut
  }

  function FoldedSt(prev: Op, op: Op): Op {
    var r := op.(code := X86_STI, unsigned := false, t1 := IMM, t2 := NO, a1 := prev.a1);
    if op.mode != ImmForm then r.(mode := RegForm, t0 := REG) else r.(mode := ImmForm, t0 := IMM)
  }

  function FoldedStx(prev: Op, op: Op): Op {
    var r := op.(code := X86_STXI, unsigned := false, t1 := REG, t2 := IMM, a2 := prev.a1);
    if op.mode != ImmForm then r.(mode := RegForm, t0 := REG) else r.(mode := ImmForm, t0 := IMM)
  }

  predicate Folds(prev: Op, op: Op, liveOut: set<int>) {
    FoldsSt(prev, op, liveOut) || FoldsStx(prev, op, liveOut)
  }

  function Folded(prev: Op, op: Op): Op {
    if op.code == ST then FoldedSt(prev, op) else FoldedStx(prev, op)
  }

  /** The list when operations below n have been looked at. */
  function FoldAll(ops: seq<Op>, liveOut: seq<set<int>>, n: nat): (r: seq<Op>)
    requires n <= |ops| == |liveOut|
    ensures |r| == |ops| && forall k :: n <= k < |ops| ==> r[k] == ops[k]
  {
    if n == 0 then ops
    else
      var r := FoldAll(ops, liveOut, n - 1);
      if n > 1 && Folds(r[n - 2], r[n - 1], liveOut[n - 1]) then Merged(r, n - 2, Folded(r[n - 2], r[n - 1])) else r
  }

  /** The two tests at operation i. */
  method OptimizeStOp(ops: array<Op>, i: nat, liveOut: set<int>)
    requires i < ops.Length
    modifies ops
    ensures var s := old(ops[..]);
      ops[..] == if i > 0 && Folds(s[i - 1], s[i], liveOut) then Merged(s, i - 1, Folded(s[i - 1], s[i])) else s
  {
    hide MadeNop, FoldedStx, Is32Bit;
    if ops[i].code == ST && i > 0 && IsMovImm(ops[i - 1]) && ops[i].a1 == ops[i - 1].a0 && Is32Bit(ops[i - 1].a1) && ops[i].a1 !in liveOut {
      ops[i] := FoldedSt(ops[i - 1], ops[i]);
      ops[i - 1] := MadeNop(ops[i - 1]);
    }
    if ops[i].code == STX && i > 0 && IsMovImm(ops[i - 1]) && ops[i].a2 == ops[i - 1].a0 && Is32Bit(ops[i - 1].a1) && ops[i].a2 !in liveOut {
      ops[i] := FoldedStx(ops[i - 1], ops[i]);
      ops[i - 1] := MadeNop(ops[i - 1]);
    }
  }

  method OptimizeStOps(ops: array<Op>, liveOut: seq<set<int>>)
    requires ops.Length == |liveOut|
    modifies ops
    ensures ops[..] == FoldAll(old(ops[..]), liveOut, ops.Length)
  {
    hide Folds, Folded, Merged;
    for i := 0 to ops.Length
      invariant ops[..] == FoldAll(old(ops[..]), liveOut, i)
    {
      OptimizeStOp(ops, i, liveOut[i]);
    }
  }

  // ---- When it is right -----------------------------------------------------------------------

  /** Operand specifications of moves and stores. */
  predicate StoreShape(op: Op) {
    && (IsMovImm(op) ==> op.t0 == TREG && op.t1 == IMM && op.t2 == NO)
    && (op.code == ST || op.code == STX ==>
          && op.t0 == (if op.mode == ImmForm then IMM else REG) && op.t1 == REG && op.jmp.None? && op.size > 0
          && op.t2 == if op.code == ST then NO else REG)
  }

  /** The stored register is not part of the address: not tested by the pass. */
  predicate AddressFree(prev: Op, op: Op) {
    && (op.mode != ImmForm ==> op.a0 != prev.a0)
    && (op.code == STX ==> op.a1 != prev.a0)
  }

  function Operand(env: Env<int, Memory>, t: ArgType, a: int, f: int -> int): int {
    if t == REG then f(a) else env.imm(a)
  }

  /** The address an operation stores at, and what it stores. */
  function Address(env: Env<int, Memory>, op: Op, f: int -> int): int {
    if op.code == ST || op.code == X86_STI then Operand(env, op.t0, op.a0, f)
    else Operand(env, op.t0, op.a0, f) + Operand(env, op.t1, op.a1, f)
  }

  function StoredValue(env: Env<int, Memory>, op: Op, f: int -> int): int {
    match op.code
    case ST => Operand(env, op.t1, op.a1, f)
    case STX => Operand(env, op.t2, op.a2, f)
    case X86_STI => SignExtended(Operand(env, op.t1, op.a1, f))
    case _ => SignExtended(Operand(env, op.t2, op.a2, f))
  }

  lemma StoreEffect(env: Env<int, Memory>, op: Op, f: int -> int, m: Memory)
    requires StoresBytes(env) && op.jmp.None? && op.size >= 0 && op.code in {ST, STX, X86_STI, X86_STXI}
    ensures env.effect(SigOf(op), VirtVals(env, op, f), m) == Stored(m, Address(env, op, f), StoredValue(env, op, f), op.size)
  {
    hide VirtVals, Stored, SignExtended;
    Operands(env, op, f);
  }

  lemma Operands(env: Env<int, Memory>, op: Op, f: int -> int)
    requires op.jmp.None?
    ensures VirtVals(env, op, f) == [Operand(env, op.t0, op.a0, f), Operand(env, op.t1, op.a1, f), Operand(env, op.t2, op.a2, f)]
  {
    assert op.A(0) == op.a0 && op.A(1) == op.a1 && op.A(2) == op.a2;
  }

  lemma FoldedTarget(env: Env<int, Memory>, prev: Op, op: Op, liveOut: set<int>, g: int -> int)
    requires (forall i :: env.imm(i) == i) && StoreShape(op) && Folds(prev, op, liveOut) && AddressFree(prev, op)
    ensures var f := Set(g, prev.a0, prev.a1);
      && Address(env, op, f) == Address(env, Folded(prev, op), g)
      && StoredValue(env, op, f) == StoredValue(env, Folded(prev, op), g)
  {
    assert SignExtended(prev.a1) == prev.a1;
    hide SignExtended;
  }

  lemma FoldedSame(env: Env<int, Memory>, prev: Op, op: Op, liveOut: set<int>)
    requires StoresBytes(env) && StoreShape(prev) && StoreShape(op) && Folds(prev, op, liveOut) && AddressFree(prev, op)
    ensures SameEffect(env, prev, op, Folded(prev, op))
  {
    hide StoresBytes, VirtVals, Stored, After, Address, StoredValue;
    var b2 := Folded(prev, op);
    forall g: int -> int, m: Memory
      ensures var f := After(env, prev, g, m);
        env.effect(SigOf(op), VirtVals(env, op, f), m) == env.effect(SigOf(b2), VirtVals(env, b2, g), m)
    {
      var f := After(env, prev, g, m);
      MovedValue(env, prev, g, m);
      StoreEffect(env, op, f, m);
      StoreEffect(env, b2, g, m);
      FoldedTarget(env, prev, op, liveOut, g);
    }
  }

  lemma MovedValue(env: Env<int, Memory>, prev: Op, g: int -> int, m: Memory)
    requires StoresBytes(env) && IsMovImm(prev) && StoreShape(prev) && Is32Bit(prev.a1)
    ensures After(env, prev, g, m) == Set(g, prev.a0, prev.a1) && SignExtended(prev.a1) == prev.a1
    ensures forall i :: env.imm(i) == i
  {
  }

  /** With every other register far above, an address that uses the stored one is
      below the address without it. */
  lemma TargetMoves(env: Env<int, Memory>, prev: Op, op: Op, liveOut: set<int>, g: int -> int)
    requires (forall i :: env.imm(i) == i) && StoreShape(op) && Folds(prev, op, liveOut) && !AddressFree(prev, op)
    requires forall x :: g(x) == prev.a1 + op.size
    ensures var f := Set(g, prev.a0, prev.a1);
      && Address(env, op, f) + op.size <= Address(env, Folded(prev, op), g)
      && StoredValue(env, op, f) == prev.a1
  {
  }

  lemma StoredAt(m: Memory, at: int, v: int, size: nat, x: int)
    ensures Stored(m, at, v, size)(x) == if at <= x < at + size then Byte(v, x - at) else m(x)
  {
  }

  lemma FoldedDiffers(env: Env<int, Memory>, prev: Op, op: Op, liveOut: set<int>)
    requires StoresBytes(env) && StoreShape(prev) && StoreShape(op) && Folds(prev, op, liveOut) && !AddressFree(prev, op)
    ensures !SameEffect(env, prev, op, Folded(prev, op))
  {
    hide StoresBytes, VirtVals, After, Address, StoredValue, Stored, Byte;
    var b2, v := Folded(prev, op), prev.a1;
    var g: int -> int := x => v + op.size;
    var m: Memory := x => Byte(v, 0) + 1;
    var f := After(env, prev, g, m);
    MovedValue(env, prev, g, m);
    StoreEffect(env, op, f, m);
    StoreEffect(env, b2, g, m);
    var at := Address(env, op, f);
    TargetMoves(env, prev, op, liveOut, g);
    StoredAt(m, at, v, op.size, at);
    StoredAt(m, Address(env, b2, g), StoredValue(env, b2, g), op.size, at);
  }

  /** Exactly then folding is right: whenever the stored register is also an address
      operand, some memory tells the two apart. */
  lemma FoldExact(env: Env<int, Memory>, prev: Op, op: Op, liveOut: set<int>)
    requires StoresBytes(env) && StoreShape(prev) && StoreShape(op) && Folds(prev, op, liveOut)
    ensures SameEffect(env, prev, op, Folded(prev, op)) <==> AddressFree(prev, op)
  {
    if AddressFree(prev, op) {
      FoldedSame(env, prev, op, liveOut);
    } else {
      FoldedDiffers(env, prev, op, liveOut);
    }
  }

  lemma MovesOnly(env: Env<int, Memory>, prev: Op)
    requires StoresBytes(env) && IsMovImm(prev)
    ensures NoEffect(env, prev)
  {
  }

  lemma FoldPairOk(env: Env<int, Memory>, prev: Op, op: Op, liveOut: set<int>)
    requires StoresBytes(env) && StoreShape(prev) && StoreShape(op) && Folds(prev, op, liveOut) && AddressFree(prev, op)
    ensures PairOk(env, prev, op, Folded(prev, op), liveOut)
  {
    FoldedSame(env, prev, op, liveOut);
    hide StoresBytes, SameEffect;
    assert NoEffect(env, prev) by { MovesOnly(env, prev); }
    var b2 := Folded(prev, op);
    assert b2.T(0) == b2.t0 && b2.T(1) == b2.t1 && b2.T(2) == b2.t2;
    assert op.T(0) == op.t0 && op.T(1) == op.t1 && op.T(2) == op.t2;
    assert op.t0 == REG ==> op.A(0) in op.Uses();
    assert op.A(1) in op.Uses();
  }

  lemma FoldPairShaped(prev: Op, op: Op, liveOut: set<int>)
    requires StoreShape(prev) && StoreShape(op) && Folds(prev, op, liveOut)
    ensures PairShaped(prev, op, Folded(prev, op))
  {
    hide Computes, MayBranch, TakesArgs, IsLanding, SignExtended, Is32Bit;
    MovesOrStores(prev.code);
    MovesOrStores(op.code);
    MovesOrStores(Folded(prev, op).code);
  }

  lemma MovesOrStores(code: Code)
    requires code in {MOV, ST, STX, X86_STI, X86_STXI}
    ensures Computes(code) && !MayBranch(code) && !TakesArgs(code) && !IsLanding(code) && code != PROLOG
  {
  }

  /** What the pass relies on without testing it, where execution may come. */
  ghost predicate StoresFoldable(ops: seq<Op>, liveOut: seq<set<int>>, reach: set<nat>)
    requires |ops| == |liveOut|
  {
    && (forall i :: 0 <= i < |ops| ==> StoreShape(ops[i]))
    && (forall i: nat :: i in reach && i + 1 < |ops| && Folds(ops[i], ops[i + 1], liveOut[i + 1]) ==> AddressFree(ops[i], ops[i + 1]))
  }

  lemma FoldedIsNoMove(prev: Op, op: Op, liveOut: set<int>)
    requires Folds(prev, op, liveOut)
    ensures !IsMovImm(Folded(prev, op)) && !IsMovImm(MadeNop(prev))
  {
  }

  /** A constant move the pass still sees is one of the program. */
  lemma {:induction false} MovesAreOriginal(ops: seq<Op>, liveOut: seq<set<int>>, n: nat, k: nat)
    requires n <= |ops| == |liveOut| && k < |ops|
    ensures var r := FoldAll(ops, liveOut, n); IsMovImm(r[k]) ==> r[k] == ops[k]
  {
    hide Folded, Folds, MadeNop, IsMovImm;
    if n > 0 {
      MovesAreOriginal(ops, liveOut, n - 1, k);
      var r := FoldAll(ops, liveOut, n - 1);
      if n > 1 && Folds(r[n - 2], r[n - 1], liveOut[n - 1]) {
        FoldedIsNoMove(r[n - 2], r[n - 1], liveOut[n - 1]);
      }
    }
  }

  lemma FoldedIsOriginal(ops: seq<Op>, liveOut: seq<set<int>>, n: nat)
    requires 1 < n <= |ops| == |liveOut|
    requires var r := FoldAll(ops, liveOut, n - 1); Folds(r[n - 2], r[n - 1], liveOut[n - 1])
    ensures var r := FoldAll(ops, liveOut, n - 1); r[n - 2] == ops[n - 2] && r[n - 1] == ops[n - 1]
  {
    hide FoldAll;
    MovesAreOriginal(ops, liveOut, n - 1, n - 2);
  }

  /** One fold on the way. */
  lemma FoldUnderway(env: Env<int, Memory>, first: seq<Op>, r: seq<Op>, targets: set<nat>, needs: Needs,
                     liveOut: seq<set<int>>, c: Cfg<int, Memory>, i: nat)
    requires StoresBytes(env) && i + 1 < |r| && Underway(env, first, r, targets, needs, liveOut, c)
    requires |liveOut| == |r| && Folds(r[i], r[i + 1], liveOut[i + 1]) && StoreShape(r[i]) && StoreShape(r[i + 1])
    requires i in needs.reach ==> AddressFree(r[i], r[i + 1])
    ensures |needs.into| == |needs.out| == |r|
    ensures var b2 := Folded(r[i], r[i + 1]); var needs' := MergedNeeds(needs, r[i + 1], i, b2);
      && Underway(env, first, Merged(r, i, b2), targets, needs', liveOut, c)
      && Shrunk(needs, needs')
  {
    var b2 := Folded(r[i], r[i + 1]);
    hide Underway, StoresBytes, PairOk, PairShaped, StoreShape;
    UnderwayShape(env, first, r, targets, needs, liveOut, c);
    FoldPairShaped(r[i], r[i + 1], liveOut[i + 1]);
    if i in needs.reach {
      FoldPairOk(env, r[i], r[i + 1], liveOut[i + 1]);
    }
    MergeUnderway(env, first, r, targets, needs, liveOut, i, b2, c);
    FoldedReadsLess(r[i], r[i + 1]);
    assert Sound(r, targets, needs) && Computes(r[i].code) by { FoldedShrinks(env, first, r, targets, needs, liveOut, c, i); }
    ShrinkingNeeds(r, targets, needs, i, b2);
  }

  lemma FoldedShrinks(env: Env<int, Memory>, first: seq<Op>, r: seq<Op>, targets: set<nat>, needs: Needs,
                      liveOut: seq<set<int>>, c: Cfg<int, Memory>, i: nat)
    requires i + 1 < |r| && Underway(env, first, r, targets, needs, liveOut, c) && IsMovImm(r[i])
    ensures Sound(r, targets, needs) && Computes(r[i].code)
  {
  }

  /** Nothing more is needed where execution may come. */
  ghost predicate Shrunk(needs: Needs, needs': Needs) {
    && |needs'.into| == |needs.into| == |needs.out| == |needs'.out| && needs'.reach == needs.reach
    && forall k: nat :: k in needs.reach && k < |needs.into| ==> needs'.into[k] <= needs.into[k] && needs'.out[k] <= needs.out[k]
  }

  lemma FoldedReadsLess(prev: Op, op: Op)
    requires StoreShape(op) && (op.code == ST || op.code == STX)
    ensures Folded(prev, op).Uses() <= op.Uses() && op.Defs() == {}
  {
    var b2 := Folded(prev, op);
    assert b2.T(0) == b2.t0 && b2.T(1) == b2.t1 && b2.T(2) == b2.t2;
    assert op.T(0) == op.t0 && op.T(1) == op.t1 && op.T(2) == op.t2;
    assert op.t0 == REG ==> op.A(0) in op.Uses();
    assert op.A(1) in op.Uses();
  }

  /** Folding constant stores changes no run, for every access size, and the
      liveness it leaves behind is contained in the one it began with. */
  lemma {:induction false} FoldingPreservesRuns(env: Env<int, Memory>, first: seq<Op>, ops: seq<Op>, targets: set<nat>, needs: Needs,
                                                liveOut: seq<set<int>>, c: Cfg<int, Memory>, n: nat) returns (needs': Needs)
    requires StoresBytes(env) && |ops| == |liveOut| && StoresFoldable(ops, liveOut, needs.reach) && n <= |ops|
    requires Underway(env, first, ops, targets, needs, liveOut, c)
    ensures Underway(env, first, FoldAll(ops, liveOut, n), targets, needs', liveOut, c)
    ensures |needs.into| == |ops| && Shrunk(needs, needs')
  {
    hide Underway, StoresBytes, StoreShape, AddressFree, Folded, Merged, Folds;
    needs' := needs;
    UnderwayShape(env, first, ops, targets, needs, liveOut, c);
    if n > 0 {
      needs' := FoldingPreservesRuns(env, first, ops, targets, needs, liveOut, c, n - 1);
      var r := FoldAll(ops, liveOut, n - 1);
      if n > 1 && Folds(r[n - 2], r[n - 1], liveOut[n - 1]) {
        FoldedIsOriginal(ops, liveOut, n);
        FoldUnderway(env, first, r, targets, needs', liveOut, c, n - 2);
        needs' := MergedNeeds(needs', r[n - 1], n - 2, Folded(r[n - 2], r[n - 1]));
      }
    }
  }

  lemma ShrinkingNeeds(ops: seq<Op>, targets: set<nat>, needs: Needs, i: nat, b2: Op)
    requires Sound(ops, targets, needs) && i + 1 < |ops| && Computes(ops[i].code)
    requires b2.Uses() <= ops[i + 1].Uses() && ops[i + 1].Defs() == {}
    ensures Shrunk(needs, MergedNeeds(needs, ops[i + 1], i, b2))
  {
    assert Goes(ops, targets, i, i + 1);
    if i in needs.reach {
      assert SoundEdge(ops, needs, i, i + 1);
    }
    if i + 1 in needs.reach {
      assert SoundAt(ops[i + 1], needs.into[i + 1], needs.out[i + 1]);
    }
  }
}
