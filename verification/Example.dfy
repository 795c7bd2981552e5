/** One list, compiled as AMD64 does by default: immediates are lowered, dead code is
    removed, stores are folded, a product and a sum are fused.  All the theorem of
    `Compiler` asks for holds together. */
module Example {
  import opened Ops
  import opened Machine
  import opened Allocation
  import opened AllocSim
  import opened AllocSteps
  import opened Moving
  import opened RegAlloc
  import opened Insertion
  import opened Shapes
  import opened Liveness
  import opened Passes
  import opened Front
  import opened Compiler
  import opened Feasible
  import opened Generation
  import opened Fusion
  import opened WordMachine
  import opened StoreFold
  import Amd64Prepare
  import Bits
  import Flow
  import Layout
  import LongImm
  import Reaching
  import RegMap
  import SpillList

  // ---- A list -------------------------------------------------------------------------------------

  const R1 := MkReg(INT, 0, 1)
  const LARGE := 0x100_0000_0000

  const MUL4 := Op(MUL, ImmForm, false, TREG, REG, IMM, R1, R1, 4, 0, None, 0)
  const ADD1 := Op(ADD, ImmForm, false, TREG, REG, IMM, R1, R1, 1, 0, None, 0)

  function Move(c: int): Op {
    Op(MOV, ImmForm, false, TREG, IMM, NO, R1, c, 0, 0, None, 0)
  }

  function Prolog(info: int): Op {
    Op(PROLOG, Bare, false, IMM, NO, NO, 0, info, 0, 0, None, 0)
  }

  const RETURN := Op(RET, RegForm, false, REG, NO, NO, R1, 0, 0, 0, None, 0)

  /** Two functions: five times four plus one; and a loop that counts past what an
      immediate holds. */
  function TwoFunctions(): seq<Op> {
    [Op(CODESTART, Bare, false, NO, NO, NO, 0, 0, 0, 0, None, 0),
     Prolog(0), Move(5), MUL4, ADD1, RETURN,
     Prolog(1), Move(0), Op(LABEL, Bare, false, IMM, NO, NO, 0, 0, 0, 0, None, 0), ADD1,
     Op(BLT, ImmForm, false, IMM, REG, IMM, 0, R1, LARGE, 0, Some(8), 0), RETURN]
  }

  function Infos(): map<int, seq<ArgInfo>> {
    map[0 := [], 1 := []]
  }

  predicate InFamily(op: Op) {
    || op.code in {CODESTART, PROLOG, RET, MOV, FULL_SPILL, LABEL, BLT}
    || op == MUL4 || op == ADD1
  }

  predicate InList(op: Op) {
    || op == MUL4 || op == ADD1 || op == RETURN
    || (op.code == MOV && op == Move(op.a1)) || (op.code == PROLOG && op == Prolog(op.a1) && op.a1 in Infos())
    || (op.code in {CODESTART, LABEL} && op.t0 != REG && op.t0 != TREG && op.t1 == op.t2 == NO && op.jmp.None? && op.mode == Bare)
    || (op.code == BLT && op.mode == ImmForm && op.t0 == IMM && op.t1 == REG && op.t2 == IMM && op.a1 == R1 && op.jmp == Some(8))
  }

  lemma ListIs(i: nat)
    requires i < |TwoFunctions()|
    ensures InList(TwoFunctions()[i]) && InFamily(TwoFunctions()[i])
    ensures |TwoFunctions()| > 8 && TwoFunctions()[8].code == LABEL
  {
  }

  lemma InListShaped(op: Op, info: seq<ArgInfo>)
    requires InList(op)
    ensures OpShape(op, info) && Lowerable(op)
  {
    hide Plain, Shaped, OperandsOk, Flow.OpOk, StoreShape, AluForm, Lowerable;
    InListOperands(op, info);
    InListPlain(op, info);
    InListLowerable(op);
  }

  lemma InListPlain(op: Op, info: seq<ArgInfo>)
    requires InList(op)
    ensures Plain(op, info) && Shaped(op, info) && StoreShape(op) && AluForm(op)
  {
    InListShape(op, info);
    hide Shaped;
  }

  lemma InListShape(op: Op, info: seq<ArgInfo>)
    requires InList(op)
    ensures Shaped(op, info)
  {
  }

  lemma InListLowerable(op: Op)
    requires InList(op)
    ensures Lowerable(op)
  {
    assert op.T(0) == op.t0 && op.T(1) == op.t1 && op.T(2) == op.t2 && op.A(0) == op.a0 && op.A(1) == op.a1;
  }

  lemma InListOperands(op: Op, info: seq<ArgInfo>)
    requires InList(op)
    ensures OperandsOk(op) && Flow.OpOk(info, op)
  {
    assert op.T(0) == op.t0 && op.T(1) == op.t1 && op.T(2) == op.t2 && op.A(0) == op.a0 && op.A(1) == op.a1;
  }

  lemma ListShaped()
    ensures ListShape(TwoFunctions(), Infos()) && AllLowerable(TwoFunctions()) && Layout.PointsWell(TwoFunctions())
  {
    hide OpShape, Lowerable, DeclaredAt, InFamily, InList, TwoFunctions, AdjacentAt, LandsAt, Layout.PointsAt;
    forall i | 0 <= i < |TwoFunctions()|
      ensures WellFormedAt(TwoFunctions(), Infos(), i) && Lowerable(TwoFunctions()[i]) && Layout.PointsAt(TwoFunctions(), i)
    {
      ListIs(i);
      InListShaped(TwoFunctions()[i], DeclaredAt(TwoFunctions(), Infos(), i));
      InListLands(TwoFunctions(), i);
    }
  }

  lemma InListLands(ops: seq<Op>, i: nat)
    requires i < |ops| && InList(ops[i]) && |ops| > 8 && ops[8].code == LABEL
    ensures AdjacentAt(ops, i) && LandsAt(ops, i) && Layout.PointsAt(ops, i) && (ops[i].code == PROLOG ==> ops[i].a1 in Infos())
  {
  }

  /** Where the operations from lo to hi lead. */
  lemma RangeStays(lo: nat, hi: nat)
    requires (lo, hi) == (1, 6) || (lo, hi) == (6, 12)
    ensures |TwoFunctions()| == 12 && Flow.End(TwoFunctions(), lo + 1) == hi
    ensures forall i: nat :: lo <= i < hi ==>
      var op := TwoFunctions()[i];
      && (i + 1 == hi ==> op.code == RET) && op.code != JMP && (op.jmp.Some? ==> lo <= op.jmp.value < hi)
  {
    hide Flow.End;
    EndIs(TwoFunctions(), lo + 1, hi);
  }

  lemma EndIs(ops: seq<Op>, k: nat, hi: nat)
    requires k <= hi <= |ops| && (forall i :: k <= i < hi ==> ops[i].code != PROLOG) && (hi < |ops| ==> ops[hi].code == PROLOG)
    ensures Flow.End(ops, k) == hi
  {
    hide Flow.End;
  }

  lemma FunctionStays(lo: nat, hi: nat)
    requires (lo, hi) == (1, 6) || (lo, hi) == (6, 12)
    ensures Flow.End(TwoFunctions(), lo + 1) == hi && forall i: nat :: i in Reach(Fun(TwoFunctions(), {}, lo)) ==> lo <= i < hi
  {
    hide TwoFunctions, Flow.End, Reaching.RunSet;
    RangeStays(lo, hi);
    Reaching.RunSetIsLeast(TwoFunctions(), {}, lo, AllPlaces(hi) - AllPlaces(lo));
  }

  /** A list headed by CODESTART, with two functions, is a source for every build. */
  lemma TwoFunctionsOk(b: Build)
    requires b.lowers.Some? ==> b.lowers.value.bits < b.lowers.value.w
    ensures SourceOk(b, Fun(TwoFunctions(), {}, 1), Infos()) && SourceOk(b, Fun(TwoFunctions(), {}, 6), Infos())
  {
    hide ListShape, AllLowerable, Layout.PointsWell, Reach, TwoFunctions;
    ListShaped();
    FunctionStays(1, 6);
    FunctionStays(6, 12);
    Starts();
  }

  lemma Starts()
    ensures Flow.StartsAt(TwoFunctions(), 1) && Flow.StartsAt(TwoFunctions(), 6) && |TwoFunctions()| == 12
  {
  }

  // ---- Its way through the passes --------------------------------------------------------------------

  /** AMD64 as it is set up: 31 bits for an immediate, and the options of `jit_init`. */
  const AMD64 := Build(Some(LongImm.Target(64, 31, 8)), true, Options(false, true, true))

  ghost function Family(): Op -> bool {
    (op: Op) => InFamily(op)
  }

  lemma FamilyMoves()
    ensures Movable(Family())
  {
  }

  lemma FamilyLowers(op: Op)
    requires InFamily(op) && LongImm.ImmShape(op)
    ensures InFamily(LongImm.Lower(LongImm.Target(64, 31, 8), op).1)
  {
    hide LongImm.ImmOverflow;
    if op == MUL4 || op == ADD1 {
      assert LongImm.ImmArg(op) == 2 && op.A(2) == op.a2;
      SmallFits(op.a2);
      assert !LongImm.IsLowered(LongImm.Target(64, 31, 8), op);
    }
  }

  lemma SmallFits(value: int)
    requires 0 <= value <= 4
    ensures !LongImm.ImmOverflow(64, 31, true, value)
  {
    Powers();
    hide Bits.Pow2;
    LongImm.OverflowIsOutOfRange(64, 31, true, value);
  }

  lemma Powers()
    ensures Bits.Pow2(31) > 4 && Bits.Pow2(63) > 4
  {
    Bits.Pow2Monotone(3, 31);
    Bits.Pow2Monotone(3, 63);
    assert Bits.Pow2(3) == 8;
  }

  lemma PreparedIsFamily(q: nat)
    requires SourceOk(AMD64, Fun(TwoFunctions(), {}, q), Infos())
    ensures All(Prepared(AMD64, Fun(TwoFunctions(), {}, q), Infos()).ops, Family())
  {
    hide SourceOk, TwoFunctions, InFamily, LongImm.Lower, LongImm.ImmShape, Prepared;
    FamilyMoves();
    FamilyMade();
    forall i | 0 <= i < |TwoFunctions()|
      ensures Family()(TwoFunctions()[i])
    {
      ListIs(i);
    }
    forall op | Family()(op) && LongImm.ImmShape(op)
      ensures Family()(LongImm.Lower(AMD64.lowers.value, op).1)
    {
      FamilyLowers(op);
    }
    PreparedAll(AMD64, Fun(TwoFunctions(), {}, q), Infos(), Family());
  }

  lemma FamilyMade()
    ensures InFamily(SPILL) && forall value, size :: InFamily(LongImm.MoveImm(value, size))
  {
  }

  // ---- What the passes rely on ---------------------------------------------------------------------

  /** Sums of this kind are joined to products only, and read them. */
  lemma FamilyJoins(pass: Pass, a: Op, b: Op, liveOut: set<int>)
    requires InFamily(a) && InFamily(b) && Join(pass, a, b, liveOut).Some?
    ensures JoinRight(TWO_64, pass, a, b)
  {
    hide RelatedOp;
    JoinedIsNoAlu(pass, a, b, liveOut);
  }

  lemma FamilyRelied(g: Fun, liveOut: seq<set<int>>, reach: set<nat>)
    requires All(g.ops, Family()) && |liveOut| == |g.ops|
    ensures Relied(AMD64.passes, Machine64(), TWO_64, g.ops, liveOut, reach)
  {
    hide InFamily, Machine64, ComputesWords, StoresBytes, Join, JoinRight, JoinFits, WithStores, WithAddMul, Folds, AddressFree;
    Machine64Is();
    var o := AMD64.passes;
    forall i: nat | i + 1 < |g.ops|
      ensures !Folds(g.ops[i], g.ops[i + 1], liveOut[i + 1])
      ensures Join(JoinAddMul, WithStores(o, g.ops, liveOut)[i], WithStores(o, g.ops, liveOut)[i + 1], liveOut[i + 1]).Some? ==>
        JoinRight(TWO_64, JoinAddMul, WithStores(o, g.ops, liveOut)[i], WithStores(o, g.ops, liveOut)[i + 1])
      ensures Join(JoinAddImm, WithAddMul(o, g.ops, liveOut)[i], WithAddMul(o, g.ops, liveOut)[i + 1], liveOut[i + 1]).Some? ==>
        JoinRight(TWO_64, JoinAddImm, WithAddMul(o, g.ops, liveOut)[i], WithAddMul(o, g.ops, liveOut)[i + 1])
    {
      assert Family()(g.ops[i]) && Family()(g.ops[i + 1]);
      NoStores(g.ops[i], g.ops[i + 1], liveOut[i + 1]);
      PairIsRight(o, JoinAddMul, g.ops, liveOut, i);
      PairIsRight(o, JoinAddImm, g.ops, liveOut, i);
    }
  }

  lemma NoStores(prev: Op, op: Op, liveOut: set<int>)
    requires InFamily(op)
    ensures !Folds(prev, op, liveOut)
  {
  }

  lemma PairIsRight(o: Options, pass: Pass, ops: seq<Op>, liveOut: seq<set<int>>, i: nat)
    requires |ops| == |liveOut| && i + 1 < |ops| && InFamily(ops[i]) && InFamily(ops[i + 1])
    ensures var r := if pass == JoinAddMul then WithStores(o, ops, liveOut) else WithAddMul(o, ops, liveOut);
      Join(pass, r[i], r[i + 1], liveOut[i + 1]).Some? ==> JoinRight(TWO_64, pass, r[i], r[i + 1])
  {
    hide InFamily, Join, JoinRight, WithStores, WithAddMul;
    var r := if pass == JoinAddMul then WithStores(o, ops, liveOut) else WithAddMul(o, ops, liveOut);
    if Join(pass, r[i], r[i + 1], liveOut[i + 1]).Some? {
      PairWasThere(o, pass, ops, liveOut, i);
      FamilyJoins(pass, ops[i], ops[i + 1], liveOut[i + 1]);
    }
  }

  lemma FamilyServed(g: Fun, infos: map<int, seq<ArgInfo>>)
    requires Ready(g, infos) && All(g.ops, Family())
    ensures Serves(Machine64(), LastOps(AMD64.passes, g, infos), infos)
  {
    hide InFamily, Machine64, Inverts, WithAddImm, Flow.ListOk, ListShape, SpillsStand, OwnRun, TakesTargets, DeclaredAt, SetsOf, Redone, IsCondBranch;
    var last := LastOps(AMD64.passes, g, infos);
    PassesShape(AMD64.passes, g.ops, infos, ListSets(g, infos).out);
    forall i | 0 <= i < |last|
      ensures last[i].code !in {BMS, BMC, GETARG} && (IsCondBranch(last[i].code) ==> Inverts(Machine64(), last[i]))
    {
      assert Family()(g.ops[i]);
      FamilyRedone(g.ops[i], last[i]);
      if IsCondBranch(last[i].code) {
        Inverts64(last[i]);
      }
    }
  }

  lemma FamilyRedone(op: Op, op': Op)
    requires InFamily(op) && Redone(op, op')
    ensures op'.code !in {BMS, BMC, GETARG}
  {
  }

  // ---- All of it ----------------------------------------------------------------------------------------

  /** For either function of the list, as AMD64 is set up: the list is compiled, and a
      run of the code begins from every state. */
  lemma DefaultBuildIsMet(q: nat, c: Cfg<int, Memory>) returns (x: Setup<int, Memory>, a: Analyses, hw: Hw<int, Memory>)
    requires q in {1, 6} && c.pc == q && c.args == []
    ensures x.env == Machine64() && x.p == Amd64Prepare.Amd64Pool() && x.pr.infos == Infos()
    ensures var f := Fun(TwoFunctions(), {}, q);
      SourceOk(AMD64, f, Infos()) && Generated(AMD64, TWO_64, f, x, a) && Begins(AMD64, f, x, a, c, hw)
  {
    hide SourceOk, Prepared, Ready, Relied, Serves, LastOps, Generated, Begins, Machine64, TwoFunctions, Amd64Prepare.Amd64Pool, RegMap.PoolOk, LongImm.FormsAgree, SpillList.SpillsSilent, All;
    var f := Fun(TwoFunctions(), {}, q);
    TwoFunctionsOk(AMD64);
    Machine64Is();
    var g := Prepared(AMD64, f, Infos());
    PreparedIsFamily(q);
    FamilyRelied(g, ListSets(g, Infos()).out, Reach(g));
    FamilyServed(g, Infos());
    PoolReady();
    x, a := EveryListIsCompiled(AMD64, TWO_64, f, Infos(), Machine64(), Amd64Prepare.Amd64Pool());
    hw := EveryRunBegins(AMD64, TWO_64, f, x, a, c);
  }

  lemma PoolReady()
    ensures RegMap.PoolOk(Amd64Prepare.Amd64Pool())
  {
    hide Amd64Prepare.Amd64Pool, Amd64Prepare.PoolFits;
    Amd64Prepare.Amd64PoolFits();
    Amd64Prepare.FitsIsOk(Amd64Prepare.Amd64Pool());
  }

  // ---- What it returns -----------------------------------------------------------------------------------

  /** All but addresses is as on the machine. */
  ghost predicate Computes64(env: Env<int, Memory>) {
    env.imm == Machine64().imm && env.value == Machine64().value && env.effect == Machine64().effect && env.taken == Machine64().taken
  }

  lemma SourceComputes(b: Build, f: Fun)
    requires SourceOk(b, f, Infos())
    ensures Computes64(SourceEnv(b, Machine64(), f, Infos()))
  {
    hide Machine64, SourceOk, FunOk, WithSpills, AfterLowering;
  }

  /** An operation that assigns R1 and nothing else. */
  lemma AssignsR1(env: Env<int, Memory>, c: Cfg<int, Memory>, w: int)
    requires Computes64(env) && c.pc < |TwoFunctions()| && InList(TwoFunctions()[c.pc])
    requires var op := TwoFunctions()[c.pc];
      || (op == Move(5) && w == 5) || (op == MUL4 && c.regs(R1) == 5 && w == 20) || (op == ADD1 && c.regs(R1) == 20 && w == 21)
    ensures Step(env, TwoFunctions(), {}, c) == Running(c.(pc := c.pc + 1, regs := Set(c.regs, R1, w)))
  {
    hide TwoFunctions, Machine64, Value64, Effect64, Vals, VirtVals, InList;
    var op := TwoFunctions()[c.pc];
    var v := VirtVals(env, op, c.regs);
    Machine64At(SigOf(op), v, c.mem);
    OperandsRead(env, op, c.regs);
    ValueIs(op, v, c.mem, w);
    assert op.A(0) == R1 && DestPos(op) == Some(0);
    ComputeOrReturn(env, TwoFunctions(), {}, c);
  }

  lemma OperandsRead(env: Env<int, Memory>, op: Op, regs: int -> int)
    requires Computes64(env) && (op == Move(5) || op == MUL4 || op == ADD1)
    ensures var v := VirtVals(env, op, regs);
      |v| == 3 && if op == Move(5) then v[1] == 5 else v[1] == regs(R1) && v[2] == op.a2
  {
    hide Machine64;
    Machine64At(SigOf(op), [], x => 0);
    assert op.A(1) == op.a1 && op.A(2) == op.a2;
  }

  lemma ValueIs(op: Op, v: seq<int>, m: Memory, w: int)
    requires |v| == 3
    requires || (op == Move(5) && v[1] == 5 && w == 5) || (op == MUL4 && v[1] == 5 && v[2] == 4 && w == 20)
             || (op == ADD1 && v[1] == 20 && v[2] == 1 && w == 21)
    ensures Value64(SigOf(op), v) == w && Effect64(SigOf(op), v, m) == m
  {
  }

  lemma Begun(env: Env<int, Memory>, c: Cfg<int, Memory>)
    requires Computes64(env) && c.pc < |TwoFunctions()| && TwoFunctions()[c.pc] == Prolog(0)
    ensures Step(env, TwoFunctions(), {}, c) == Running(c.(pc := c.pc + 1))
  {
    hide TwoFunctions, Machine64;
    var op := TwoFunctions()[c.pc];
    Machine64At(SigOf(op), VirtVals(env, op, c.regs), c.mem);
    ComputeOrReturn(env, TwoFunctions(), {}, c);
  }

  lemma Returned(env: Env<int, Memory>, c: Cfg<int, Memory>)
    requires Computes64(env) && c.pc < |TwoFunctions()| && TwoFunctions()[c.pc] == RETURN
    ensures Step(env, TwoFunctions(), {}, c) == Done(c.regs(R1), c.mem)
  {
    hide TwoFunctions, Machine64;
    assert RETURN.A(0) == R1;
    ComputeOrReturn(env, TwoFunctions(), {}, c);
  }

  lemma FirstFunction()
    ensures var ops := TwoFunctions();
      |ops| == 12 && ops[1] == Prolog(0) && ops[2] == Move(5) && ops[3] == MUL4 && ops[4] == ADD1 && ops[5] == RETURN
  {
  }

  lemma FirstFunctionReturns(env: Env<int, Memory>, c: Cfg<int, Memory>)
    requires Computes64(env) && c.pc == 1
    ensures Run(env, TwoFunctions(), {}, c, 5) == Done(21, c.mem)
  {
    hide TwoFunctions, Computes64, Step, InList, Move, Prolog;
    FirstFunction();
    var ops := TwoFunctions();
    forall i | 2 <= i <= 4
      ensures InList(ops[i])
    {
      ListIs(i);
    }
    Begun(env, c);
    var c2 := c.(pc := 2);
    AssignsR1(env, c2, 5);
    var c3 := c2.(pc := 3, regs := Set(c2.regs, R1, 5));
    AssignsR1(env, c3, 20);
    var c4 := c3.(pc := 4, regs := Set(c3.regs, R1, 20));
    AssignsR1(env, c4, 21);
    var c5 := c4.(pc := 5, regs := Set(c4.regs, R1, 21));
    Returned(env, c5);
    assert Run(env, ops, {}, c, 1) == Running(c2);
    assert Run(env, ops, {}, c, 2) == Running(c3);
    assert Run(env, ops, {}, c, 3) == Running(c4);
    assert Run(env, ops, {}, c, 4) == Running(c5);
  }

  /** The code of the first function, lowered, fused and allocated, returns 21. */
  lemma CodeReturns21(c: Cfg<int, Memory>) returns (x: Setup<int, Memory>, a: Analyses, hw: Hw<int, Memory>, m: nat)
    requires c.pc == 1 && c.args == []
    ensures x.pr.infos == Infos() && SourceOk(AMD64, Fun(TwoFunctions(), {}, 1), Infos())
    ensures Generated(AMD64, TWO_64, Fun(TwoFunctions(), {}, 1), x, a)
    ensures Begins(AMD64, Fun(TwoFunctions(), {}, 1), x, a, c, hw)
    ensures ProgOk(x.prog) && HwRunOf(x, hw, m) == Done(21, c.mem)
  {
    hide SourceOk, Generated, Begins, Machine64, TwoFunctions, Amd64Prepare.Amd64Pool, Computes64, SourceEnv, HwRunOf, Run;
    var f := Fun(TwoFunctions(), {}, 1);
    x, a, hw := DefaultBuildIsMet(1, c);
    m := CodeDoesWhatSourceDoes(AMD64, TWO_64, f, x, a, c, hw, 5);
    SourceComputes(AMD64, f);
    FirstFunctionReturns(SourceEnv(AMD64, Machine64(), f, Infos()), c);
  }
}
