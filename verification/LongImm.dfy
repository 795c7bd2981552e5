/** Long immediates become moves into a register of their own: `jit_imm_overflow`
    and `jit_correct_long_imms`, as built for AMD64 and SPARC. */
module LongImm {
  import opened Ops
  import opened Machine
  import opened Rewrites
  import opened Bits

  // ---- The test ---------------------------------------------------------------------

  /** The bits of a value in a word of w bits. */
  function Unsigned(w: nat, value: int): (u: nat)
    ensures u < Pow2(w)
  {
    value % Pow2(w)
  }

  function Complement(w: nat, u: nat): nat
    requires u < Pow2(w)
  {
    Pow2(w) - 1 - u
  }

  /** `jit_imm_overflow` with `bits` bits for the immediate, on words of w bits. */
  predicate ImmOverflow(w: nat, bits: nat, signed: bool, value: int)
    requires bits < w
  {
    Pow2Monotone(bits, w);
    var mask := Complement(w, Pow2(bits) - 1);
    var highBits := And(Unsigned(w, value), mask);
    if signed then highBits != 0 && highBits != mask else highBits != 0
  }

  /** A word of w bits, signed. */
  predicate IsLong(w: nat, value: int) {
    w > 0 && var half: int := Pow2(w - 1); -half <= value < half
  }

  predicate InRange(bits: nat, signed: bool, value: int) {
    var limit: int := Pow2(bits);
    (if signed then -limit else 0) <= value < limit
  }

  /** The bit mask test is the range test. */
  lemma OverflowIsOutOfRange(w: nat, bits: nat, signed: bool, value: int)
    requires bits < w && IsLong(w, value)
    ensures ImmOverflow(w, bits, signed, value) <==> !InRange(bits, signed, value)
  {
    var u := Unsigned(w, value);
    AndHigh(u, w, bits);
    Pow2Monotone(bits, w - 1);
    UnsignedOf(w, value);
    HighPart(w, bits, u);
  }

  lemma UnsignedOf(w: nat, value: int)
    requires IsLong(w, value)
    ensures Unsigned(w, value) == if value >= 0 then value else value + Pow2(w)
  {
    var u := if value >= 0 then value else value + Pow2(w);
    Remainder(value, Pow2(w), if value >= 0 then 0 else -1, u);
  }

  /** Clearing the low bits leaves nothing, or all of the mask, just below the first
      and above the last step. */
  lemma HighPart(w: nat, bits: nat, u: nat)
    requires bits < w && u < Pow2(w)
    ensures u - u % Pow2(bits) == 0 <==> u < Pow2(bits)
    ensures u - u % Pow2(bits) == Pow2(w) - Pow2(bits) <==> u >= Pow2(w) - Pow2(bits)
  {
    Pow2Adds(bits, w - bits);
    assert bits + (w - bits) == w;
    hide Pow2;
    HighPartOf(Pow2(bits), Pow2(w - bits), u, Pow2(w));
  }

  lemma HighPartOf(k: nat, m: nat, u: nat, p: nat)
    requires k > 0 && p == k * m && u < p
    ensures u - u % k == 0 <==> u < k
    ensures u - u % k == p - k <==> u >= p - k
  {
    var q, r := u / k, u % k;
    assert u == k * q + r;
    Multiples(k, m, q, r);
  }

  lemma Multiples(k: nat, m: nat, q: nat, r: nat)
    requires r < k && k * q + r < k * m
    ensures k * q == 0 <==> k * q + r < k
    ensures k * q == k * m - k <==> k * q + r >= k * m - k
  {
    if q > 0 {
      LargerMultiple(k, 1, q);
    }
    if q >= m {
      LargerMultiple(k, m, q);
    } else if q < m - 1 {
      LargerMultiple(k, q, m - 2);
    }
  }

  // ---- The pass ------------------------------------------------------------------------

  /** Operations the pass leaves alone. */
  predicate Skipped(op: Op) {
    op.mode != ImmForm ||
    op.code in {JMP, CALL, PATCH, MOV, PUTARG, MSG, FMSG, COMMENT, PROLOG, DATA_REF_CODE, DATA_REF_DATA,
                REF_DATA, REF_CODE, FORCE_ASSOC, TRACE}
  }

  /** The last immediate operand. */
  function ImmArg(op: Op): (i: int)
    ensures -1 <= i < 3 && (i >= 0 ==> op.T(i) == IMM) && forall k :: i < k < 3 ==> op.T(k) != IMM
  {
    if op.t2 == IMM then 2 else if op.t1 == IMM then 1 else if op.t0 == IMM then 0 else -1
  }

  function WithReg(op: Op, i: int): (r: Op)
    requires 0 <= i < 3
    ensures r.T(i) == REG && r.A(i) == R_IMM
    ensures forall k :: 0 <= k < 3 && k != i ==> r.T(k) == op.T(k) && r.A(k) == op.A(k)
    ensures r.code == op.code && r.mode == RegForm && r.unsigned == op.unsigned && r.size == op.size && r.jmp == op.jmp && r.disp == op.disp
  {
    var r := op.(mode := RegForm);
    if i == 0 then r.(t0 := REG, a0 := R_IMM) else if i == 1 then r.(t1 := REG, a1 := R_IMM) else r.(t2 := REG, a2 := R_IMM)
  }

  function MoveImm(value: int, regSize: nat): Op {
    Op(MOV, ImmForm, false, TREG, IMM, NO, R_IMM, value, 0, regSize, None, 0)
  }

  /** An operation handled by the pass computes or returns, and has an immediate to
      look at; in a branch it is the last operand, the first being the target. */
  predicate ImmShape(op: Op) {
    !Skipped(op) ==>
      && ImmArg(op) >= 0 && (op.jmp.Some? || MayBranch(op.code) ==> ImmArg(op) == 2)
      && (Computes(op.code) || op.code == RET) && !MadeByPasses(op.code)
  }

  /** The machine: `bits` for immediates, words of w bits in `regSize` bytes. */
  datatype Target = Target(w: nat, bits: nat, regSize: nat)

  predicate IsLowered(m: Target, op: Op)
    requires m.bits < m.w && ImmShape(op)
  {
    !Skipped(op) && ImmOverflow(m.w, m.bits, !op.unsigned, op.A(ImmArg(op)))
  }

  /** The operation, and the one put in front of it. */
  function Lower(m: Target, op: Op): (r: (Option<Op>, Op))
    requires m.bits < m.w && ImmShape(op)
  {
    if IsLowered(m, op) then (Some(MoveImm(op.A(ImmArg(op)), m.regSize)), WithReg(op, ImmArg(op))) else (None, op)
  }

  datatype Lowered = Lowered(pre: seq<Option<Op>>, ops: seq<Op>)

  ghost predicate LoweredList(m: Target, ops: seq<Op>, l: Lowered)
    requires m.bits < m.w
  {
    && |l.pre| == |l.ops| == |ops|
    && forall i :: 0 <= i < |ops| ==> ImmShape(ops[i]) && (l.pre[i], l.ops[i]) == Lower(m, ops[i])
  }

  /** The search for the immediate. */
  method FindImm(op: Op) returns (immArg: int)
    requires ImmArg(op) >= 0
    ensures immArg == ImmArg(op)
  {
    immArg := 0;
    for j := 0 to 3
      invariant if exists k :: 0 <= k < j && op.T(k) == IMM
        then 0 <= immArg < j && op.T(immArg) == IMM && forall k :: immArg < k < j ==> op.T(k) != IMM
        else immArg == 0
    {
      if op.T(j) == IMM {
        immArg := j;
      }
    }
  }

  method CorrectLongImm(m: Target, op: Op) returns (pre: Option<Op>, lowered: Op)
    requires m.bits < m.w && ImmShape(op)
    ensures (pre, lowered) == Lower(m, op)
  {
    pre, lowered := None, op;
    if !Skipped(op) {
      var immArg := FindImm(op);
      var value := op.A(immArg);
      if ImmOverflow(m.w, m.bits, !op.unsigned, value) {
        pre := Some(MoveImm(value, m.regSize));
        lowered := WithReg(op, immArg);
      }
    }
  }

  /** `jit_correct_long_imms`; `pre[i]` is what it has put in front of operation i. */
  method CorrectLongImms(m: Target, ops: array<Op>, pre: array<Option<Op>>)
    requires m.bits < m.w && ops.Length == pre.Length
    requires forall i :: 0 <= i < ops.Length ==> ImmShape(ops[i])
    modifies ops, pre
    ensures LoweredList(m, old(ops[..]), Lowered(pre[..], ops[..]))
    ensures forall i :: 0 <= i < ops.Length && IsLong(m.w, LastImm(old(ops[i]))) ==>
      LowersJust(m, old(ops[i]), pre[i], ops[i])
  {
    hide Lower, ImmShape, LowersJust, IsLong, LastImm, ImmOverflow;
    for i := 0 to ops.Length
      invariant forall k :: 0 <= k < i ==> (pre[k], ops[k]) == Lower(m, old(ops[k]))
      invariant forall k :: i <= k < ops.Length ==> ops[k] == old(ops[k])
    {
      pre[i], ops[i] := CorrectLongImm(m, ops[i]);
    }
    forall i | 0 <= i < ops.Length && IsLong(m.w, LastImm(old(ops[i])))
      ensures LowersJust(m, old(ops[i]), pre[i], ops[i])
    {
      LoweredJust(m, old(ops[i]));
    }
  }

  /** The last immediate operand, if there is one. */
  function LastImm(op: Op): int {
    if op.t2 == IMM then op.a2 else if op.t1 == IMM then op.a1 else if op.t0 == IMM then op.a0 else 0
  }

  /** All operations put their immediate into a short field of an instruction, except
      these, which have room for it or never put it there. */
  predicate InShortField(code: Code) {
    && code != MOV && code != PUTARG && code != CALL && code != JMP && code != PROLOG
    && code != REF_CODE && code != REF_DATA && code != DATA_REF_CODE && code != DATA_REF_DATA
    && code != PATCH && code != MSG && code != FMSG && code != COMMENT && code != TRACE && code != FORCE_ASSOC
  }

  /** An immediate that does not fit goes through the register set aside. */
  predicate LowersJust(m: Target, op: Op, pre: Option<Op>, op': Op) {
    if op.mode == ImmForm && InShortField(op.code) && !InRange(m.bits, !op.unsigned, LastImm(op)) then
      && pre.Some? && pre.value.code == MOV && pre.value.t0 == TREG && pre.value.a0 == R_IMM
      && pre.value.t1 == IMM && pre.value.a1 == LastImm(op)
      && op'.code == op.code && op'.mode == RegForm
    else pre.None? && op' == op
  }

  /** The pass takes all other operations as they are. */
  lemma OthersTaken(op: Op)
    requires op.mode != ImmForm || !InShortField(op.code)
    ensures ImmShape(op)
  {
  }

  lemma LoweredJust(m: Target, op: Op)
    requires m.bits < m.w && ImmShape(op) && IsLong(m.w, LastImm(op))
    ensures var (pre, op') := Lower(m, op); LowersJust(m, op, pre, op')
  {
    hide ImmOverflow, InRange, IsLong;
    if !Skipped(op) {
      assert LastImm(op) == op.A(ImmArg(op));
      OverflowIsOutOfRange(m.w, m.bits, !op.unsigned, LastImm(op));
    }
  }

  /** What is left fits its field. */
  lemma RemainingImmsFit(m: Target, ops: seq<Op>, l: Lowered, i: nat)
    requires m.bits < m.w && LoweredList(m, ops, l) && i < |ops|
    requires l.ops[i].mode == ImmForm && InShortField(l.ops[i].code) && IsLong(m.w, LastImm(l.ops[i]))
    ensures l.pre[i].None? && InRange(m.bits, !l.ops[i].unsigned, LastImm(l.ops[i]))
  {
    hide InRange, ImmShape;
    assert (l.pre[i], l.ops[i]) == Lower(m, ops[i]);
    assert l.ops[i] == ops[i] by { LowerForm(m, ops[i]); }
    LoweredJust(m, ops[i]);
  }

  lemma LowerForm(m: Target, op: Op)
    requires m.bits < m.w && ImmShape(op)
    ensures Lower(m, op).1.mode == ImmForm ==> Lower(m, op).1 == op
  {
    hide ImmOverflow;
  }

  // ---- Meaning --------------------------------------------------------------------------

  /** The inserted operation, if any, and then the operation itself. */
  function LoweredStep<W, M>(env: Env<W, M>, l: Lowered, targets: set<nat>, c: Cfg<W, M>): Result<Cfg<W, M>, W, M>
    requires |l.pre| == |l.ops|
  {
    if c.pc < |l.ops| && l.pre[c.pc].Some? then
      match Step(env, l.ops[c.pc := l.pre[c.pc].value], targets, c)
      case Running(d) => Step(env, l.ops, targets, d.(pc := c.pc))
      case r => r
    else Step(env, l.ops, targets, c)
  }

  function LoweredRun<W, M>(env: Env<W, M>, l: Lowered, targets: set<nat>, c: Cfg<W, M>, n: nat): Result<Cfg<W, M>, W, M>
    requires |l.pre| == |l.ops|
  {
    if n == 0 then Running(c)
    else
      match LoweredRun(env, l, targets, c, n - 1)
      case Running(d) => LoweredStep(env, l, targets, d)
      case r => r
  }

  /** The register of long immediates appears nowhere in the program. */
  predicate AvoidsImmReg(op: Op) {
    && (forall i :: 0 <= i < 3 && (op.T(i) == REG || op.T(i) == TREG) ==> op.A(i) != R_IMM)
    && (op.code in {RETVAL, GETARG, REF_CODE} ==> op.a0 != R_IMM)
  }

  /** An operation of a program means the same in register and in immediate form, and
      moves move. */
  ghost predicate FormsAgree<W(!new), M(!new)>(env: Env<W, M>) {
    && (forall s: Sig, v: seq<W>, m: M :: s.mode == ImmForm && !MadeByPasses(s.code) ==>
          && env.value(s, v, m) == env.value(s.(mode := RegForm), v, m)
          && env.effect(s, v, m) == env.effect(s.(mode := RegForm), v, m)
          && env.taken(s, v, m) == env.taken(s.(mode := RegForm), v, m))
    && (forall s: Sig, v: seq<W>, m: M :: |v| == 3 && s.code == MOV && s.mode == ImmForm ==>
          env.value(s, v, m) == v[1] && env.effect(s, v, m) == m)
  }

  /** All but the register of long immediates is the same. */
  ghost predicate SameBut<W(!new), M(!new)>(c: Cfg<W, M>, d: Cfg<W, M>) {
    && c.pc == d.pc && c.mem == d.mem && c.args == d.args && c.ret == d.ret
    && (forall v :: v != R_IMM ==> c.regs(v) == d.regs(v))
    && (forall k :: 0 <= k < |c.args| ==> c.args[k] != InReg(R_IMM))
  }

  ghost predicate SameButResults<W(!new), M(!new)>(r: Result<Cfg<W, M>, W, M>, q: Result<Cfg<W, M>, W, M>) {
    match r
    case Running(c) => q.Running? && SameBut(c, q.c)
    case Done(v, m) => q == Done(v, m)
    case Stuck => q.Stuck?
  }

  lemma ArgsAfter<W(!new), M(!new)>(env: Env<W, M>, ops: seq<Op>, targets: set<nat>, c: Cfg<W, M>)
    requires c.pc < |ops|
    ensures var op, r := ops[c.pc], Step(env, ops, targets, c);
      var args := if op.code == PREPARE then [] else if op.code == PUTARG then c.args + [PutargOperand(op)] else c.args;
      r.Running? ==> r.c.args == args
  {
  }

  lemma WrittenButImm<W(!new), M(!new)>(env: Env<W, M>, op: Op, c: Cfg<W, M>, d: Cfg<W, M>)
    requires AvoidsImmReg(op) && SameBut(c, d)
    ensures Written(env, op, c) == Written(env, op, d)
  {
    SameVals(env, op, c.regs, d.regs);
    if op.code == GETARG {
      assert ArgReg(op.a1) == 6 + 16 * op.a1;
      assert ArgReg(op.a1) != R_IMM;
    }
  }

  lemma RegsButImm<W(!new), M(!new)>(env: Env<W, M>, op: Op, c: Cfg<W, M>, d: Cfg<W, M>)
    requires AvoidsImmReg(op) && SameBut(c, d)
    ensures forall v :: v != R_IMM ==> RegsAfter(env, op, c)(v) == RegsAfter(env, op, d)(v)
  {
    hide Written, WrittenAt, AvoidsImmReg;
    WrittenButImm(env, op, c, d);
  }

  /** The same operation, from states that differ in that register only. */
  lemma StepButImm<W(!new), M(!new)>(env: Env<W, M>, ops: seq<Op>, targets: set<nat>, c: Cfg<W, M>, d: Cfg<W, M>)
    requires (c.pc < |ops| ==> AvoidsImmReg(ops[c.pc])) && SameBut(c, d)
    ensures SameButResults(Step(env, ops, targets, c), Step(env, ops, targets, d))
  {
    hide Step;
    if c.pc >= |ops| {
      StepOffEnd(env, ops, targets, c);
      StepOffEnd(env, ops, targets, d);
    } else {
      var op := ops[c.pc];
      if op.code == GETARG {
        assert ArgReg(op.a1) == 6 + 16 * op.a1;
      }
      assert op.T(0) == REG ==> op.A(0) != R_IMM;
      StepAlike(env, ops, targets, c, d);
      StepShape(env, ops, targets, c);
      StepShape(env, ops, targets, d);
      ArgsAfter(env, ops, targets, c);
      RegsButImm(env, op, c, d);
    }
  }

  /** With the immediate in its register, the register form does the same. */
  lemma WithRegSame<W(!new), M(!new)>(env: Env<W, M>, ops: seq<Op>, ops': seq<Op>, targets: set<nat>, e: Cfg<W, M>)
    requires FormsAgree(env) && |ops| == |ops'| && e.pc < |ops|
    requires var op := ops[e.pc];
      && ImmShape(op) && !Skipped(op) && ops'[e.pc] == WithReg(op, ImmArg(op))
      && e.regs(R_IMM) == env.imm(op.A(ImmArg(op)))
    ensures Step(env, ops, targets, e) == Step(env, ops', targets, e)
  {
    var op := ops[e.pc];
    var op' := ops'[e.pc];
    SameValues(env, op, e.regs);
    FormsOf(env, SigOf(op), VirtVals(env, op, e.regs), e.mem);
    SameDest(op);
    hide VirtVals, FormsAgree, DestPos, Step;
    assert SigOf(op') == SigOf(op).(mode := RegForm);
    ComputeOrReturn(env, ops, targets, e);
    ComputeOrReturn(env, ops', targets, e);
  }

  lemma SameDest(op: Op)
    requires ImmShape(op) && !Skipped(op)
    ensures var r := WithReg(op, ImmArg(op));
      && DestPos(op) == DestPos(r) && (DestPos(op).Some? ==> op.A(DestPos(op).value) == r.A(DestPos(op).value))
      && (op.t0 == TREG ==> op.a0 == r.a0)
  {
    var r := WithReg(op, ImmArg(op));
    assert op.T(0) == op.t0 && op.T(1) == op.t1 && op.T(2) == op.t2;
    assert r.T(0) == r.t0 && r.T(1) == r.t1;
    assert op.A(1) == op.a1 && r.A(1) == r.a1 && op.A(0) == op.a0 && r.A(0) == r.a0;
  }

  lemma FormsOf<W(!new), M(!new)>(env: Env<W, M>, s: Sig, v: seq<W>, m: M)
    requires FormsAgree(env) && s.mode == ImmForm && !MadeByPasses(s.code)
    ensures var r := s.(mode := RegForm);
      && env.value(s, v, m) == env.value(r, v, m) && env.effect(s, v, m) == env.effect(r, v, m)
      && env.taken(s, v, m) == env.taken(r, v, m)
  {
  }

  lemma SameValues<W(!new), M(!new)>(env: Env<W, M>, op: Op, f: int -> W)
    requires ImmShape(op) && !Skipped(op) && f(R_IMM) == env.imm(op.A(ImmArg(op)))
    ensures VirtVals(env, op, f) == VirtVals(env, WithReg(op, ImmArg(op)), f)
  {
    var r := WithReg(op, ImmArg(op));
    assert op.T(0) == op.t0 && op.T(1) == op.t1 && op.T(2) == op.t2;
    assert r.T(0) == r.t0 && r.T(1) == r.t1 && r.T(2) == r.t2;
    assert op.A(0) == op.a0 && op.A(1) == op.a1 && op.A(2) == op.a2;
    assert r.A(0) == r.a0 && r.A(1) == r.a1 && r.A(2) == r.a2;
  }

  lemma MoveStep<W(!new), M(!new)>(env: Env<W, M>, ops: seq<Op>, targets: set<nat>, c: Cfg<W, M>, value: int, regSize: nat)
    requires FormsAgree(env) && c.pc < |ops| && ops[c.pc] == MoveImm(value, regSize)
    ensures Step(env, ops, targets, c) == Running(c.(pc := c.pc + 1, regs := Set(c.regs, R_IMM, env.imm(value))))
  {
    var op := ops[c.pc];
    assert op.A(1) == value;
    assert VirtVals(env, op, c.regs)[1] == env.imm(value);
  }

  /** One step of the program is one step of the lowered program. */
  lemma LoweredStepAlike<W(!new), M(!new)>(env: Env<W, M>, m: Target, ops: seq<Op>, l: Lowered, targets: set<nat>, c: Cfg<W, M>, d: Cfg<W, M>)
    requires m.bits < m.w && LoweredList(m, ops, l) && FormsAgree(env) && SameBut(c, d)
    requires forall i :: 0 <= i < |ops| ==> AvoidsImmReg(ops[i])
    ensures SameButResults(Step(env, ops, targets, c), LoweredStep(env, l, targets, d))
  {
    hide Step, FormsAgree;
    if c.pc < |ops| && l.pre[c.pc].Some? {
      var i, op := c.pc, ops[c.pc];
      var value := op.A(ImmArg(op));
      assert (l.pre[i], l.ops[i]) == Lower(m, op) && l.pre[i].value == MoveImm(value, m.regSize);
      MoveStep(env, l.ops[i := l.pre[i].value], targets, d, value, m.regSize);
      var e := d.(regs := Set(d.regs, R_IMM, env.imm(value)));
      assert LoweredStep(env, l, targets, d) == Step(env, l.ops, targets, e);
      WithRegSame(env, ops, l.ops, targets, e);
      StepButImm(env, ops, targets, c, e);
    } else {
      if c.pc < |ops| {
        assert (l.pre[c.pc], l.ops[c.pc]) == Lower(m, ops[c.pc]);
      }
      SameOpSameStep(env, ops, l.ops, targets, d);
      StepButImm(env, ops, targets, c, d);
    }
  }

  /** Lowering long immediates changes no run of a program that does not use the
      register set aside for them. */
  lemma {:induction false} LoweringPreservesRuns<W(!new), M(!new)>(env: Env<W, M>, m: Target, ops: seq<Op>, l: Lowered, targets: set<nat>,
                                                                   c: Cfg<W, M>, n: nat)
    requires m.bits < m.w && LoweredList(m, ops, l) && FormsAgree(env)
    requires forall i :: 0 <= i < |ops| ==> AvoidsImmReg(ops[i])
    requires forall k :: 0 <= k < |c.args| ==> c.args[k] != InReg(R_IMM)
    ensures SameButResults(Run(env, ops, targets, c, n), LoweredRun(env, l, targets, c, n))
  {
    if n > 0 {
      hide Step, LoweredStep, FormsAgree;
      LoweringPreservesRuns(env, m, ops, l, targets, c, n - 1);
      var r, q := Run(env, ops, targets, c, n - 1), LoweredRun(env, l, targets, c, n - 1);
      if r.Running? {
        LoweredStepAlike(env, m, ops, l, targets, r.c, q.c);
      }
    }
  }
}
