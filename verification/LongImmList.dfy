/** The lowered program as one list: the moves of long immediates stand in front of
    the operations that need them, and a run of the list is a run of the program. */
module LongImmList {
  import opened Ops
  import opened Machine
  import opened Moving
  import opened Insertion
  import opened LongImm
  import opened Bits
  import Rewrites

  /** What stands in front of each operation. */
  function Fronts(l: Lowered): (pre: seq<seq<Op>>)
    ensures |pre| == |l.pre| && forall i :: 0 <= i < |l.pre| ==> pre[i] == if l.pre[i].Some? then [l.pre[i].value] else []
  {
    seq(|l.pre|, i requires 0 <= i < |l.pre| => if l.pre[i].Some? then [l.pre[i].value] else [])
  }

  /** The lowered program as one list. */
  function FlatList(l: Lowered): seq<Op>
    requires |l.pre| == |l.ops|
  {
    Longer(Fronts(l), l.ops)
  }

  /** Jumps stay inside the list and lead to operations nothing was put in front of. */
  predicate LandsPlain(l: Lowered, targets: set<nat>)
    requires |l.pre| == |l.ops|
  {
    && (forall i :: 0 <= i < |l.ops| ==> JumpsInside(l.ops[i], |l.ops|))
    && (forall i, t :: 0 <= i < |l.ops| && t in targets + JumpOf(l.ops[i]) ==> t < |l.ops| && l.pre[t].None?)
    && (forall t :: t in targets ==> t < |l.ops|)
  }

  function JumpOf(op: Op): set<nat> {
    if (op.code == JMP || MayBranch(op.code)) && op.jmp.Some? then {op.jmp.value} else {}
  }

  /** Every operation put in front moves a constant into the register set aside. */
  predicate MovesImms(l: Lowered) {
    forall i :: 0 <= i < |l.pre| && l.pre[i].Some? ==> var op := l.pre[i].value; op.size >= 0 && op == MoveImm(op.a1, op.size)
  }

  /** The state the list is in: before everything that stands for the operation. */
  function At<W, M>(l: Lowered, c: Cfg<W, M>): Cfg<W, M> {
    if c.pc <= |l.pre| then c.(pc := Start(Fronts(l), c.pc)) else c
  }

  function AtResult<W, M>(l: Lowered, r: Result<Cfg<W, M>, W, M>): Result<Cfg<W, M>, W, M> {
    match r
    case Running(c) => if c.pc <= |l.pre| then Running(At(l, c)) else Stuck
    case Done(_, _) => r
    case Stuck => r
  }

  /** Where the operation goes nothing stands in front, or it goes on. */
  lemma FollowsAt<W(!new), M(!new)>(l: Lowered, targets: set<nat>, i: nat, r: Result<Cfg<W, M>, W, M>, q: Result<Cfg<W, M>, W, M>)
    requires |l.pre| == |l.ops| && LandsPlain(l, targets) && i < |l.ops|
    requires Follows(l.ops[i], targets, Places(Fronts(l)), i, Place(Fronts(l), i), r, q)
    ensures q == AtResult(l, r)
  {
    var pre := Fronts(l);
    NextStart(pre, i);
    hide Start;
    if r.Running? && LeadsTo(l.ops[i], targets, r.c.pc) {
      var t := r.c.pc;
      assert t in targets + JumpOf(l.ops[i]) ==> l.pre[t].None? && pre[t] == [];
    }
  }

  /** The operations of one position. */
  lemma FlatStep<W(!new), M(!new)>(env: Env<W, M>, env': Env<W, M>, l: Lowered, targets: set<nat>, kept: set<nat>, c: Cfg<W, M>)
    returns (k: nat)
    requires |l.pre| == |l.ops| && LandsPlain(l, targets) && MovesImms(l) && FormsAgree(env) && c.pc <= |l.ops|
    requires AddressesMove(env, env', Places(Fronts(l)), targets, kept) && forall i: nat :: i < |l.ops| ==> i in kept
    ensures Run(env', FlatList(l), MovedTargets(Places(Fronts(l)), targets), At(l, c), k) == AtResult(l, LoweredStep(env, l, targets, c))
    ensures k > 0
  {
    hide Step, FormsAgree, AddressesMove, MovedOp, Run, Longer, LandsPlain, Follows;
    var pre := Fronts(l);
    TargetsPlaced(env, env', Places(pre), targets, kept);
    var ops', targets' := FlatList(l), MovedTargets(Places(pre), targets);
    LongerLength(pre, l.ops);
    RunOne(env', ops', targets', At(l, c));
    k := 1;
    if c.pc == |l.ops| {
      Rewrites.StepOffEnd(env, l.ops, targets, c);
      Rewrites.StepOffEnd(env', ops', targets', At(l, c));
    } else if l.pre[c.pc].None? {
      LongerAt(pre, l.ops, c.pc);
      LandsInside(l, targets, c.pc);
      MovedStep(env, env', l.ops, ops', targets, Places(pre), kept, c, Place(pre, c.pc));
      FollowsAt(l, targets, c.pc, Step(env, l.ops, targets, c), Step(env', ops', targets', At(l, c)));
    } else {
      k := 2;
      FlatTwoSteps(env, env', l, targets, kept, c);
    }
  }

  lemma LandsInside(l: Lowered, targets: set<nat>, i: nat)
    requires |l.pre| == |l.ops| && LandsPlain(l, targets) && i < |l.ops|
    ensures JumpsInside(l.ops[i], |l.ops|)
  {
  }

  lemma SameForms<W(!new), M(!new)>(env: Env<W, M>, env': Env<W, M>, place: seq<nat>, targets: set<nat>, kept: set<nat>)
    requires FormsAgree(env) && AddressesMove(env, env', place, targets, kept)
    ensures FormsAgree(env') && env'.imm == env.imm
  {
  }

  lemma FlatTwoSteps<W(!new), M(!new)>(env: Env<W, M>, env': Env<W, M>, l: Lowered, targets: set<nat>, kept: set<nat>, c: Cfg<W, M>)
    requires |l.pre| == |l.ops| && LandsPlain(l, targets) && MovesImms(l) && FormsAgree(env) && c.pc < |l.ops| && l.pre[c.pc].Some?
    requires AddressesMove(env, env', Places(Fronts(l)), targets, kept) && forall i: nat :: i < |l.ops| ==> i in kept
    ensures Run(env', FlatList(l), MovedTargets(Places(Fronts(l)), targets), At(l, c), 2) == AtResult(l, LoweredStep(env, l, targets, c))
  {
    hide Step, FormsAgree, AddressesMove, MovedOp, Run, Longer, LandsPlain, Follows, Start;
    var pre, i := Fronts(l), c.pc;
    TargetsPlaced(env, env', Places(pre), targets, kept);
    var ops', targets' := FlatList(l), MovedTargets(Places(pre), targets);
    LongerBefore(pre, l.ops, i, 0);
    LongerAt(pre, l.ops, i);
    var value, size := l.pre[i].value.a1, l.pre[i].value.size;
    SameForms(env, env', Places(pre), targets, kept);
    MoveStep(env, l.ops[i := l.pre[i].value], targets, c, value, size);
    MoveStep(env', ops', targets', At(l, c), value, size);
    var e := c.(regs := Set(c.regs, R_IMM, env.imm(value)));
    var e' := e.(pc := Place(pre, i));
    RunOne(env', ops', targets', At(l, c));
    RunOn(env', ops', targets', At(l, c), 1, e', 1);
    RunOne(env', ops', targets', e');
    LandsInside(l, targets, i);
    MovedStep(env, env', l.ops, ops', targets, Places(pre), kept, e, Place(pre, i));
    FollowsAt(l, targets, i, Step(env, l.ops, targets, e), Step(env', ops', targets', e'));
  }

  /** Moved results keep the position inside the list. */
  ghost predicate InsideList<W(!new), M(!new)>(r: Result<Cfg<W, M>, W, M>, n: nat) {
    r.Running? ==> r.c.pc <= n
  }

  lemma LoweredInside<W(!new), M(!new)>(env: Env<W, M>, l: Lowered, targets: set<nat>, c: Cfg<W, M>)
    requires |l.pre| == |l.ops| && LandsPlain(l, targets) && MovesImms(l) && FormsAgree(env) && c.pc <= |l.ops|
    ensures InsideList(LoweredStep(env, l, targets, c), |l.ops|)
  {
    hide Step, FormsAgree, LandsPlain;
    LandsAllInside(l, targets);
    if c.pc == |l.ops| {
      Rewrites.StepOffEnd(env, l.ops, targets, c);
    } else {
      var op := l.pre[c.pc];
      if op.Some? {
        MoveStep(env, l.ops[c.pc := op.value], targets, c, op.value.a1, op.value.size);
      }
      forall d: Cfg<W, M> | d.pc == c.pc
        ensures InsideList(Step(env, l.ops, targets, d), |l.ops|)
      {
        StepInside(env, l.ops, targets, d);
      }
    }
  }

  lemma LandsAllInside(l: Lowered, targets: set<nat>)
    requires |l.pre| == |l.ops| && LandsPlain(l, targets)
    ensures (forall i :: 0 <= i < |l.ops| ==> JumpsInside(l.ops[i], |l.ops|)) && forall t :: t in targets ==> t < |l.ops|
  {
  }

  lemma StepInside<W(!new), M(!new)>(env: Env<W, M>, ops: seq<Op>, targets: set<nat>, c: Cfg<W, M>)
    requires c.pc < |ops| && JumpsInside(ops[c.pc], |ops|) && forall t :: t in targets ==> t < |ops|
    ensures InsideList(Step(env, ops, targets, c), |ops|)
  {
    hide VirtVals, WriteBack, ArgValues;
  }

  /** A run of the lowered program is a run of the list. */
  lemma {:induction false} FlatRun<W(!new), M(!new)>(env: Env<W, M>, env': Env<W, M>, l: Lowered, targets: set<nat>, kept: set<nat>,
                                                     c: Cfg<W, M>, n: nat) returns (m: nat)
    requires |l.pre| == |l.ops| && LandsPlain(l, targets) && MovesImms(l) && FormsAgree(env) && c.pc <= |l.ops|
    requires AddressesMove(env, env', Places(Fronts(l)), targets, kept) && forall i: nat :: i < |l.ops| ==> i in kept
    ensures InsideList(LoweredRun(env, l, targets, c, n), |l.ops|)
    ensures Run(env', FlatList(l), MovedTargets(Places(Fronts(l)), targets), At(l, c), m) == AtResult(l, LoweredRun(env, l, targets, c, n))
    ensures LoweredRun(env, l, targets, c, n).Running? ==> m >= n
  {
    hide Step, FormsAgree, AddressesMove, LoweredStep, FlatList, Start, LandsPlain, MovesImms;
    TargetsPlaced(env, env', Places(Fronts(l)), targets, kept);
    if n == 0 {
      m := 0;
    } else {
      m := FlatRun(env, env', l, targets, kept, c, n - 1);
      var r := LoweredRun(env, l, targets, c, n - 1);
      if r.Running? {
        LoweredInside(env, l, targets, r.c);
        var k := FlatStep(env, env', l, targets, kept, r.c);
        RunOn(env', FlatList(l), MovedTargets(Places(Fronts(l)), targets), At(l, c), m, At(l, r.c), k);
        m := m + k;
      }
    }
  }

  /** A program and the list made of it, after any number of steps of the program. */
  ghost predicate SameButMoved<W(!new), M(!new)>(l: Lowered, r: Result<Cfg<W, M>, W, M>, q: Result<Cfg<W, M>, W, M>) {
    match r
    case Running(c) => q.Running? && c.pc <= |l.pre| && q.c.pc == Start(Fronts(l), c.pc) && SameBut(c, q.c.(pc := c.pc))
    case Done(v, m) => q == Done(v, m)
    case Stuck => q.Stuck?
  }

  lemma LoweredMovesImms(m: Target, ops: seq<Op>, l: Lowered)
    requires m.bits < m.w && LoweredList(m, ops, l)
    ensures MovesImms(l)
  {
    forall i | 0 <= i < |l.pre| && l.pre[i].Some?
      ensures var op := l.pre[i].value; op.size >= 0 && op == MoveImm(op.a1, op.size)
    {
      assert (l.pre[i], l.ops[i]) == Lower(m, ops[i]);
    }
  }

  /** Lowering long immediates, as a change of the list, changes no run. */
  lemma LoweredListPreservesRuns<W(!new), M(!new)>(env: Env<W, M>, env': Env<W, M>, m: Target, ops: seq<Op>, l: Lowered, targets: set<nat>,
                                                   kept: set<nat>, c: Cfg<W, M>, n: nat) returns (k: nat)
    requires m.bits < m.w && LoweredList(m, ops, l) && LandsPlain(l, targets) && FormsAgree(env) && c.pc <= |ops|
    requires forall i :: 0 <= i < |ops| ==> AvoidsImmReg(ops[i])
    requires forall k :: 0 <= k < |c.args| ==> c.args[k] != InReg(R_IMM)
    requires AddressesMove(env, env', Places(Fronts(l)), targets, kept) && forall i: nat :: i < |ops| ==> i in kept
    ensures forall t :: t in targets ==> t < |Places(Fronts(l))|
    ensures SameButMoved(l, Run(env, ops, targets, c, n), Run(env', FlatList(l), MovedTargets(Places(Fronts(l)), targets), At(l, c), k))
    ensures Run(env, ops, targets, c, n).Running? ==> k >= n
  {
    hide Step, FormsAgree, LoweredStep, FlatList, Run, LoweredRun, Start, LandsPlain;
    LoweredMovesImms(m, ops, l);
    LoweringPreservesRuns(env, m, ops, l, targets, c, n);
    k := FlatRun(env, env', l, targets, kept, c, n);
  }

  // ---- Short fields ---------------------------------------------------------------------

  /** What is left of a value in a field of `bits` bits and a sign. */
  function InField(bits: nat, value: int): int {
    (value + Pow2(bits)) % (2 * Pow2(bits)) - Pow2(bits)
  }

  lemma FieldHolds(bits: nat, value: int)
    ensures InField(bits, value) == value <==> InRange(bits, true, value)
  {
    hide Pow2;
    FieldOf(Pow2(bits), value + Pow2(bits));
  }

  lemma FieldOf(p: nat, x: int)
    requires p > 0
    ensures x % (2 * p) == x <==> 0 <= x < 2 * p
  {
    var m := 2 * p;
    if 0 <= x < m {
      Remainder(x, m, 0, x);
    }
  }

  /** The operation as an instruction has it. */
  function Fielded(m: Target, op: Op): Op {
    if op.mode != ImmForm || !InShortField(op.code) then op
    else if op.t2 == IMM then op.(a2 := InField(m.bits, op.a2))
    else if op.t1 == IMM then op.(a1 := InField(m.bits, op.a1))
    else if op.t0 == IMM then op.(a0 := InField(m.bits, op.a0))
    else op
  }

  function AllFielded(m: Target, ops: seq<Op>): (r: seq<Op>)
    ensures |r| == |ops| && forall i :: 0 <= i < |ops| ==> r[i] == Fielded(m, ops[i])
  {
    seq(|ops|, i requires 0 <= i < |ops| => Fielded(m, ops[i]))
  }

  lemma FieldedFits(m: Target, op: Op)
    requires op.mode == ImmForm && InShortField(op.code) ==> InRange(m.bits, !op.unsigned, LastImm(op))
    ensures Fielded(m, op) == op
  {
    hide InField;
    FieldHolds(m.bits, LastImm(op));
  }

  lemma OneFits(m: Target, ops: seq<Op>, l: Lowered, i: nat)
    requires m.bits < m.w && LoweredList(m, ops, l) && i < |ops| && IsLong(m.w, LastImm(ops[i]))
    ensures Fielded(m, MovedOp(Places(Fronts(l)), l.ops[i])) == MovedOp(Places(Fronts(l)), l.ops[i])
    ensures l.pre[i].Some? ==> Fielded(m, l.pre[i].value) == l.pre[i].value
  {
    hide Fielded, InRange, ImmShape, ImmOverflow, Places;
    LowerForm(m, ops[i]);
    if l.ops[i].mode == ImmForm && InShortField(l.ops[i].code) {
      RemainingImmsFit(m, ops, l, i);
    }
    FieldedFits(m, MovedOp(Places(Fronts(l)), l.ops[i]));
    assert (l.pre[i], l.ops[i]) == Lower(m, ops[i]);
    if l.pre[i].Some? {
      FieldedFits(m, l.pre[i].value);
    }
  }

  /** No instruction of the lowered list cuts an immediate. */
  lemma LoweredFits(m: Target, ops: seq<Op>, l: Lowered)
    requires m.bits < m.w && LoweredList(m, ops, l) && forall i :: 0 <= i < |ops| ==> IsLong(m.w, LastImm(ops[i]))
    ensures AllFielded(m, FlatList(l)) == FlatList(l)
  {
    hide Longer, Start, Fielded, LoweredList, IsLong;
    assert |l.pre| == |l.ops| == |ops| by { LoweredLengths(m, ops, l); }
    LongerLength(Fronts(l), l.ops);
    forall p: nat | p < |FlatList(l)|
      ensures Fielded(m, FlatList(l)[p]) == FlatList(l)[p]
    {
      var i := OwnerOf(Fronts(l), |l.pre|, p);
      OneFits(m, ops, l, i);
      if p < Place(Fronts(l), i) {
        LongerBefore(Fronts(l), l.ops, i, p - Start(Fronts(l), i));
      } else {
        LongerAt(Fronts(l), l.ops, i);
      }
    }
  }

  lemma LoweredLengths(m: Target, ops: seq<Op>, l: Lowered)
    requires m.bits < m.w && LoweredList(m, ops, l)
    ensures |l.pre| == |l.ops| == |ops|
  {
  }

  /** A program with immediates of any length runs, once lowered, on a machine that
      keeps only so many bits of them. */
  lemma LoweredRunsInFields<W(!new), M(!new)>(env: Env<W, M>, env': Env<W, M>, m: Target, ops: seq<Op>, l: Lowered, targets: set<nat>,
                                              kept: set<nat>, c: Cfg<W, M>, n: nat) returns (k: nat)
    requires m.bits < m.w && LoweredList(m, ops, l) && LandsPlain(l, targets) && FormsAgree(env) && c.pc <= |ops|
    requires forall i :: 0 <= i < |ops| ==> AvoidsImmReg(ops[i]) && IsLong(m.w, LastImm(ops[i]))
    requires forall k :: 0 <= k < |c.args| ==> c.args[k] != InReg(R_IMM)
    requires AddressesMove(env, env', Places(Fronts(l)), targets, kept) && forall i: nat :: i < |ops| ==> i in kept
    ensures forall t :: t in targets ==> t < |Places(Fronts(l))|
    ensures SameButMoved(l, Run(env, ops, targets, c, n),
                         Run(env', AllFielded(m, FlatList(l)), MovedTargets(Places(Fronts(l)), targets), At(l, c), k))
    ensures Run(env, ops, targets, c, n).Running? ==> k >= n
  {
    hide Run, FormsAgree, LandsPlain, AddressesMove, FlatList, AllFielded, AvoidsImmReg, IsLong, LastImm, LoweredList;
    LoweredFits(m, ops, l);
    k := LoweredListPreservesRuns(env, env', m, ops, l, targets, kept, c, n);
  }
}
