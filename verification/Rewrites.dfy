/** Rewriting operations under liveness: what may differ between two runs that
    agree on the registers still needed, and two rewrites every pass is made of,
    dropping one operation and merging two. */
module Rewrites {
  import opened Ops
  import opened Machine

  /** Registers that may still be needed on entry to each operation and after it, for
      the operations execution may come to. */
  datatype Needs = Needs(into: seq<set<int>>, out: seq<set<int>>, reach: set<nat>)

  function Reads(op: Op): set<int> {
    op.Uses() + if op.code == GETARG then {ArgReg(op.a1)} else {}
  }

  predicate TakesArgs(code: Code) {
    code == PUTARG || code == CALL
  }

  /** Where the machine can go after operation i. */
  predicate Goes(ops: seq<Op>, targets: set<nat>, i: nat, t: nat)
    requires i < |ops|
  {
    var op := ops[i];
    && t < |ops|
    && ((op.code != JMP && op.code != RET && t == i + 1)
        || (((op.code == JMP && op.mode == ImmForm) || MayBranch(op.code)) && op.jmp == Some(t))
        || (op.code == JMP && op.mode != ImmForm && t in targets))
  }

  /** Execution that is among these operations stays there. */
  ghost predicate Encloses(ops: seq<Op>, targets: set<nat>, reach: set<nat>) {
    forall i: nat, t: nat :: i in reach && i < |ops| && Goes(ops, targets, i, t) ==> t in reach
  }

  /** A sound liveness, and arguments put right before their call. */
  ghost predicate Sound(ops: seq<Op>, targets: set<nat>, needs: Needs) {
    && |needs.into| == |needs.out| == |ops| && Encloses(ops, targets, needs.reach)
    && (forall i: nat :: i in needs.reach && i < |ops| ==> SoundAt(ops[i], needs.into[i], needs.out[i]))
    && (forall i: nat, t: nat :: i in needs.reach && i < |ops| && Goes(ops, targets, i, t) ==> SoundEdge(ops, needs, i, t))
  }

  predicate SoundAt(op: Op, into: set<int>, out: set<int>) {
    && Reads(op) <= into && out - op.Defs() <= into
    && op.t1 != TREG && op.t2 != TREG && (op.code in {NOP, RET, JMP, PREPARE, PUTARG, CALL} ==> op.t0 != TREG)
    && (op.code == REF_CODE ==> op.jmp.Some?)
  }

  predicate SoundEdge(ops: seq<Op>, needs: Needs, i: nat, t: nat)
    requires |needs.into| == |needs.out| == |ops| && i < |ops| && t < |ops|
  {
    needs.into[t] <= needs.out[i] && (TakesArgs(ops[t].code) ==> t == i + 1 && ops[i].code in {PREPARE, PUTARG})
  }

  ghost predicate SameOn<W(!new)>(live: set<int>, f: int -> W, g: int -> W) {
    forall v :: v in live ==> f(v) == g(v)
  }

  /** Two states that the rest of the run cannot tell apart. */
  ghost predicate Agree<W(!new), M(!new)>(ops: seq<Op>, needs: Needs, c: Cfg<W, M>, d: Cfg<W, M>)
    requires |needs.into| == |ops|
  {
    && c.pc == d.pc && c.mem == d.mem && c.args == d.args && c.ret == d.ret
    && (c.pc < |ops| ==>
          && c.pc in needs.reach && SameOn(needs.into[c.pc], c.regs, d.regs)
          && (TakesArgs(ops[c.pc].code) ==> SameArgs(c, d)))
  }

  ghost predicate SameArgs<W(!new), M(!new)>(c: Cfg<W, M>, d: Cfg<W, M>) {
    c.args == d.args && forall k :: 0 <= k < |c.args| && c.args[k].InReg? ==> c.regs(c.args[k].r) == d.regs(c.args[k].r)
  }

  ghost predicate Alike<W(!new), M(!new)>(ops: seq<Op>, needs: Needs, r: Result<Cfg<W, M>, W, M>, q: Result<Cfg<W, M>, W, M>)
    requires |needs.into| == |ops|
  {
    match r
    case Running(c) => q.Running? && Agree(ops, needs, c, q.c)
    case Done(v, m) => q == Done(v, m)
    case Stuck => q.Stuck?
  }

  /** Two runs an observer cannot tell apart. */
  ghost predicate SameOutcome<W(!new), M(!new)>(r: Result<Cfg<W, M>, W, M>, q: Result<Cfg<W, M>, W, M>) {
    match r
    case Running(c) => q.Running?
    case Done(v, m) => q == Done(v, m)
    case Stuck => q.Stuck?
  }

  /** The two lists behave alike from this state, for any number of steps. */
  ghost predicate SameRuns<W(!new), M(!new)>(env: Env<W, M>, ops: seq<Op>, ops': seq<Op>, targets: set<nat>, c: Cfg<W, M>) {
    forall n: nat :: SameOutcome(Run(env, ops, targets, c, n), Run(env, ops', targets, c, n))
  }

  lemma SameRunsTrans<W(!new), M(!new)>(env: Env<W, M>, a: seq<Op>, b: seq<Op>, d: seq<Op>, targets: set<nat>, c: Cfg<W, M>)
    requires SameRuns(env, a, b, targets, c) && SameRuns(env, b, d, targets, c)
    ensures SameRuns(env, a, d, targets, c)
  {
  }

  lemma SameOpSameStep<W(!new), M(!new)>(env: Env<W, M>, ops: seq<Op>, ops': seq<Op>, targets: set<nat>, c: Cfg<W, M>)
    requires |ops| == |ops'| && (c.pc < |ops| ==> ops[c.pc] == ops'[c.pc])
    ensures Step(env, ops, targets, c) == Step(env, ops', targets, c)
  {
  }

  lemma NopStep<W(!new), M(!new)>(env: Env<W, M>, ops: seq<Op>, targets: set<nat>, c: Cfg<W, M>)
    requires c.pc < |ops| && ops[c.pc].code == NOP
    ensures Step(env, ops, targets, c) == Running(c.(pc := c.pc + 1))
  {
  }

  /** `JIT_NOP` with no operands, in place of an operation. */
  function MadeNop(op: Op): Op {
    op.(code := NOP, mode := Bare, unsigned := false, t0 := NO, t1 := NO, t2 := NO)
  }

  lemma SameVals<W(!new), M(!new)>(env: Env<W, M>, op: Op, f: int -> W, g: int -> W)
    requires SameOn(op.Uses(), f, g)
    ensures VirtVals(env, op, f) == VirtVals(env, op, g)
  {
    assert op.T(0) == REG ==> op.A(0) in op.Uses();
    assert op.T(1) == REG ==> op.A(1) in op.Uses();
    assert op.T(2) == REG ==> op.A(2) in op.Uses();
  }

  lemma DefsOf(op: Op)
    requires op.t1 != TREG && op.t2 != TREG
    ensures op.Defs() == if op.t0 == TREG then {op.a0} else {}
  {
    assert op.T(0) == op.t0 && op.T(1) == op.t1 && op.T(2) == op.t2;
    assert op.t0 == TREG ==> op.A(0) in op.Defs();
  }

  /** The register an operation assigns, and what it assigns. */
  function WrittenAt(op: Op): Option<int> {
    match op.code
    case NOP | RET | JMP | PREPARE | PUTARG | CALL => None
    case RETVAL | GETARG => Some(op.a0)
    case REF_CODE => if op.jmp.Some? then Some(op.a0) else None
    case _ => if DestPos(op).Some? then Some(op.A(DestPos(op).value)) else None
  }

  function Written<W, M>(env: Env<W, M>, op: Op, c: Cfg<W, M>): W {
    match op.code
    case RETVAL => c.ret
    case GETARG => env.extend(op.a1, c.regs(ArgReg(op.a1)))
    case REF_CODE => env.address(if op.jmp.Some? then op.jmp.value else 0)
    case _ => env.value(SigOf(op), VirtVals(env, op, c.regs), c.mem)
  }

  /** The registers after operation c.pc, if it goes on. */
  function RegsAfter<W, M>(env: Env<W, M>, op: Op, c: Cfg<W, M>): int -> W {
    match WrittenAt(op)
    case Some(v) => Set(c.regs, v, Written(env, op, c))
    case None => c.regs
  }

  lemma WrittenIsDef(op: Op, into: set<int>, out: set<int>)
    requires SoundAt(op, into, out)
    ensures match WrittenAt(op)
            case Some(v) => out - {v} <= into
            case None => out <= into
  {
    DefsOf(op);
    assert op.A(0) == op.a0;
  }

  lemma SameWritten<W(!new), M(!new)>(env: Env<W, M>, op: Op, c: Cfg<W, M>, d: Cfg<W, M>)
    requires SameOn(Reads(op), c.regs, d.regs) && c.mem == d.mem && c.ret == d.ret
    ensures Written(env, op, c) == Written(env, op, d)
  {
    hide VirtVals;
    SameVals(env, op, c.regs, d.regs);
    if op.code == GETARG {
      assert ArgReg(op.a1) in Reads(op);
    }
  }

  /** Registers that agree before an operation agree after it. */
  lemma RegsStaySame<W(!new), M(!new)>(env: Env<W, M>, op: Op, into: set<int>, out: set<int>, c: Cfg<W, M>, d: Cfg<W, M>)
    requires SoundAt(op, into, out) && SameOn(into, c.regs, d.regs) && c.mem == d.mem && c.ret == d.ret
    ensures SameOn(out, RegsAfter(env, op, c), RegsAfter(env, op, d))
  {
    hide Written, WrittenAt;
    WrittenIsDef(op, into, out);
    SameWritten(env, op, c, d);
  }

  lemma SameArgValues<W(!new), M(!new)>(env: Env<W, M>, c: Cfg<W, M>, d: Cfg<W, M>)
    requires SameArgs(c, d)
    ensures ArgValues(env, c) == ArgValues(env, d)
  {
    assert forall k :: 0 <= k < |c.args| ==> ArgValue(env, c.regs, c.args[k]) == ArgValue(env, d.regs, d.args[k]);
  }

  /** What a step does, apart from registers. */
  lemma StepShape<W(!new), M(!new)>(env: Env<W, M>, ops: seq<Op>, targets: set<nat>, c: Cfg<W, M>)
    requires c.pc < |ops|
    ensures var r := Step(env, ops, targets, c);
      r.Running? ==>
        && r.c.regs == RegsAfter(env, ops[c.pc], c)
        && (r.c.pc < |ops| ==> Goes(ops, targets, c.pc, r.c.pc))
        && (ops[c.pc].code in {PREPARE, PUTARG} ==> r.c.pc == c.pc + 1)
        && (ops[c.pc].code == PREPARE ==> r.c.args == [])
        && (ops[c.pc].code == PUTARG ==> r.c.args == c.args + [PutargOperand(ops[c.pc])])
  {
  }

  /** Two steps with the same outcome but for registers. */
  ghost predicate StepsAlike<W(!new), M(!new)>(r: Result<Cfg<W, M>, W, M>, q: Result<Cfg<W, M>, W, M>) {
    match r
    case Running(e) => q.Running? && q.c == e.(regs := q.c.regs)
    case Done(v, m) => q == Done(v, m)
    case Stuck => q.Stuck?
  }

  ghost predicate ReadAlike<W(!new), M(!new)>(op: Op, c: Cfg<W, M>, d: Cfg<W, M>) {
    && c.pc == d.pc && c.mem == d.mem && c.args == d.args && c.ret == d.ret
    && SameOn(Reads(op), c.regs, d.regs) && (op.code == CALL ==> SameArgs(c, d))
  }

  lemma ComputeAlike<W(!new), M(!new)>(env: Env<W, M>, ops: seq<Op>, targets: set<nat>, c: Cfg<W, M>, d: Cfg<W, M>)
    requires c.pc < |ops| && Computes(ops[c.pc].code) && ReadAlike(ops[c.pc], c, d)
    ensures StepsAlike(Step(env, ops, targets, c), Step(env, ops, targets, d))
  {
    hide VirtVals, SigOf, WriteBack, Step, MayBranch;
    SameVals(env, ops[c.pc], c.regs, d.regs);
    ComputeOrReturn(env, ops, targets, c);
    ComputeOrReturn(env, ops, targets, d);
  }

  lemma ControlAlike<W(!new), M(!new)>(env: Env<W, M>, ops: seq<Op>, targets: set<nat>, c: Cfg<W, M>, d: Cfg<W, M>)
    requires c.pc < |ops| && !Computes(ops[c.pc].code) && ReadAlike(ops[c.pc], c, d)
    ensures StepsAlike(Step(env, ops, targets, c), Step(env, ops, targets, d))
  {
    hide VirtVals, ArgValues;
    SameVals(env, ops[c.pc], c.regs, d.regs);
    if ops[c.pc].code == CALL {
      SameArgValues(env, c, d);
    }
  }

  /** Two states that agree on what an operation reads step alike. */
  lemma StepAlike<W(!new), M(!new)>(env: Env<W, M>, ops: seq<Op>, targets: set<nat>, c: Cfg<W, M>, d: Cfg<W, M>)
    requires c.pc < |ops| && ReadAlike(ops[c.pc], c, d)
    ensures StepsAlike(Step(env, ops, targets, c), Step(env, ops, targets, d))
  {
    hide Step, ReadAlike;
    if Computes(ops[c.pc].code) {
      ComputeAlike(env, ops, targets, c, d);
    } else {
      ControlAlike(env, ops, targets, c, d);
    }
  }

  /** States that agree step to states that agree. */
  lemma AgreeingStep<W(!new), M(!new)>(env: Env<W, M>, ops: seq<Op>, targets: set<nat>, needs: Needs, c: Cfg<W, M>, d: Cfg<W, M>)
    requires Sound(ops, targets, needs) && Agree(ops, needs, c, d)
    ensures Alike(ops, needs, Step(env, ops, targets, c), Step(env, ops, targets, d))
  {
    hide Step;
    if c.pc < |ops| {
      var i := c.pc;
      assert SoundAt(ops[i], needs.into[i], needs.out[i]);
      StepAlike(env, ops, targets, c, d);
      StepShape(env, ops, targets, c);
      StepShape(env, ops, targets, d);
      if Step(env, ops, targets, c).Running? {
        RegsStaySame(env, ops[i], needs.into[i], needs.out[i], c, d);
        Arrive(env, ops, targets, needs, i, c, d, Step(env, ops, targets, c).c, Step(env, ops, targets, d).c);
      }
    } else {
      StepOffEnd(env, ops, targets, c);
      StepOffEnd(env, ops, targets, d);
    }
  }

  lemma StepOffEnd<W(!new), M(!new)>(env: Env<W, M>, ops: seq<Op>, targets: set<nat>, c: Cfg<W, M>)
    requires c.pc >= |ops|
    ensures Step(env, ops, targets, c) == Stuck
  {
  }

  /** Arrival at the next operation with registers that agree on what is needed after
      this one. */
  lemma Arrive<W(!new), M(!new)>(env: Env<W, M>, ops: seq<Op>, targets: set<nat>, needs: Needs, i: nat,
                                 c: Cfg<W, M>, d: Cfg<W, M>, e: Cfg<W, M>, g: Cfg<W, M>)
    requires Sound(ops, targets, needs) && i < |ops| && i in needs.reach
    requires e.pc == g.pc && e.mem == g.mem && e.args == g.args && e.ret == g.ret && SameOn(needs.out[i], e.regs, g.regs)
    requires e.pc < |ops| ==> Goes(ops, targets, i, e.pc)
    requires ops[i].code == PREPARE ==> e.args == []
    requires ops[i].code == PUTARG ==>
      && SameArgs(c, d) && SameOn(Reads(ops[i]), c.regs, d.regs)
      && c.regs == e.regs && d.regs == g.regs && e.args == c.args + [PutargOperand(ops[i])]
    ensures Agree(ops, needs, e, g)
  {
    if e.pc < |ops| {
      assert SoundEdge(ops, needs, i, e.pc);
      if TakesArgs(ops[e.pc].code) && ops[i].code == PUTARG {
        assert ops[i].T(0) == REG ==> ops[i].A(0) in Reads(ops[i]);
      }
    }
  }
}
