/** `jit_optimize_unused_assignments`: operations whose result nobody needs become
    NOP, on liveness that is not computed again. */
module UnusedAssign {
  import opened Ops
  import opened Machine
  import opened Rewrites

  /** These set the carry flag as well. */
  predicate SetsCarry(code: Code) {
    code == ADDC || code == ADDX || code == SUBC || code == SUBX
  }

  predicate Unused(op: Op, liveOut: set<int>) {
    op.t0 == TREG && !SetsCarry(op.code) && op.a0 !in liveOut
  }

  function Dropped(op: Op, liveOut: set<int>): Op {
    if Unused(op, liveOut) then MadeNop(op) else op
  }

  ghost predicate DroppedAll(ops: seq<Op>, liveOut: seq<set<int>>, ops': seq<Op>) {
    |ops| == |liveOut| == |ops'| && forall i :: 0 <= i < |ops| ==> ops'[i] == Dropped(ops[i], liveOut[i])
  }

  /** The pass itself. */
  method OptimizeUnusedAssignments(ops: array<Op>, liveOut: seq<set<int>>)
    requires ops.Length == |liveOut|
    modifies ops
    ensures DroppedAll(old(ops[..]), liveOut, ops[..])
    ensures forall i :: 0 <= i < ops.Length ==>
      DropsJust(old(ops[i]), liveOut[i], ops[i])
  {
    hide MadeNop, SetsCarry;
    for i := 0 to ops.Length
      invariant forall k :: 0 <= k < i ==> ops[k] == Dropped(old(ops[k]), liveOut[k])
      invariant forall k :: i <= k < ops.Length ==> ops[k] == old(ops[k])
    {
      if ops[i].t0 == TREG {
        if SetsCarry(ops[i].code) {
          continue;
        }
        if ops[i].a0 !in liveOut[i] {
          ops[i] := MadeNop(ops[i]);
        }
      }
    }
    forall i | 0 <= i < ops.Length
      ensures DropsJust(old(ops[i]), liveOut[i], ops[i])
    {
      DroppedJust(old(ops[i]), liveOut[i]);
    }
  }

  /** What goes is an assignment nobody needs, but for the four that leave a carry. */
  predicate DropsJust(op: Op, liveOut: set<int>, op': Op) {
    if op.t0 == TREG && op.a0 !in liveOut && op.code !in {ADDC, ADDX, SUBC, SUBX}
    then op'.code == NOP && op'.t0 == op'.t1 == op'.t2 == NO
    else op' == op
  }

  lemma DroppedJust(op: Op, liveOut: set<int>)
    ensures DropsJust(op, liveOut, Dropped(op, liveOut))
  {
  }

  /** An operation that assigns a register does nothing else, but for the four that
      leave a carry; branches and returns assign none. */
  ghost predicate OnlyAssigns<W(!new), M(!new)>(env: Env<W, M>, op: Op) {
    op.t0 == TREG && op.code !in {ADDC, ADDX, SUBC, SUBX} ==>
      && !MayBranch(op.code)
      && forall vals: seq<W>, m: M :: env.effect(SigOf(op), vals, m) == m
  }

  /** A dropped operation would only have changed the register nobody needs. */
  lemma {:induction false} DroppedStep<W(!new), M(!new)>(env: Env<W, M>, ops: seq<Op>, targets: set<nat>, c: Cfg<W, M>, into: set<int>, out: set<int>)
    requires c.pc < |ops| && Unused(ops[c.pc], out) && OnlyAssigns(env, ops[c.pc]) && SoundAt(ops[c.pc], into, out)
    ensures var op := ops[c.pc];
      Step(env, ops, targets, c) == Running(c.(pc := c.pc + 1, regs := Set(c.regs, op.a0, RegsAfter(env, op, c)(op.a0))))
  {
    hide VirtVals, SigOf, RegsAfter;
    var op := ops[c.pc];
    AssignsFirst(env, op, c, into, out);
    if Computes(op.code) {
      hide Step;
      ComputeOrReturn(env, ops, targets, c);
      StepShape(env, ops, targets, c);
    } else {
      StepShape(env, ops, targets, c);
    }
  }

  /** What it assigns is its first operand. */
  lemma AssignsFirst<W(!new), M(!new)>(env: Env<W, M>, op: Op, c: Cfg<W, M>, into: set<int>, out: set<int>)
    requires op.t0 == TREG && SoundAt(op, into, out)
    ensures RegsAfter(env, op, c) == Set(c.regs, op.a0, RegsAfter(env, op, c)(op.a0))
  {
    hide Written, WrittenAt, SoundAt;
    WritesFirst(op, into, out);
  }

  lemma WritesFirst(op: Op, into: set<int>, out: set<int>)
    requires op.t0 == TREG && SoundAt(op, into, out)
    ensures WrittenAt(op) == Some(op.a0)
  {
    hide Reads;
    assert op.A(0) == op.a0;
  }

  /** The sets the pass consults hold all that may be needed. */
  ghost predicate DropsOk(ops: seq<Op>, needs: Needs, liveOut: seq<set<int>>) {
    |ops| == |liveOut| == |needs.out| && forall i: nat :: i in needs.reach && i < |ops| ==> needs.out[i] <= liveOut[i]
  }

  /** Every operation that assigns a register only does that. */
  ghost predicate AllOnlyAssign<W(!new), M(!new)>(env: Env<W, M>, ops: seq<Op>, reach: set<nat>) {
    forall i: nat :: i in reach && i < |ops| ==> OnlyAssigns(env, ops[i])
  }

  /** The pass as far as liveness is concerned: the sets that were sound before are
      sound afterwards. */
  lemma DroppedIsSound(ops: seq<Op>, ops': seq<Op>, targets: set<nat>, needs: Needs, liveOut: seq<set<int>>)
    requires Sound(ops, targets, needs) && DroppedAll(ops, liveOut, ops')
    requires DropsOk(ops, needs, liveOut)
    ensures Sound(ops', targets, needs)
  {
    forall i: nat | i in needs.reach && i < |ops|
      ensures SoundAt(ops'[i], needs.into[i], needs.out[i])
    {
      assert SoundAt(ops[i], needs.into[i], needs.out[i]);
      DefsOf(ops[i]);
      if ops'[i] != ops[i] {
        assert ops'[i].Uses() == {} && ops'[i].Defs() == {};
      }
    }
    forall i: nat, t: nat | i in needs.reach && i < |ops| && Goes(ops', targets, i, t)
      ensures t in needs.reach && SoundEdge(ops', needs, i, t)
    {
      assert SoundAt(ops[i], needs.into[i], needs.out[i]);
      assert Goes(ops, targets, i, t);
      assert SoundAt(ops[t], needs.into[t], needs.out[t]) && SoundEdge(ops, needs, i, t);
    }
  }

  /** Step by step, the two programs agree on the registers still needed. */
  lemma DroppedAgrees<W(!new), M(!new)>(env: Env<W, M>, ops: seq<Op>, ops': seq<Op>, targets: set<nat>, needs: Needs,
                                        liveOut: seq<set<int>>, c: Cfg<W, M>, d: Cfg<W, M>)
    requires Sound(ops, targets, needs) && DroppedAll(ops, liveOut, ops')
    requires DropsOk(ops, needs, liveOut) && AllOnlyAssign(env, ops, needs.reach)
    requires Agree(ops, needs, c, d)
    ensures Alike(ops, needs, Step(env, ops, targets, c), Step(env, ops', targets, d))
  {
    hide RegsAfter, Written, WrittenAt;
    if c.pc < |ops| && Unused(ops[c.pc], liveOut[c.pc]) {
      var i := c.pc;
      hide Step;
      assert SoundAt(ops[i], needs.into[i], needs.out[i]);
      DroppedStep(env, ops, targets, c, needs.into[i], needs.out[i]);
      NopStep(env, ops', targets, d);
      DefsOf(ops[i]);
      var w := RegsAfter(env, ops[i], c)(ops[i].a0);
      Arrive(env, ops, targets, needs, i, c, d, c.(pc := i + 1, regs := Set(c.regs, ops[i].a0, w)), d.(pc := i + 1));
    } else {
      AgreeingStep(env, ops, targets, needs, c, d);
      SameOpSameStep(env, ops, ops', targets, d);
    }
  }

  lemma {:induction false} DroppedRuns<W(!new), M(!new)>(env: Env<W, M>, ops: seq<Op>, ops': seq<Op>, targets: set<nat>, needs: Needs,
                                                         liveOut: seq<set<int>>, c: Cfg<W, M>, n: nat)
    requires Sound(ops, targets, needs) && DroppedAll(ops, liveOut, ops')
    requires DropsOk(ops, needs, liveOut) && AllOnlyAssign(env, ops, needs.reach)
    requires c.pc in needs.reach
    ensures Alike(ops, needs, Run(env, ops, targets, c, n), Run(env, ops', targets, c, n))
  {
    if n > 0 {
      hide Step;
      DroppedRuns(env, ops, ops', targets, needs, liveOut, c, n - 1);
      var r, q := Run(env, ops, targets, c, n - 1), Run(env, ops', targets, c, n - 1);
      if r.Running? {
        DroppedAgrees(env, ops, ops', targets, needs, liveOut, r.c, q.c);
      }
    }
  }

  /** Removing unused assignments changes no run: same branches, same memory, same
      value returned, whatever sound liveness the tested sets contain. */
  lemma UnusedAssignmentsPreserveRuns<W(!new), M(!new)>(env: Env<W, M>, ops: seq<Op>, ops': seq<Op>, targets: set<nat>, needs: Needs,
                                                        liveOut: seq<set<int>>, c: Cfg<W, M>)
    requires Sound(ops, targets, needs) && DroppedAll(ops, liveOut, ops')
    requires DropsOk(ops, needs, liveOut) && AllOnlyAssign(env, ops, needs.reach)
    requires c.pc in needs.reach
    ensures SameRuns(env, ops, ops', targets, c) && Sound(ops', targets, needs)
  {
    DroppedIsSound(ops, ops', targets, needs, liveOut);
    forall n: nat
      ensures SameOutcome(Run(env, ops, targets, c, n), Run(env, ops', targets, c, n))
    {
      DroppedRuns(env, ops, ops', targets, needs, liveOut, c, n);
    }
  }
}
