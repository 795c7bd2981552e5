/** The FULL_SPILLs in front of the targets of code references change no run: the
    longer list does what the list does, and a jump goes past them. */
module SpillList {
  import opened Ops
  import opened Machine
  import opened Moving
  import opened Insertion
  import opened Rewrites

  /** How many of the first n operations take the address of operation t. */
  function RefsTo(ops: seq<Op>, n: nat, t: nat): nat
    requires n <= |ops|
  {
    if n == 0 then 0
    else
      var op, before := ops[n - 1], RefsTo(ops, n - 1, t);
      if (op.code == REF_CODE || op.code == DATA_REF_CODE) && op.jmp == Some(t) then before + 1 else before
  }

  /** One spill for each reference. */
  function SpillsOf(ops: seq<Op>, spill: Op, n: nat): (pre: seq<seq<Op>>)
    requires n <= |ops|
    ensures |pre| == |ops| && forall i, k :: 0 <= i < |ops| && 0 <= k < |pre[i]| ==> pre[i][k] == spill
    ensures forall i :: 0 <= i < |ops| ==> |pre[i]| == RefsTo(ops, n, i)
  {
    seq(|ops|, i requires 0 <= i < |ops| => seq(RefsTo(ops, n, i), k => spill))
  }

  predicate IsSpill(op: Op) {
    op.code == FULL_SPILL && op.t0 != TREG && op.t1 != REG && op.jmp.None?
  }

  /** All that is put in front is spills. */
  predicate AllSpills(pre: seq<seq<Op>>) {
    forall i, k :: 0 <= i < |pre| && 0 <= k < |pre[i]| ==> IsSpill(pre[i][k])
  }

  /** A FULL_SPILL is a note to the allocator and does nothing itself. */
  ghost predicate SpillsSilent<W(!new), M(!new)>(env: Env<W, M>) {
    forall s: Sig, v: seq<W>, m: M :: s.code == FULL_SPILL ==> env.effect(s, v, m) == m
  }

  lemma SpillStep<W(!new), M(!new)>(env: Env<W, M>, ops: seq<Op>, targets: set<nat>, c: Cfg<W, M>)
    requires SpillsSilent(env) && c.pc < |ops| && IsSpill(ops[c.pc])
    ensures Step(env, ops, targets, c) == Running(c.(pc := c.pc + 1))
  {
    hide VirtVals;
  }

  /** Before or among the spills of the operation. */
  ghost predicate Near<W, M>(pre: seq<seq<Op>>, c: Cfg<W, M>, d: Cfg<W, M>) {
    c.pc <= |pre| && d == c.(pc := d.pc) && Start(pre, c.pc) <= d.pc <= Place(pre, c.pc)
  }

  ghost predicate NearResults<W, M>(pre: seq<seq<Op>>, r: Result<Cfg<W, M>, W, M>, q: Result<Cfg<W, M>, W, M>) {
    match r
    case Running(c) => q.Running? && Near(pre, c, q.c)
    case Done(_, _) => q == r
    case Stuck => q == r
  }

  /** Through the spills to the operation. */
  lemma {:induction false} PastSpills<W(!new), M(!new)>(env: Env<W, M>, pre: seq<seq<Op>>, ops: seq<Op>, targets: set<nat>, c: Cfg<W, M>, d: Cfg<W, M>)
    requires SpillsSilent(env) && |pre| == |ops| && AllSpills(pre) && c.pc < |ops| && Near(pre, c, d)
    ensures Run(env, Longer(pre, ops), targets, d, Place(pre, c.pc) - d.pc) == Running(c.(pc := Place(pre, c.pc)))
    decreases Place(pre, c.pc) - d.pc
  {
    hide Step, Longer, SpillsSilent;
    var k := Place(pre, c.pc) - d.pc;
    if k > 0 {
      var at := d.pc - Start(pre, c.pc);
      LongerBefore(pre, ops, c.pc, at);
      assert IsSpill(pre[c.pc][at]);
      SpillStep(env, Longer(pre, ops), targets, d);
      var e := d.(pc := d.pc + 1);
      PastSpills(env, pre, ops, targets, c, e);
      RunFrom(env, Longer(pre, ops), targets, d, e, k - 1);
    }
  }

  /** A run begins with its first step. */
  lemma {:induction false} RunFrom<W(!new), M(!new)>(env: Env<W, M>, ops: seq<Op>, targets: set<nat>, d: Cfg<W, M>, e: Cfg<W, M>, k: nat)
    requires Step(env, ops, targets, d) == Running(e)
    ensures Run(env, ops, targets, d, k + 1) == Run(env, ops, targets, e, k)
  {
    hide Step;
    if k > 0 {
      RunFrom(env, ops, targets, d, e, k - 1);
    }
  }

  lemma FollowsNear<W(!new), M(!new)>(pre: seq<seq<Op>>, op: Op, targets: set<nat>, i: nat, r: Result<Cfg<W, M>, W, M>, q: Result<Cfg<W, M>, W, M>)
    requires i < |pre| && Follows(op, targets, Places(pre), i, Place(pre, i), r, q)
    ensures NearResults(pre, r, q)
  {
    NextStart(pre, i);
    hide Start;
  }

  /** One step of the list is some steps of the longer one. */
  lemma SpilledStep<W(!new), M(!new)>(env: Env<W, M>, env': Env<W, M>, pre: seq<seq<Op>>, ops: seq<Op>, targets: set<nat>, kept: set<nat>,
                                      c: Cfg<W, M>, d: Cfg<W, M>) returns (m: nat)
    requires SpillsSilent(env') && |pre| == |ops| && AllSpills(pre) && Inside(ops, targets) && Near(pre, c, d)
    requires AddressesMove(env, env', Places(pre), targets, kept) && forall i: nat :: i < |ops| ==> i in kept
    ensures m > 0 && NearResults(pre, Step(env, ops, targets, c), Run(env', Longer(pre, ops), MovedTargets(Places(pre), targets), d, m))
  {
    hide Step, SpillsSilent, AddressesMove, MovedOp, Longer, Follows, Run, AllSpills, MovedTargets, NearResults, LeadsTo;
    var ops', targets' := Longer(pre, ops), MovedTargets(Places(pre), targets);
    LongerLength(pre, ops);
    if c.pc == |ops| {
      m := 1;
      StepOffEnd(env, ops, targets, c);
      StepOffEnd(env', ops', targets', d);
      RunOne(env', ops', targets', d);
      assert NearResults<W, M>(pre, Stuck, Stuck) by { StuckIsNear(pre, c); }
    } else {
      var e := c.(pc := Place(pre, c.pc));
      var k := Place(pre, c.pc) - d.pc;
      PastSpills(env', pre, ops, targets', c, d);
      LongerAt(pre, ops, c.pc);
      MovedStep(env, env', ops, ops', targets, Places(pre), kept, c, Place(pre, c.pc));
      RunOn(env', ops', targets', d, k, e, 1);
      RunOne(env', ops', targets', e);
      FollowsNear(pre, ops[c.pc], targets, c.pc, Step(env, ops, targets, c), Step(env', ops', targets', e));
      m := k + 1;
    }
  }

  lemma StuckIsNear<W, M>(pre: seq<seq<Op>>, c: Cfg<W, M>)
    ensures NearResults<W, M>(pre, Stuck, Stuck)
  {
  }

  /** A list with spills put in, wherever jumps go past them, runs as the list does. */
  lemma {:induction false} SpillsPreserveRuns<W(!new), M(!new)>(env: Env<W, M>, env': Env<W, M>, pre: seq<seq<Op>>, ops: seq<Op>, targets: set<nat>,
                                                                kept: set<nat>, c: Cfg<W, M>, d: Cfg<W, M>, n: nat) returns (m: nat)
    requires SpillsSilent(env') && |pre| == |ops| && AllSpills(pre) && Inside(ops, targets) && Near(pre, c, d)
    requires AddressesMove(env, env', Places(pre), targets, kept) && forall i: nat :: i < |ops| ==> i in kept
    ensures forall t :: t in targets ==> t < |Places(pre)|
    ensures NearResults(pre, Run(env, ops, targets, c, n), Run(env', Longer(pre, ops), MovedTargets(Places(pre), targets), d, m))
    ensures Run(env, ops, targets, c, n).Running? ==> m >= n
  {
    hide Step, SpillsSilent, AddressesMove, Longer, AllSpills, MovedTargets, Near;
    TargetsPlaced(env, env', Places(pre), targets, kept);
    if n == 0 {
      m := 0;
    } else {
      m := SpillsPreserveRuns(env, env', pre, ops, targets, kept, c, d, n - 1);
      var r, q := Run(env, ops, targets, c, n - 1), Run(env', Longer(pre, ops), MovedTargets(Places(pre), targets), d, m);
      if r.Running? {
        var k := SpilledStep(env, env', pre, ops, targets, kept, r.c, q.c);
        RunOn(env', Longer(pre, ops), MovedTargets(Places(pre), targets), d, m, q.c, k);
        m := m + k;
      }
    }
  }
}
