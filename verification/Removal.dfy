/** Removing dead code changes no run: what is kept does, at its new positions, what
    it did before. */
module Removal {
  import opened Ops
  import opened OpList
  import opened Machine
  import opened Moving
  import opened Rewrites
  import DeadCode

  // ---- The shorter list ------------------------------------------------------------

  /** How many of the first n operations are kept. */
  function Count(keep: set<nat>, n: nat): nat {
    if n == 0 then 0 else Count(keep, n - 1) + if n - 1 in keep then 1 else 0
  }

  /** Where an operation is once the others are gone, and where jumps to it lead. */
  function Places(keep: set<nat>, n: nat): (place: seq<nat>)
    ensures |place| == n + 1 && forall i :: 0 <= i <= n ==> place[i] == Count(keep, i)
  {
    seq(n + 1, i requires 0 <= i <= n => Count(keep, i))
  }

  function KeptOps(ops: seq<Op>, keep: set<nat>, place: seq<nat>, n: nat): seq<Op>
    requires n <= |ops|
  {
    if n == 0 then [] else KeptOps(ops, keep, place, n - 1) + if n - 1 in keep then [MovedOp(place, ops[n - 1])] else []
  }

  lemma {:induction false} KeptOpAt(ops: seq<Op>, keep: set<nat>, place: seq<nat>, n: nat, i: nat)
    requires i < n <= |ops| && i in keep
    ensures |KeptOps(ops, keep, place, n)| == Count(keep, n)
    ensures Count(keep, i) < Count(keep, n) && KeptOps(ops, keep, place, n)[Count(keep, i)] == MovedOp(place, ops[i])
  {
    KeptLength(ops, keep, place, n - 1);
    if i < n - 1 {
      KeptOpAt(ops, keep, place, n - 1, i);
    }
  }

  lemma {:induction false} KeptLength(ops: seq<Op>, keep: set<nat>, place: seq<nat>, n: nat)
    requires n <= |ops|
    ensures |KeptOps(ops, keep, place, n)| == Count(keep, n)
  {
    if n > 0 {
      KeptLength(ops, keep, place, n - 1);
    }
  }

  /** The operations that stay in the list, as the list holds them. */
  ghost function StayingSet(nodes: seq<OpNode>): set<nat>
    reads nodes`inUse
  {
    set i | 0 <= i < |nodes| && DeadCode.Stays(nodes[i])
  }

  function OpsOfNodes(nodes: seq<OpNode>, place: seq<nat>): (r: seq<Op>)
    ensures |r| == |nodes| && forall k :: 0 <= k < |nodes| ==> r[k] == MovedOp(place, nodes[k].op)
  {
    seq(|nodes|, k requires 0 <= k < |nodes| => MovedOp(place, nodes[k].op))
  }

  /** The list that dead-code analysis leaves holds exactly the kept operations. */
  lemma {:induction false} KeptNodesAreKeptOps(nodes: seq<OpNode>, ops: seq<Op>, place: seq<nat>, n: nat)
    requires n <= |nodes| == |ops| && forall i :: 0 <= i < |nodes| ==> nodes[i].op == ops[i]
    ensures OpsOfNodes(DeadCode.Kept(nodes, n), place) == KeptOps(ops, StayingSet(nodes), place, n)
  {
    if n > 0 {
      KeptNodesAreKeptOps(nodes, ops, place, n - 1);
      assert n - 1 in StayingSet(nodes) <==> DeadCode.Stays(nodes[n - 1]);
    }
  }

  // ---- Runs ----------------------------------------------------------------------------

  /** Execution that is among these operations stays among them, and they are kept
      with everything they take the address of. */
  ghost predicate StaysAmong(ops: seq<Op>, targets: set<nat>, reach: set<nat>, keep: set<nat>) {
    && Encloses(ops, targets, reach)
    && (forall i: nat :: i in reach ==> i < |ops| && i in keep && JumpsInside(ops[i], |ops|))
    && (forall i: nat :: i in reach && i < |ops| && TakesAddress(ops[i]) ==> ops[i].jmp.value in keep)
  }

  /** The two runs, after as many steps. */
  ghost predicate Alongside<W(!new), M(!new)>(r: Result<Cfg<W, M>, W, M>, q: Result<Cfg<W, M>, W, M>, place: seq<nat>, reach: set<nat>) {
    && q == Moved(place, r)
    && (r.Running? && r.c.pc + 1 < |place| ==> r.c.pc in reach)
    && (r.Running? ==> r.c.pc < |place|)
  }

  lemma StepAlongside<W(!new), M(!new)>(env: Env<W, M>, env': Env<W, M>, ops: seq<Op>, targets: set<nat>, reach: set<nat>, keep: set<nat>,
                                        c: Cfg<W, M>)
    requires StaysAmong(ops, targets, reach, keep) && AddressesMove(env, env', Places(keep, |ops|), targets, keep)
    requires c.pc <= |ops| && (c.pc < |ops| ==> c.pc in reach)
    ensures var place := Places(keep, |ops|);
      Alongside(Step(env, ops, targets, c),
                Step(env', KeptOps(ops, keep, place, |ops|), MovedTargets(place, targets), c.(pc := place[c.pc])), place, reach)
  {
    hide Step, StaysAmong, MovedOp, AddressesMove, LeadsTo;
    var place := Places(keep, |ops|);
    TargetsPlaced(env, env', place, targets, keep);
    var ops' := KeptOps(ops, keep, place, |ops|);
    KeptLength(ops, keep, place, |ops|);
    if c.pc == |ops| {
      StepOffEnd(env, ops, targets, c);
      StepOffEnd(env', ops', MovedTargets(place, targets), c.(pc := place[c.pc]));
    } else {
      InReach(ops, targets, reach, keep, c.pc);
      KeptOpAt(ops, keep, place, |ops|, c.pc);
      MovedStep(env, env', ops, ops', targets, place, keep, c, place[c.pc]);
      StepStays(env, ops, targets, reach, keep, c);
    }
  }

  lemma InReach(ops: seq<Op>, targets: set<nat>, reach: set<nat>, keep: set<nat>, i: nat)
    requires StaysAmong(ops, targets, reach, keep) && i in reach
    ensures i < |ops| && i in keep && JumpsInside(ops[i], |ops|)
    ensures TakesAddress(ops[i]) ==> ops[i].jmp.value in keep
  {
  }

  lemma StepStays<W(!new), M(!new)>(env: Env<W, M>, ops: seq<Op>, targets: set<nat>, reach: set<nat>, keep: set<nat>, c: Cfg<W, M>)
    requires StaysAmong(ops, targets, reach, keep) && c.pc < |ops| && c.pc in reach && forall t :: t in targets ==> t <= |ops|
    ensures var r := Step(env, ops, targets, c); r.Running? ==> r.c.pc <= |ops| && (r.c.pc < |ops| ==> r.c.pc in reach)
  {
    hide Step;
    StepShape(env, ops, targets, c);
    assert JumpsInside(ops[c.pc], |ops|);
    StepBounded(env, ops, targets, c);
  }

  lemma StepBounded<W(!new), M(!new)>(env: Env<W, M>, ops: seq<Op>, targets: set<nat>, c: Cfg<W, M>)
    requires c.pc < |ops| && JumpsInside(ops[c.pc], |ops|) && forall t :: t in targets ==> t <= |ops|
    ensures var r := Step(env, ops, targets, c); r.Running? ==> r.c.pc <= |ops|
  {
    hide VirtVals, WriteBack, ArgValues;
  }

  /** Whatever is kept beside what execution can come to, no run changes. */
  lemma {:induction false} RemovalPreservesRuns<W(!new), M(!new)>(env: Env<W, M>, env': Env<W, M>, ops: seq<Op>, targets: set<nat>,
                                                                  reach: set<nat>, keep: set<nat>, c: Cfg<W, M>, n: nat)
    requires StaysAmong(ops, targets, reach, keep) && AddressesMove(env, env', Places(keep, |ops|), targets, keep)
    requires c.pc in reach && c.pc < |ops|
    ensures var place := Places(keep, |ops|);
      Alongside(Run(env, ops, targets, c, n),
                Run(env', KeptOps(ops, keep, place, |ops|), MovedTargets(place, targets), c.(pc := place[c.pc]), n), place, reach)
  {
    hide Step, StaysAmong, AddressesMove, KeptOps;
    TargetsPlaced(env, env', Places(keep, |ops|), targets, keep);
    if n > 0 {
      RemovalPreservesRuns(env, env', ops, targets, reach, keep, c, n - 1);
      var r := Run(env, ops, targets, c, n - 1);
      if r.Running? {
        StepAlongside(env, env', ops, targets, reach, keep, r.c);
      }
    }
  }

  // ---- What the marks say ------------------------------------------------------------------

  /** What `jit_dead_code_analysis` leaves of a list. */
  ghost predicate Survive(ops: seq<Op>, keep: set<nat>) {
    forall i: nat :: i in keep <==>
      i < |ops| && (DeadCode.Reachable(ops, i) || DeadCode.IsDirective(ops[i].code) || ops[i].code == FULL_SPILL)
  }

  /** The nodes that stay in the list are those. */
  lemma StayingSurvive(nodes: seq<OpNode>, ops: seq<Op>)
    requires |nodes| == |ops| && forall i :: 0 <= i < |nodes| ==> nodes[i].op == ops[i]
    requires forall i :: 0 <= i < |nodes| ==> (nodes[i].inUse <==> DeadCode.Reachable(ops, i) || DeadCode.IsDirective(ops[i].code))
    ensures Survive(ops, StayingSet(nodes))
  {
    forall i: nat
      ensures i in StayingSet(nodes) <==>
        i < |ops| && (DeadCode.Reachable(ops, i) || DeadCode.IsDirective(ops[i].code) || ops[i].code == FULL_SPILL)
    {
      assert i < |nodes| ==> (i in StayingSet(nodes) <==> DeadCode.Stays(nodes[i]));
    }
  }

  /** Where execution goes, marking has gone. */
  lemma ReachedOn(ops: seq<Op>, i: nat, t: nat)
    requires i < |ops| && DeadCode.Reachable(ops, i) && DeadCode.Follows(ops, i, t)
    ensures DeadCode.Reachable(ops, t)
  {
    var r: nat :| r < |ops| && DeadCode.Root(ops, r) && DeadCode.ReachableFrom(ops, r, i);
    DeadCode.ReachStep(ops, r, i, t);
  }

  /** Execution within what marking has reached stays among what is kept. */
  lemma MarkedStays(ops: seq<Op>, targets: set<nat>, reach: set<nat>, keep: set<nat>)
    requires Encloses(ops, targets, reach) && Survive(ops, keep)
    requires forall i: nat :: i in reach ==> i < |ops| && DeadCode.Reachable(ops, i) && JumpsInside(ops[i], |ops|)
    ensures StaysAmong(ops, targets, reach, keep)
  {
    forall i: nat | i in reach && i < |ops| && TakesAddress(ops[i])
      ensures ops[i].jmp.value in keep
    {
      assert JumpsInside(ops[i], |ops|);
      ReachedOn(ops, i, ops[i].jmp.value);
    }
  }

  // ---- The shorter list --------------------------------------------------------------------

  lemma {:induction false} CountMonotone(keep: set<nat>, a: nat, b: nat)
    requires a <= b
    ensures Count(keep, a) <= Count(keep, b)
  {
    if a < b {
      CountMonotone(keep, a, b - 1);
    }
  }

  /** Every operation left is one that was kept. */
  lemma {:induction false} KeptFrom(ops: seq<Op>, keep: set<nat>, place: seq<nat>, n: nat, k: nat) returns (i: nat)
    requires n <= |ops| && k < |KeptOps(ops, keep, place, n)|
    ensures i < n && i in keep && Count(keep, i) == k && KeptOps(ops, keep, place, n)[k] == MovedOp(place, ops[i])
  {
    KeptLength(ops, keep, place, n - 1);
    if k < |KeptOps(ops, keep, place, n - 1)| {
      i := KeptFrom(ops, keep, place, n - 1, k);
    } else {
      i := n - 1;
    }
  }

  /** Where execution may come in the shorter list. */
  ghost function Shifted(place: seq<nat>, reach: set<nat>): set<nat> {
    set i | i in reach && i < |place| :: place[i]
  }

  lemma ShiftedEncloses(ops: seq<Op>, targets: set<nat>, reach: set<nat>, keep: set<nat>)
    requires StaysAmong(ops, targets, reach, keep) && forall t :: t in targets ==> t < |ops|
    ensures var place := Places(keep, |ops|);
      Encloses(KeptOps(ops, keep, place, |ops|), MovedTargets(place, targets), Shifted(place, reach))
  {
    hide StaysAmong;
    var place := Places(keep, |ops|);
    var ops', targets' := KeptOps(ops, keep, place, |ops|), MovedTargets(place, targets);
    forall k: nat, t: nat | k in Shifted(place, reach) && k < |ops'| && Goes(ops', targets', k, t)
      ensures t in Shifted(place, reach)
    {
      var i :| i in reach && i < |place| && place[i] == k;
      InReach(ops, targets, reach, keep, i);
      KeptOpAt(ops, keep, place, |ops|, i);
      var u := ShiftedGoes(ops, targets, keep, i, t);
      StaysWhereItGoes(ops, targets, reach, keep, i, u);
    }
  }

  lemma StaysWhereItGoes(ops: seq<Op>, targets: set<nat>, reach: set<nat>, keep: set<nat>, i: nat, t: nat)
    requires StaysAmong(ops, targets, reach, keep) && i in reach && i < |ops| && Goes(ops, targets, i, t)
    ensures t in reach
  {
  }

  lemma ShiftedGoes(ops: seq<Op>, targets: set<nat>, keep: set<nat>, i: nat, t: nat) returns (u: nat)
    requires i < |ops| && i in keep && JumpsInside(ops[i], |ops|) && forall t :: t in targets ==> t < |ops|
    requires var place := Places(keep, |ops|); var ops' := KeptOps(ops, keep, place, |ops|);
      && place[i] < |ops'| && ops'[place[i]] == MovedOp(place, ops[i]) && |ops'| == Count(keep, |ops|)
      && Goes(ops', MovedTargets(place, targets), place[i], t)
    ensures Goes(ops, targets, i, u) && Places(keep, |ops|)[u] == t
  {
    var place, op := Places(keep, |ops|), ops[i];
    if op.code != JMP && op.code != RET && t == place[i] + 1 {
      u := i + 1;
    } else if ((op.code == JMP && op.mode == ImmForm) || MayBranch(op.code)) && op.jmp.Some? && place[op.jmp.value] == t {
      u := op.jmp.value;
    } else {
      u :| u in targets && place[u] == t;
    }
  }
}
