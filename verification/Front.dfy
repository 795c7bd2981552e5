/** The passes before the flow analysis: each turns a list and a function in it into
    a list and the same function in it, still in order. */
module Front {
  import opened Ops
  import opened RegAlloc
  import opened Allocation
  import opened Machine
  import opened Moving
  import opened Rewrites
  import opened Insertion
  import opened Shapes
  import opened Liveness
  import opened Layout
  import opened Reaching
  import DeadCode
  import Flow
  import LongImm
  import LongImmList
  import Removal
  import SpillList
  import StoreFold

  /** A list, where indirect jumps of the function that begins at q can lead, and q. */
  datatype Fun = Fun(ops: seq<Op>, targets: set<nat>, q: nat)

  /** All that a run of the function can come to. */
  ghost function Reach(f: Fun): set<nat> {
    RunSet(f.ops, f.targets, f.q)
  }

  /** Operation k takes the address of t, and either execution may come to it or it is data. */
  ghost predicate TakenBy(f: Fun, k: nat, t: nat) {
    && f.q < k < |f.ops| && k < Flow.End(f.ops, f.q + 1) && f.ops[k].jmp == Some(t)
    && ((f.ops[k].code == REF_CODE && DeadCode.Reachable(f.ops, k)) || f.ops[k].code == DATA_REF_CODE)
  }

  ghost predicate TargetTaken(f: Fun, t: nat)
    requires f.q < |f.ops|
  {
    exists k :: TakenBy(f, k, t)
  }

  /** A list in order, a function that keeps control, and indirect jumps to operations
      whose address the function takes. */
  ghost predicate FunOk(f: Fun, infos: map<int, seq<ArgInfo>>) {
    && ListShape(f.ops, infos) && PointsWell(f.ops) && Flow.StartsAt(f.ops, f.q)
    && (forall i: nat :: i in Reach(f) ==> f.q <= i < |f.ops| && i < Flow.End(f.ops, f.q + 1))
    && (forall t :: t in f.targets ==> TargetTaken(f, t))
  }

  lemma ReachEncloses(f: Fun)
    requires f.q < |f.ops|
    ensures f.q in Reach(f) && Encloses(f.ops, f.targets, Reach(f))
  {
    RunSetEncloses(f.ops, f.targets, f.q);
  }

  lemma FunStarts(f: Fun, infos: map<int, seq<ArgInfo>>)
    requires FunOk(f, infos)
    ensures ListShape(f.ops, infos) && PointsWell(f.ops) && Flow.StartsAt(f.ops, f.q) && f.q < |f.ops|
  {
  }

  /** Where a run of the function may be. */
  lemma InFunction(f: Fun, infos: map<int, seq<ArgInfo>>, i: nat)
    requires FunOk(f, infos) && i in Reach(f)
    ensures f.q <= i < |f.ops| && i < Flow.End(f.ops, f.q + 1)
  {
    hide ListShape, PointsWell, Reach, TargetTaken;
  }

  lemma IsTaken(f: Fun, infos: map<int, seq<ArgInfo>>, t: nat)
    requires FunOk(f, infos) && t in f.targets
    ensures f.q < |f.ops| && TargetTaken(f, t)
  {
    hide ListShape, PointsWell, Reach, TargetTaken;
  }

  lemma TakenLands(f: Fun, infos: map<int, seq<ArgInfo>>, t: nat)
    requires FunOk(f, infos) && t in f.targets
    ensures t < |f.ops| && IsLanding(f.ops[t].code)
  {
    hide OpShape, AdjacentAt, PointsWell;
    var k :| TakenBy(f, k, t);
    ShapeAt(f.ops, infos, k);
  }

  lemma FunInside(f: Fun, infos: map<int, seq<ArgInfo>>)
    requires FunOk(f, infos)
    ensures Inside(f.ops, f.targets) && forall t :: t in f.targets ==> IsLanding(f.ops[t].code)
  {
    hide ListShape, TargetTaken, OpShape;
    forall t | t in f.targets
      ensures t < |f.ops| && IsLanding(f.ops[t].code)
    {
      TakenLands(f, infos, t);
    }
    forall i | 0 <= i < |f.ops|
      ensures JumpsInside(f.ops[i], |f.ops|)
    {
      assert PointsAt(f.ops, i);
    }
  }

  // ---- Putting operations in front of others ---------------------------------------------------

  function Longed(pre: seq<seq<Op>>, f: Fun): Fun
    requires |pre| == |f.ops| && f.q < |f.ops| && forall t :: t in f.targets ==> t < |f.ops|
  {
    Fun(Longer(pre, f.ops), MovedTargets(Places(pre), f.targets), Place(pre, f.q))
  }

  lemma LongerPoints(pre: seq<seq<Op>>, ops: seq<Op>)
    requires FrontsOk(pre, ops) && PointsWell(ops)
    ensures PointsWell(Longer(pre, ops))
  {
    hide Longer, Start, FrontsOk, FrontShape, PointsAt, OpShape;
    FrontsMatch(pre, ops);
    LongerLength(pre, ops);
    forall p: nat | p < |Longer(pre, ops)|
      ensures PointsAt(Longer(pre, ops), p)
    {
      var i := OwnerOf(pre, |pre|, p);
      if p < Place(pre, i) {
        LongerBefore(pre, ops, i, p - Start(pre, i));
        FrontAt(pre, ops, i, p - Start(pre, i));
        PointsNowhere(Longer(pre, ops), p);
      } else {
        assert PointsAt(ops, i);
        StillPoints(pre, ops, i);
      }
    }
  }

  lemma PointsNowhere(ops: seq<Op>, i: nat)
    requires i < |ops| && ops[i].jmp.None?
    ensures PointsAt(ops, i)
  {
  }

  lemma StillPoints(pre: seq<seq<Op>>, ops: seq<Op>, i: nat)
    requires |pre| == |ops| && i < |ops| && PointsAt(ops, i)
    ensures Place(pre, i) < |Longer(pre, ops)| && PointsAt(Longer(pre, ops), Place(pre, i))
  {
    hide Longer, Start;
    LongerAt(pre, ops, i);
    if ops[i].jmp.Some? {
      LongerAt(pre, ops, ops[i].jmp.value);
    }
  }

  /** Through what stands in front. */
  lemma {:induction false} ReachableThrough(pre: seq<seq<Op>>, ops: seq<Op>, i: nat, k: nat)
    requires FrontsOk(pre, ops) && i < |ops| && k <= |pre[i]|
    requires DeadCode.Reachable(Longer(pre, ops), Start(pre, i))
    ensures DeadCode.Reachable(Longer(pre, ops), Start(pre, i) + k)
  {
    hide Longer, Start, DeadCode.Reachable, FrontsOk, FrontShape;
    if k > 0 {
      FrontsMatch(pre, ops);
      ReachableThrough(pre, ops, i, k - 1);
      LongerBefore(pre, ops, i, k - 1);
      LongerAt(pre, ops, i);
      FrontStands(pre, ops, i, k - 1);
      Removal.ReachedOn(Longer(pre, ops), Start(pre, i) + (k - 1), Start(pre, i) + k);
    }
  }

  lemma FrontStands(pre: seq<seq<Op>>, ops: seq<Op>, i: nat, k: nat)
    requires FrontsOk(pre, ops) && i < |pre| && k < |pre[i]|
    ensures !DeadCode.Stops(pre[i][k].code)
  {
    hide FrontShape;
    FrontAt(pre, ops, i, k);
    assert OpShape(pre[i][k], []);
  }

  /** The operations that can still be reached. */
  ghost function StillReachable(pre: seq<seq<Op>>, ops: seq<Op>): set<nat>
    requires |pre| == |ops|
  {
    set i: nat | i < |ops| && DeadCode.Reachable(Longer(pre, ops), Place(pre, i))
  }

  lemma StillFollows(pre: seq<seq<Op>>, ops: seq<Op>, i: nat, t: nat)
    requires FrontsOk(pre, ops) && i < |ops| && DeadCode.Follows(ops, i, t) && DeadCode.Reachable(Longer(pre, ops), Place(pre, i))
    ensures t < |ops| && DeadCode.Reachable(Longer(pre, ops), Place(pre, t))
  {
    hide Longer, Start, DeadCode.Reachable, FrontsOk;
    assert |pre| == |ops| by { FrontsMatch(pre, ops); }
    LongerAt(pre, ops, i);
    if ops[i].jmp == Some(t) {
      LongerAt(pre, ops, t);
      Removal.ReachedOn(Longer(pre, ops), Place(pre, i), Place(pre, t));
    } else {
      FollowsNext(pre, ops, i);
      hide MovedOp, DeadCode.Follows;
      Removal.ReachedOn(Longer(pre, ops), Place(pre, i), Start(pre, t));
      ReachableThrough(pre, ops, t, |pre[t]|);
    }
  }

  lemma FollowsNext(pre: seq<seq<Op>>, ops: seq<Op>, i: nat)
    requires |pre| == |ops| && i + 1 < |ops| && !DeadCode.Stops(ops[i].code)
    ensures Place(pre, i) < |Longer(pre, ops)| && DeadCode.Follows(Longer(pre, ops), Place(pre, i), Start(pre, i + 1))
  {
    hide Longer, Start;
    LongerAt(pre, ops, i);
    LongerAt(pre, ops, i + 1);
    NextStart(pre, i);
    NextStart(pre, i + 1);
  }

  lemma StillRoot(pre: seq<seq<Op>>, ops: seq<Op>, r: nat)
    requires FrontsOk(pre, ops) && r < |ops| && DeadCode.Root(ops, r)
    ensures DeadCode.Reachable(Longer(pre, ops), Place(pre, r))
  {
    hide Longer, Start, DeadCode.Reachable, FrontsOk;
    assert |pre| == |ops| by { FrontsMatch(pre, ops); }
    LongerAt(pre, ops, r);
    if ops[r].code != PROLOG {
      var k :| 0 <= k < |ops| && ops[k].code == DATA_REF_CODE && ops[k].jmp == Some(r);
      LongerAt(pre, ops, k);
      var k' := Place(pre, k);
      assert Longer(pre, ops)[k'].code == DATA_REF_CODE && Longer(pre, ops)[k'].jmp == Some(Place(pre, r));
    }
    RootReached(Longer(pre, ops), Place(pre, r));
  }

  /** What could be reached still can. */
  lemma ReachableMoved(pre: seq<seq<Op>>, ops: seq<Op>, i: nat)
    requires FrontsOk(pre, ops) && i < |ops| && DeadCode.Reachable(ops, i)
    ensures DeadCode.Reachable(Longer(pre, ops), Place(pre, i))
  {
    hide Longer, Place, DeadCode.Reachable, FrontsOk, DeadCode.Root;
    assert |pre| == |ops| by { FrontsMatch(pre, ops); }
    var used := StillReachable(pre, ops);
    forall k, t | k in used && k < |ops| && DeadCode.Follows(ops, k, t)
      ensures t in used
    {
      StillFollows(pre, ops, k, t);
    }
    forall r: nat | r < |ops| && DeadCode.Root(ops, r)
      ensures r in used
    {
      StillRoot(pre, ops, r);
    }
    DeadCode.ReachableIsLeast(ops, used, i);
  }

  lemma LongedTaker(pre: seq<seq<Op>>, f: Fun, k: nat, t: nat)
    requires FrontsOk(pre, f.ops) && |pre| == |f.ops| && Inside(f.ops, f.targets) && t in f.targets && Flow.StartsAt(f.ops, f.q) && TakenBy(f, k, t)
    ensures k < |pre| && TakenBy(Longed(pre, f), Place(pre, k), Place(pre, t))
  {
    hide Longer, Start, DeadCode.Reachable, FrontsOk, Flow.End, MovedTargets, JumpsInside;
    LongerAt(pre, f.ops, k);
    LongerAt(pre, f.ops, f.q);
    NextStart(pre, k);
    LongerExtent(pre, f.ops, f.q, k, Place(pre, k));
    PlacesInOrder(pre, f.q, k);
    if DeadCode.Reachable(f.ops, k) {
      ReachableMoved(pre, f.ops, k);
    }
  }

  lemma LongedTaken(pre: seq<seq<Op>>, f: Fun, infos: map<int, seq<ArgInfo>>, t: nat)
    requires FunOk(f, infos) && FrontsOk(pre, f.ops) && Inside(f.ops, f.targets) && t in f.targets
    ensures |pre| == |f.ops| && var g := Longed(pre, f); g.q < |g.ops| && TargetTaken(g, Place(pre, t))
  {
    hide Longer, Place, FunOk, FrontsOk, TakenBy, MovedTargets, JumpsInside;
    FrontsMatch(pre, f.ops);
    FunStarts(f, infos);
    IsTaken(f, infos, t);
    LongerAt(pre, f.ops, f.q);
    var k :| TakenBy(f, k, t);
    LongedTaker(pre, f, k, t);
    assert TakenBy(Longed(pre, f), Place(pre, k), Place(pre, t));
  }

  lemma LongedReach(pre: seq<seq<Op>>, f: Fun, infos: map<int, seq<ArgInfo>>, p: nat)
    requires FunOk(f, infos) && FrontsOk(pre, f.ops) && Inside(f.ops, f.targets)
    requires p in Reach(Longed(pre, f))
    ensures var g := Longed(pre, f); g.q <= p < |g.ops| && p < Flow.End(g.ops, g.q + 1)
  {
    hide Longer, Start, OpShape, ListShape, PointsWell, RunSet, Owned, Encloses;
    var g := Longed(pre, f);
    RunSetEncloses(f.ops, f.targets, f.q);
    FrontsGoOn(pre, f.ops);
    OwnedEncloses(pre, f.ops, f.targets, Reach(f));
    NextStart(pre, f.q);
    OwnedBy(pre, Reach(f), f.q, Place(pre, f.q));
    RunSetIsLeast(g.ops, g.targets, g.q, Owned(pre, Reach(f)));
    var i := OwnerIn(pre, Reach(f), p);
    LongerExtent(pre, f.ops, f.q, i, p);
  }

  lemma FrontsGoOn(pre: seq<seq<Op>>, ops: seq<Op>)
    requires FrontsOk(pre, ops)
    ensures |pre| == |ops| && AllGoOn(pre)
  {
    hide OpShape, GoesOnly;
    forall i, k | 0 <= i < |pre| && 0 <= k < |pre[i]|
      ensures GoesOnly(pre[i][k])
    {
      assert FrontShape(pre[i][k]);
    }
  }

  /** The longer list is in order as well. */
  lemma LongedOk(pre: seq<seq<Op>>, f: Fun, infos: map<int, seq<ArgInfo>>)
    requires FunOk(f, infos) && FrontsOk(pre, f.ops)
    ensures Inside(f.ops, f.targets) && |pre| == |f.ops| && FunOk(Longed(pre, f), infos)
  {
    hide Longer, Place, OpShape, FrontShape, ListShape, PointsWell, RunSet, TargetTaken;
    FunInside(f, infos);
    var g := Longed(pre, f);
    LongerShape(pre, f.ops, infos);
    LongerPoints(pre, f.ops);
    LongerAt(pre, f.ops, f.q);
    forall p: nat | p in Reach(g)
      ensures g.q <= p < |g.ops| && p < Flow.End(g.ops, g.q + 1)
    {
      LongedReach(pre, f, infos, p);
    }
    forall u | u in g.targets
      ensures TargetTaken(g, u)
    {
      var t :| t in f.targets && Places(pre)[t] == u;
      LongedTaken(pre, f, infos, t);
    }
  }

  // ---- Long immediates ---------------------------------------------------------------------------

  /** What the lowering of immediates finds in a program: immediates where it looks for
      them, its register used nowhere, and nothing to lower in labels and patches. */
  predicate Lowerable(op: Op) {
    && LongImm.ImmShape(op) && LongImm.AvoidsImmReg(op)
    && (op.code in {NOP, PROLOG, PREPARE, FULL_SPILL, LABEL, PATCH} ==> LongImm.Skipped(op))
  }

  ghost predicate AllLowerable(ops: seq<Op>) {
    forall i :: 0 <= i < |ops| ==> Lowerable(ops[i])
  }

  function LowerAll(m: LongImm.Target, ops: seq<Op>): (l: LongImm.Lowered)
    requires m.bits < m.w && forall i :: 0 <= i < |ops| ==> LongImm.ImmShape(ops[i])
    ensures LongImm.LoweredList(m, ops, l)
  {
    LongImm.Lowered(seq(|ops|, i requires 0 <= i < |ops| => LongImm.Lower(m, ops[i]).0),
                    seq(|ops|, i requires 0 <= i < |ops| => LongImm.Lower(m, ops[i]).1))
  }

  /** The register of long immediates is read in place of the immediate. */
  lemma WithRegUses(op: Op, i: int)
    requires 0 <= i < 3 && op.T(i) == IMM
    ensures LongImm.WithReg(op, i).Uses() == op.Uses() + {R_IMM} && LongImm.WithReg(op, i).Defs() == op.Defs()
  {
    var r := LongImm.WithReg(op, i);
    assert r.T(i) == REG && r.A(i) == R_IMM;
    assert forall k :: 0 <= k < 3 && k != i ==> r.T(k) == op.T(k) && r.A(k) == op.A(k);
    assert forall v :: v in r.Uses() <==> v in op.Uses() || v == R_IMM;
    assert forall v :: v in r.Defs() <==> v in op.Defs();
  }

  /** What is lowered has operands of its own choice. */
  lemma LoweredCodes(op: Op, info: seq<ArgInfo>)
    requires Lowerable(op) && !LongImm.Skipped(op) && Shaped(op, info)
    ensures 0 <= LongImm.ImmArg(op) < 3 && op.T(LongImm.ImmArg(op)) == IMM
    ensures op.code !in {NOP, PROLOG, PREPARE, FULL_SPILL, LABEL, PATCH, GETARG, PUTARG, CALL, RETVAL, REF_CODE, JMP, MOV}
    ensures MayBranch(op.code) ==> LongImm.ImmArg(op) == 2
  {
  }

  lemma WithRegFields(op: Op, info: seq<ArgInfo>)
    requires Lowerable(op) && !LongImm.Skipped(op) && Plain(op, info) && Shaped(op, info) && StoreFold.StoreShape(op) && AluForm(op)
    ensures 0 <= LongImm.ImmArg(op) < 3
    ensures var r := LongImm.WithReg(op, LongImm.ImmArg(op)); Plain(r, info) && Shaped(r, info) && StoreFold.StoreShape(r) && AluForm(r)
  {
    LoweredCodes(op, info);
    hide Lowerable, LongImm.Skipped;
    assert op.T(0) == op.t0 && op.T(1) == op.t1 && op.T(2) == op.t2;
  }

  lemma WithRegOperands(op: Op, info: seq<ArgInfo>)
    requires Lowerable(op) && !LongImm.Skipped(op) && Shaped(op, info) && OperandsOk(op)
    ensures var i := LongImm.ImmArg(op); 0 <= i < 3 && OperandsOk(LongImm.WithReg(op, i)) && Flow.OpOk(info, LongImm.WithReg(op, i))
  {
    LoweredCodes(op, info);
    hide Lowerable, LongImm.Skipped, Shaped, Op.Uses, Op.Defs;
    var i := LongImm.ImmArg(op);
    WithRegUses(op, i);
    assert !IsAlias(R_IMM);
    var r := LongImm.WithReg(op, i);
    assert r.T(1) == r.t1 && r.T(2) == r.t2 && op.T(1) == op.t1 && op.T(2) == op.t2;
  }

  lemma LoweredOpShape(m: LongImm.Target, op: Op, info: seq<ArgInfo>)
    requires m.bits < m.w && Lowerable(op) && OpShape(op, info)
    ensures OpShape(LongImm.Lower(m, op).1, info)
  {
    hide Plain, Shaped, StoreFold.StoreShape, AluForm, OperandsOk, Flow.OpOk, LongImm.Skipped, LongImm.ImmOverflow;
    if LongImm.IsLowered(m, op) {
      WithRegFields(op, info);
      WithRegOperands(op, info);
    }
  }

  lemma MoveImmShape(value: int, size: nat, info: seq<ArgInfo>)
    ensures OpShape(LongImm.MoveImm(value, size), info)
  {
    var r := LongImm.MoveImm(value, size);
    assert r.T(0) == TREG && r.T(1) == IMM && r.T(2) == NO && r.A(0) == R_IMM;
    assert r.Uses() == {} && r.Defs() == {R_IMM};
  }

  /** Control goes the same ways. */
  ghost predicate SameFlow(ops: seq<Op>, ops': seq<Op>) {
    && |ops'| == |ops|
    && forall i :: 0 <= i < |ops| ==>
      && ops'[i].code == ops[i].code && ops'[i].jmp == ops[i].jmp && (ops[i].code in {JMP, PROLOG} ==> ops'[i] == ops[i])
  }

  lemma SameGoes(ops: seq<Op>, ops': seq<Op>, targets: set<nat>, reach: set<nat>)
    requires SameFlow(ops, ops') && Encloses(ops, targets, reach)
    ensures Encloses(ops', targets, reach)
  {
    forall i: nat, t: nat | i in reach && i < |ops'| && Goes(ops', targets, i, t)
      ensures t in reach
    {
      assert Goes(ops, targets, i, t);
    }
  }

  lemma SameReachable(ops: seq<Op>, ops': seq<Op>, i: nat)
    requires SameFlow(ops, ops') && i < |ops| && DeadCode.Reachable(ops, i)
    ensures DeadCode.Reachable(ops', i)
  {
    hide DeadCode.Reachable;
    var used := set k: nat | k < |ops| && DeadCode.Reachable(ops', k);
    forall k, t | k in used && k < |ops| && DeadCode.Follows(ops, k, t)
      ensures t in used
    {
      Removal.ReachedOn(ops', k, t);
    }
    forall r: nat | r < |ops| && DeadCode.Root(ops, r)
      ensures r in used
    {
      if ops[r].code != PROLOG {
        var k :| 0 <= k < |ops| && ops[k].code == DATA_REF_CODE && ops[k].jmp == Some(r);
        assert ops'[k].code == DATA_REF_CODE && ops'[k].jmp == Some(r);
      }
      RootReached(ops', r);
    }
    DeadCode.ReachableIsLeast(ops, used, i);
  }

  lemma {:induction false} SameFlowEnd(ops: seq<Op>, ops': seq<Op>, k: nat)
    requires SameFlow(ops, ops') && k <= |ops|
    ensures Flow.End(ops', k) == Flow.End(ops, k)
    decreases |ops| - k
  {
    if k < |ops| && ops[k].code != PROLOG {
      SameFlowEnd(ops, ops', k + 1);
    }
  }

  lemma {:induction false} SameFlowDeclared(ops: seq<Op>, ops': seq<Op>, infos: map<int, seq<ArgInfo>>, i: nat)
    requires SameFlow(ops, ops') && i < |ops|
    ensures DeclaredAt(ops', infos, i) == DeclaredAt(ops, infos, i)
  {
    if i > 0 {
      SameFlowDeclared(ops, ops', infos, i - 1);
    }
  }

  /** A function in a list with the same flow is in order if the operations are. */
  lemma SameFlowOk(f: Fun, ops': seq<Op>, infos: map<int, seq<ArgInfo>>)
    requires FunOk(f, infos) && SameFlow(f.ops, ops')
    requires forall i :: 0 <= i < |ops'| ==> OpShape(ops'[i], DeclaredAt(f.ops, infos, i))
    ensures FunOk(f.(ops := ops'), infos)
  {
    hide OpShape, RunSet, TargetTaken;
    var g := f.(ops := ops');
    forall i | 0 <= i < |ops'|
      ensures WellFormedAt(ops', infos, i) && PointsAt(ops', i)
    {
      assert WellFormedAt(f.ops, infos, i) && PointsAt(f.ops, i);
      SameFlowDeclared(f.ops, ops', infos, i);
    }
    RunSetEncloses(f.ops, f.targets, f.q);
    SameGoes(f.ops, ops', f.targets, Reach(f));
    RunSetIsLeast(ops', f.targets, f.q, Reach(f));
    SameFlowEnd(f.ops, ops', f.q + 1);
    forall t | t in g.targets
      ensures TargetTaken(g, t)
    {
      SameTaken(f, ops', t);
    }
  }

  lemma SameTaker(f: Fun, ops': seq<Op>, k: nat, t: nat)
    requires SameFlow(f.ops, ops') && f.q < |f.ops| && TakenBy(f, k, t)
    ensures TakenBy(f.(ops := ops'), k, t)
  {
    hide DeadCode.Reachable, Flow.End;
    SameFlowEnd(f.ops, ops', f.q + 1);
    if DeadCode.Reachable(f.ops, k) {
      SameReachable(f.ops, ops', k);
    }
  }

  lemma SameTaken(f: Fun, ops': seq<Op>, t: nat)
    requires SameFlow(f.ops, ops') && f.q < |f.ops| && TargetTaken(f, t)
    ensures TargetTaken(f.(ops := ops'), t)
  {
    hide TakenBy;
    var k :| TakenBy(f, k, t);
    SameTaker(f, ops', k, t);
  }

  /** The function after `jit_correct_long_imms`. */
  function LoweredFun(m: LongImm.Target, f: Fun): Fun
    requires m.bits < m.w && (forall i :: 0 <= i < |f.ops| ==> LongImm.ImmShape(f.ops[i]))
    requires f.q < |f.ops| && forall t :: t in f.targets ==> t < |f.ops|
  {
    var l := LowerAll(m, f.ops);
    Longed(LongImmList.Fronts(l), f.(ops := l.ops))
  }

  /** One operation and what is put in front of it. */
  lemma LoweredOne(m: LongImm.Target, op: Op, info: seq<ArgInfo>)
    requires m.bits < m.w && Lowerable(op) && OpShape(op, info)
    ensures var (pre, r) := LongImm.Lower(m, op);
      && r.code == op.code && r.jmp == op.jmp && (op.code in {JMP, PROLOG} ==> r == op) && OpShape(r, info)
      && (pre.Some? ==> FrontShape(pre.value) && op.code !in {PUTARG, CALL, RETVAL, PROLOG})
  {
    LoweredOpShape(m, op, info);
    hide Plain, StoreFold.StoreShape, AluForm, OperandsOk, Flow.OpOk, LongImm.ImmOverflow;
    if LongImm.IsLowered(m, op) {
      LoweredCodes(op, info);
      MoveInFront(op.A(LongImm.ImmArg(op)), m.regSize);
    }
  }

  lemma MoveInFront(value: int, size: nat)
    ensures FrontShape(LongImm.MoveImm(value, size))
  {
    hide OpShape;
    forall info
      ensures OpShape(LongImm.MoveImm(value, size), info)
    {
      MoveImmShape(value, size, info);
    }
  }

  lemma LoweredFlow(m: LongImm.Target, ops: seq<Op>, infos: map<int, seq<ArgInfo>>)
    requires m.bits < m.w && ListShape(ops, infos) && AllLowerable(ops)
    ensures var l := LowerAll(m, ops);
      && SameFlow(ops, l.ops) && (forall i :: 0 <= i < |ops| ==> OpShape(l.ops[i], DeclaredAt(ops, infos, i)))
      && FrontsOk(LongImmList.Fronts(l), l.ops)
  {
    var l := LowerAll(m, ops);
    hide OpShape, ListShape, LongImm.Lower, Lowerable, FrontShape;
    forall i | 0 <= i < |ops|
      ensures l.ops[i].code == ops[i].code && l.ops[i].jmp == ops[i].jmp && (ops[i].code in {JMP, PROLOG} ==> l.ops[i] == ops[i])
      ensures OpShape(l.ops[i], DeclaredAt(ops, infos, i))
      ensures l.pre[i].Some? ==> FrontShape(l.pre[i].value) && ops[i].code !in {PUTARG, CALL, RETVAL, PROLOG}
    {
      assert Lowerable(ops[i]);
      ShapeAt(ops, infos, i);
      LoweredOne(m, ops[i], DeclaredAt(ops, infos, i));
    }
  }

  /** Lowering keeps everything in order. */
  lemma LoweredOk(m: LongImm.Target, f: Fun, infos: map<int, seq<ArgInfo>>)
    requires m.bits < m.w && FunOk(f, infos) && AllLowerable(f.ops)
    ensures Inside(f.ops, f.targets) && FunOk(LoweredFun(m, f), infos)
  {
    hide ListShape, PointsWell, RunSet, TargetTaken, OpShape, FrontsOk;
    FunInside(f, infos);
    LoweredFlow(m, f.ops, infos);
    var l := LowerAll(m, f.ops);
    SameFlowOk(f, l.ops, infos);
    LongedOk(LongImmList.Fronts(l), f.(ops := l.ops), infos);
  }

  // ---- Runs ------------------------------------------------------------------------------------------

  /** A run that begins with the function. */
  function Started<W, M>(f: Fun, c: Cfg<W, M>): Cfg<W, M> {
    c.(pc := f.q)
  }

  function AllPlaces(n: nat): (r: set<nat>)
    ensures forall i: nat :: i in r <==> i < n
  {
    if n == 0 then {} else AllPlaces(n - 1) + {n - 1}
  }

  /** The machine as the list before the insertion sees it. */
  ghost function BeforeLonged<W, M>(env: Env<W, M>, pre: seq<seq<Op>>, f: Fun): Env<W, M> {
    MovedBack(env, Places(pre), f.targets)
  }

  lemma LongedAddresses<W(!new), M(!new)>(env: Env<W, M>, pre: seq<seq<Op>>, f: Fun)
    requires |pre| == |f.ops| && forall t :: t in f.targets ==> t < |f.ops|
    ensures AddressesMove(BeforeLonged(env, pre, f), env, Places(pre), f.targets, AllPlaces(|f.ops|))
  {
    hide Start, Place;
    forall t, u | t in f.targets && u in f.targets && Places(pre)[t] == Places(pre)[u]
      ensures t == u
    {
      if t < u {
        PlacesInOrder(pre, t, u);
      } else if u < t {
        PlacesInOrder(pre, u, t);
      }
    }
    MovesBack(env, Places(pre), f.targets, AllPlaces(|f.ops|));
  }

  /** Nothing is put in front of where a jump leads. */
  lemma LoweredLands(m: LongImm.Target, f: Fun, infos: map<int, seq<ArgInfo>>)
    requires m.bits < m.w && FunOk(f, infos) && AllLowerable(f.ops)
    ensures LongImmList.LandsPlain(LowerAll(m, f.ops), f.targets)
  {
    FunInside(f, infos);
    FunStarts(f, infos);
    LoweredFlow(m, f.ops, infos);
    var l := LowerAll(m, f.ops);
    hide FunOk, ListShape, PointsWell, OpShape, FrontsOk, LongImm.LoweredList, AllLowerable, LowerAll, LongImmList.JumpOf;
    forall i, t | 0 <= i < |l.ops| && t in f.targets + LongImmList.JumpOf(l.ops[i])
      ensures t < |l.ops| && l.pre[t].None?
    {
      if t in LongImmList.JumpOf(l.ops[i]) {
        SameJump(f.ops, l.ops, infos, i, t);
      }
      LandingNotLowered(m, f.ops, t);
    }
    forall i | 0 <= i < |l.ops|
      ensures JumpsInside(l.ops[i], |l.ops|)
    {
      assert JumpsInside(f.ops[i], |f.ops|);
    }
  }

  lemma SameJump(ops: seq<Op>, ops': seq<Op>, infos: map<int, seq<ArgInfo>>, i: nat, t: nat)
    requires ListShape(ops, infos) && PointsWell(ops) && SameFlow(ops, ops') && i < |ops| && t in LongImmList.JumpOf(ops'[i])
    ensures t < |ops| && IsLanding(ops[t].code)
  {
    hide ListShape, PointsWell;
    JumpLands(ops, infos, i);
  }

  lemma LandingNotLowered(m: LongImm.Target, ops: seq<Op>, t: nat)
    requires m.bits < m.w && AllLowerable(ops) && t < |ops| && IsLanding(ops[t].code)
    ensures LowerAll(m, ops).pre[t].None?
  {
    assert Lowerable(ops[t]);
  }

  lemma JumpLands(ops: seq<Op>, infos: map<int, seq<ArgInfo>>, i: nat)
    requires ListShape(ops, infos) && PointsWell(ops) && i < |ops| && (ops[i].code == JMP || MayBranch(ops[i].code)) && ops[i].jmp.Some?
    ensures ops[i].jmp.value < |ops| && IsLanding(ops[ops[i].jmp.value].code)
  {
    hide OpShape, AdjacentAt;
    assert PointsAt(ops, i);
    ShapeAt(ops, infos, i);
  }

  lemma FormsMoved<W(!new), M(!new)>(env: Env<W, M>, pre: seq<seq<Op>>, f: Fun)
    requires LongImm.FormsAgree(env)
    ensures LongImm.FormsAgree(BeforeLonged(env, pre, f))
  {
  }

  /** The function does what it did before its immediates were lowered. */
  lemma LoweredRuns<W(!new), M(!new)>(env: Env<W, M>, m: LongImm.Target, f: Fun, infos: map<int, seq<ArgInfo>>, c: Cfg<W, M>, n: nat)
    returns (k: nat)
    requires m.bits < m.w && FunOk(f, infos) && AllLowerable(f.ops) && LongImm.FormsAgree(env) && c.pc == f.q && c.args == []
    requires Inside(f.ops, f.targets)
    ensures var before, g := BeforeLonged(env, LongImmList.Fronts(LowerAll(m, f.ops)), f), LoweredFun(m, f);
      Upheld(Run(before, f.ops, f.targets, c, n), n, Run(env, g.ops, g.targets, Started(g, c), k), k)
  {
    hide ListShape, PointsWell, RunSet, TargetTaken, OpShape, Run, LongImm.FormsAgree, AddressesMove, LongImmList.LandsPlain, Longer;
    var l := LowerAll(m, f.ops);
    var pre := LongImmList.Fronts(l);
    LoweredFlow(m, f.ops, infos);
    LoweredLands(m, f, infos);
    LongedAddresses(env, pre, f);
    FormsMoved(env, pre, f);
    forall i | 0 <= i < |f.ops|
      ensures LongImm.AvoidsImmReg(f.ops[i])
    {
      assert Lowerable(f.ops[i]);
    }
    k := LongImmList.LoweredListPreservesRuns(BeforeLonged(env, pre, f), env, m, f.ops, l, f.targets, AllPlaces(|f.ops|), c, n);
    assert pre[f.q] == [];
    assert LongImmList.At(l, c) == Started(LoweredFun(m, f), c);
  }

  // ---- Spills ------------------------------------------------------------------------------------------

  const SPILL := Op(FULL_SPILL, ImmForm, false, NO, NO, NO, 0, 0, 0, 0, None, 0)

  function SpillFronts(ops: seq<Op>): seq<seq<Op>> {
    SpillList.SpillsOf(ops, SPILL, |ops|)
  }

  /** The function after `jit_prepare_spills_on_jmpr_targets`. */
  function SpilledFun(f: Fun): Fun
    requires f.q < |f.ops| && forall t :: t in f.targets ==> t < |f.ops|
  {
    Longed(SpillFronts(f.ops), f)
  }

  lemma SpillShape(info: seq<ArgInfo>)
    ensures OpShape(SPILL, info)
  {
    assert SPILL.T(0) == NO && SPILL.T(1) == NO && SPILL.T(2) == NO;
    assert SPILL.Uses() == {} && SPILL.Defs() == {};
  }

  lemma {:induction false} NoRefsTo(ops: seq<Op>, infos: map<int, seq<ArgInfo>>, n: nat, t: nat)
    requires ListShape(ops, infos) && n <= |ops| && t < |ops| && !IsLanding(ops[t].code)
    ensures SpillList.RefsTo(ops, n, t) == 0
  {
    hide OpShape, ListShape, AdjacentAt;
    if n > 0 {
      NoRefsTo(ops, infos, n - 1, t);
      ShapeAt(ops, infos, n - 1);
    }
  }

  lemma {:induction false} SomeRefTo(ops: seq<Op>, n: nat, t: nat, k: nat)
    requires k < n <= |ops| && IsRef(ops[k]) && ops[k].jmp == Some(t)
    ensures SpillList.RefsTo(ops, n, t) > 0
  {
    if k < n - 1 {
      SomeRefTo(ops, n - 1, t, k);
    }
  }

  lemma SpillsFront(ops: seq<Op>, infos: map<int, seq<ArgInfo>>)
    requires ListShape(ops, infos)
    ensures FrontsOk(SpillFronts(ops), ops) && SpillList.AllSpills(SpillFronts(ops))
  {
    hide OpShape, ListShape;
    forall info
      ensures OpShape(SPILL, info)
    {
      SpillShape(info);
    }
    var pre := SpillFronts(ops);
    forall i | 0 <= i < |pre| && ops[i].code in {PUTARG, CALL, RETVAL, PROLOG}
      ensures pre[i] == []
    {
      NoRefsTo(ops, infos, |ops|, i);
    }
  }

  lemma TakenHasSpill(f: Fun, t: nat)
    requires f.q < |f.ops| && TargetTaken(f, t)
    ensures SpillList.RefsTo(f.ops, |f.ops|, t) > 0
  {
    hide DeadCode.Reachable, Flow.End, SpillList.RefsTo;
    var k :| TakenBy(f, k, t);
    SomeRefTo(f.ops, |f.ops|, t, k);
  }

  /** Every indirect jump now leads right behind a spill. */
  lemma SpillBefore(f: Fun, infos: map<int, seq<ArgInfo>>, t: nat)
    requires FunOk(f, infos) && Inside(f.ops, f.targets) && t in f.targets
    ensures var g, p := SpilledFun(f), Place(SpillFronts(f.ops), t); 0 < p < |g.ops| && g.ops[p - 1].code == FULL_SPILL
  {
    hide FunOk, TargetTaken, Longer, Start, SpillList.RefsTo;
    var pre := SpillFronts(f.ops);
    IsTaken(f, infos, t);
    TakenHasSpill(f, t);
    LongerAt(pre, f.ops, t);
    LongerBefore(pre, f.ops, t, |pre[t]| - 1);
  }

  /** Putting the spills in keeps everything in order. */
  lemma SpilledOk(f: Fun, infos: map<int, seq<ArgInfo>>)
    requires FunOk(f, infos)
    ensures Inside(f.ops, f.targets) && FunOk(SpilledFun(f), infos) && SpillsStand(SpilledFun(f).ops, SpilledFun(f).targets)
  {
    hide ListShape, PointsWell, RunSet, TargetTaken, OpShape, FrontsOk, Longer;
    FunInside(f, infos);
    SpillsFront(f.ops, infos);
    LongedOk(SpillFronts(f.ops), f, infos);
    var g := SpilledFun(f);
    forall u | u in g.targets
      ensures 0 < u < |g.ops| && g.ops[u - 1].code == FULL_SPILL
    {
      var t :| t in f.targets && Places(SpillFronts(f.ops))[t] == u;
      SpillBefore(f, infos, t);
    }
  }

  /** The function does what it did before the spills were put in. */
  lemma SpilledRuns<W(!new), M(!new)>(env: Env<W, M>, f: Fun, infos: map<int, seq<ArgInfo>>, c: Cfg<W, M>, n: nat) returns (k: nat)
    requires FunOk(f, infos) && SpillList.SpillsSilent(env) && c.pc == f.q && Inside(f.ops, f.targets)
    ensures var g := SpilledFun(f);
      Upheld(Run(BeforeLonged(env, SpillFronts(f.ops), f), f.ops, f.targets, c, n), n, Run(env, g.ops, g.targets, Started(g, c), k), k)
  {
    hide ListShape, PointsWell, RunSet, TargetTaken, OpShape, Run, SpillList.SpillsSilent, AddressesMove, Longer;
    SpillsFront(f.ops, infos);
    LongedAddresses(env, SpillFronts(f.ops), f);
    k := SpillList.SpillsPreserveRuns(BeforeLonged(env, SpillFronts(f.ops), f), env, SpillFronts(f.ops), f.ops, f.targets,
                                      AllPlaces(|f.ops|), c, Started(SpilledFun(f), c), n);
  }

  // ---- Dead code -----------------------------------------------------------------------------------------

  /** What `jit_dead_code_analysis` keeps. */
  ghost function Survivors(ops: seq<Op>): (keep: set<nat>)
    ensures Removal.Survive(ops, keep)
  {
    set i: nat | i < |ops| && Survives(ops, i)
  }

  ghost predicate Survives(ops: seq<Op>, i: nat)
    requires i < |ops|
  {
    DeadCode.Reachable(ops, i) || DeadCode.IsDirective(ops[i].code) || ops[i].code == FULL_SPILL
  }

  /** The function after dead code has gone. */
  ghost function KeptFun(f: Fun): Fun
    requires forall t :: t in f.targets ==> t < |f.ops|
  {
    var keep := Survivors(f.ops);
    Fun(Shorter(f.ops, keep), MovedTargets(Removal.Places(keep, |f.ops|), f.targets), Removal.Count(keep, f.q))
  }

  /** A run comes only to what marking reaches. */
  lemma ReachIsReachable(f: Fun, infos: map<int, seq<ArgInfo>>)
    requires FunOk(f, infos)
    ensures forall i :: i in Reach(f) ==> i < |f.ops| && DeadCode.Reachable(f.ops, i)
  {
    hide ListShape, PointsWell, OpShape, DeadCode.Reachable;
    var marked := set i: nat | i < |f.ops| && DeadCode.Reachable(f.ops, i);
    forall i: nat, t: nat | i in marked && i < |f.ops| && Goes(f.ops, f.targets, i, t)
      ensures t in marked
    {
      ShapeAt(f.ops, infos, i);
      ShapeHasNoFret(f.ops[i], DeclaredAt(f.ops, infos, i));
      if t in f.targets && !DeadCode.Follows(f.ops, i, t) {
        TakenIsReachable(f, t);
      } else {
        Removal.ReachedOn(f.ops, i, t);
      }
    }
    RootReached(f.ops, f.q);
    RunSetIsLeast(f.ops, f.targets, f.q, marked);
  }

  lemma TakenIsReachable(f: Fun, t: nat)
    requires f.q < |f.ops| && TargetTaken(f, t) && t < |f.ops|
    ensures DeadCode.Reachable(f.ops, t)
  {
    hide DeadCode.Reachable;
    var k :| TakenBy(f, k, t);
    if DeadCode.Reachable(f.ops, k) {
      Removal.ReachedOn(f.ops, k, t);
    } else {
      RootReached(f.ops, t);
    }
  }

  /** What the analysis and the allocator ask of a list and a function in it. */
  ghost predicate Ready(g: Fun, infos: map<int, seq<ArgInfo>>) {
    && ListShape(g.ops, infos) && Flow.ListOk(g.ops, infos) && Flow.StartsAt(g.ops, g.q)
    && OwnRun(g.ops, g.targets, Reach(g), g.q) && TakesTargets(g.ops, infos, g.targets, g.q) && SpillsStand(g.ops, g.targets)
  }

  lemma FunIsReady(f: Fun, infos: map<int, seq<ArgInfo>>)
    requires FunOk(f, infos) && SpillsStand(f.ops, f.targets)
    ensures Ready(f, infos)
  {
    hide ListShape, PointsWell, OpShape, RunSet, DeadCode.Reachable, Flow.ListOk, TargetTaken, Flow.FnOk;
    ShapedList(f.ops, infos);
    RunSetEncloses(f.ops, f.targets, f.q);
    assert Flow.FnOk(Flow.FnFrom(f.ops, infos, f.q)) by { ShapedFunction(f.ops, infos, f.q); }
    forall t | t in f.targets
      ensures Flow.RefTarget(Flow.FnFrom(f.ops, infos, f.q), t)
    {
      assert TargetTaken(f, t);
      RefOfTaken(f, infos, t);
    }
  }

  lemma RefOfTaken(f: Fun, infos: map<int, seq<ArgInfo>>, t: nat)
    requires f.q < |f.ops| && TargetTaken(f, t) && Flow.FnOk(Flow.FnFrom(f.ops, infos, f.q))
    ensures Flow.RefTarget(Flow.FnFrom(f.ops, infos, f.q), t)
  {
    var k :| TakenBy(f, k, t);
  }

  /** Among what is kept, the run stays in its function. */
  lemma KeptReach(f: Fun, infos: map<int, seq<ArgInfo>>, p: nat) returns (i: nat)
    requires FunOk(f, infos) && Inside(f.ops, f.targets) && KeepOk(f.ops, Survivors(f.ops)) && p in Reach(KeptFun(f))
    ensures i in Reach(f) && i in Survivors(f.ops) && i < |f.ops| && Removal.Count(Survivors(f.ops), i) == p
  {
    hide ListShape, PointsWell, OpShape, RunSet, DeadCode.Reachable, TargetTaken, Encloses, Removal.KeptOps, Removal.StaysAmong;
    var keep, g := Survivors(f.ops), KeptFun(f);
    RunSetEncloses(f.ops, f.targets, f.q);
    ReachIsReachable(f, infos);
    Removal.MarkedStays(f.ops, f.targets, Reach(f), keep);
    Removal.ShiftedEncloses(f.ops, f.targets, Reach(f), keep);
    var place := Removal.Places(keep, |f.ops|);
    assert place[f.q] in Removal.Shifted(place, Reach(f));
    RunSetIsLeast(g.ops, g.targets, g.q, Removal.Shifted(place, Reach(f)));
    i :| i in Reach(f) && i < |place| && place[i] == p;
    assert DeadCode.Reachable(f.ops, i);
  }

  lemma KeptOwnRun(f: Fun, infos: map<int, seq<ArgInfo>>)
    requires FunOk(f, infos) && Inside(f.ops, f.targets) && KeepOk(f.ops, Survivors(f.ops))
    ensures var g := KeptFun(f); Flow.StartsAt(g.ops, g.q) && OwnRun(g.ops, g.targets, Reach(g), g.q)
  {
    hide FunOk, Reach, Shorter, Survivors, Removal.Count, KeepOk, Encloses, Flow.End, MovedTargets, Removal.Places, ListShape, PointsWell, JumpsInside;
    var keep, g := Survivors(f.ops), KeptFun(f);
    FunStarts(f, infos);
    PrologKept(f, infos);
    ShorterAt(f.ops, keep, f.q);
    ReachEncloses(g);
    forall p: nat | p in Reach(g)
      ensures g.q <= p < |g.ops| && p < Flow.End(g.ops, g.q + 1)
    {
      KeptExtent(f, infos, p);
    }
  }

  lemma KeptFunIs(f: Fun)
    requires Inside(f.ops, f.targets)
    ensures KeptFun(f).ops == Shorter(f.ops, Survivors(f.ops)) && KeptFun(f).q == Removal.Count(Survivors(f.ops), f.q)
  {
    hide Shorter, Survivors, Removal.Count;
  }

  lemma KeptExtent(f: Fun, infos: map<int, seq<ArgInfo>>, p: nat)
    requires FunOk(f, infos) && Inside(f.ops, f.targets) && KeepOk(f.ops, Survivors(f.ops)) && p in Reach(KeptFun(f))
    ensures var g := KeptFun(f); g.q <= p < |g.ops| && p < Flow.End(g.ops, g.q + 1)
  {
    hide *;
    KeptFunIs(f);
    var i := KeptReach(f, infos, p);
    FunStarts(f, infos);
    InFunction(f, infos, i);
    ShorterExtent(f.ops, Survivors(f.ops), f.q, i);
  }

  lemma SurvivorKept(ops: seq<Op>, i: nat)
    requires i < |ops| && Survives(ops, i)
    ensures i in Survivors(ops)
  {
  }

  lemma TargetKept(f: Fun, infos: map<int, seq<ArgInfo>>, t: nat)
    requires FunOk(f, infos) && t in f.targets
    ensures t < |f.ops| && t in Survivors(f.ops)
  {
    hide FunOk, DeadCode.Reachable, TargetTaken, Survivors;
    TakenLands(f, infos, t);
    IsTaken(f, infos, t);
    TakenIsReachable(f, t);
    SurvivorKept(f.ops, t);
  }

  /** A reference that is kept still leads to its target. */
  lemma KeptRef(f: Fun, infos: map<int, seq<ArgInfo>>, t: nat, k: nat)
    requires FunOk(f, infos) && KeepOk(f.ops, Survivors(f.ops)) && t in f.targets && Inside(f.ops, f.targets) && TakenBy(f, k, t)
    ensures var g, u := KeptFun(f), Removal.Count(Survivors(f.ops), k);
      && g.q < u < |g.ops| && u < Flow.End(g.ops, g.q + 1)
      && IsRef(g.ops[u]) && g.ops[u].jmp == Some(Removal.Count(Survivors(f.ops), t))
  {
    hide FunOk, Shorter, DeadCode.Reachable, Survivors, Removal.Count, KeepOk, Flow.End, ListShape, PointsWell, JumpsInside;
    var keep, g := Survivors(f.ops), KeptFun(f);
    SurvivorKept(f.ops, k);
    PrologKept(f, infos);
    FunStarts(f, infos);
    ShorterAt(f.ops, keep, k);
    ShorterExtent(f.ops, keep, f.q, k);
    KeptDiffer(keep, f.q, k);
  }

  lemma PrologKept(f: Fun, infos: map<int, seq<ArgInfo>>)
    requires FunOk(f, infos) && KeepOk(f.ops, Survivors(f.ops))
    ensures f.q < |f.ops| && f.q in Survivors(f.ops)
  {
    hide ListShape, PointsWell, Reach, DeadCode.Reachable, TargetTaken, Survivors;
  }

  lemma KeptTaken(f: Fun, infos: map<int, seq<ArgInfo>>, t: nat)
    requires FunOk(f, infos) && Inside(f.ops, f.targets) && KeepOk(f.ops, Survivors(f.ops)) && t in f.targets
    requires ListShape(KeptFun(f).ops, infos) && Flow.StartsAt(KeptFun(f).ops, KeptFun(f).q)
    ensures var g := KeptFun(f); var h := Flow.FnFrom(g.ops, infos, g.q);
      Flow.FnOk(h) && Flow.RefTarget(h, Removal.Count(Survivors(f.ops), t))
  {
    hide FunOk, ListShape, Flow.FnOk, KeptFun, TakenBy, Survivors, Removal.Count, KeepOk, Flow.End;
    var g := KeptFun(f);
    ShapedFunction(g.ops, infos, g.q);
    IsTaken(f, infos, t);
    var k :| TakenBy(f, k, t);
    KeptRef(f, infos, t, k);
    var u := Removal.Count(Survivors(f.ops), k);
    assert g.q < u < Flow.End(g.ops, g.q + 1) && IsRef(g.ops[u]) && g.ops[u].jmp == Some(Removal.Count(Survivors(f.ops), t));
  }

  lemma KeptSpill(f: Fun, infos: map<int, seq<ArgInfo>>, t: nat)
    requires FunOk(f, infos) && Inside(f.ops, f.targets) && t in f.targets && SpillsStand(f.ops, f.targets)
    ensures var g, u := KeptFun(f), Removal.Count(Survivors(f.ops), t); 0 < u < |g.ops| && g.ops[u - 1].code == FULL_SPILL
  {
    hide ListShape, PointsWell, OpShape, RunSet, Shorter, DeadCode.Reachable, TargetTaken, Survivors, Removal.Count, FunOk;
    var keep := Survivors(f.ops);
    TargetKept(f, infos, t);
    SurvivorKept(f.ops, t - 1);
    ShorterAt(f.ops, keep, t);
    ShorterAt(f.ops, keep, t - 1);
  }

  /** Removing dead code keeps everything in order. */
  lemma KeptIsReady(f: Fun, infos: map<int, seq<ArgInfo>>)
    requires FunOk(f, infos) && SpillsStand(f.ops, f.targets)
    ensures Inside(f.ops, f.targets) && Ready(KeptFun(f), infos)
  {
    hide ListShape, PointsWell, OpShape, RunSet, Shorter, DeadCode.Reachable, TargetTaken, Survivors, KeepOk, OwnRun, Flow.ListOk, Flow.FnOk, Flow.RefTarget;
    var keep, g := Survivors(f.ops), KeptFun(f);
    FunInside(f, infos);
    SurvivorsOk(f.ops, infos, keep);
    ShorterShape(f.ops, infos, keep);
    ShapedList(g.ops, infos);
    KeptOwnRun(f, infos);
    forall u | u in g.targets
      ensures Flow.FnOk(Flow.FnFrom(g.ops, infos, g.q)) && Flow.RefTarget(Flow.FnFrom(g.ops, infos, g.q), u)
      ensures 0 < u < |g.ops| && g.ops[u - 1].code == FULL_SPILL
    {
      KeptTarget(f, infos, u);
    }
  }

  lemma KeptTarget(f: Fun, infos: map<int, seq<ArgInfo>>, u: nat)
    requires FunOk(f, infos) && Inside(f.ops, f.targets) && KeepOk(f.ops, Survivors(f.ops)) && SpillsStand(f.ops, f.targets)
    requires ListShape(KeptFun(f).ops, infos) && Flow.StartsAt(KeptFun(f).ops, KeptFun(f).q) && u in KeptFun(f).targets
    ensures var g := KeptFun(f); Flow.FnOk(Flow.FnFrom(g.ops, infos, g.q)) && Flow.RefTarget(Flow.FnFrom(g.ops, infos, g.q), u)
    ensures var g := KeptFun(f); 0 < u < |g.ops| && g.ops[u - 1].code == FULL_SPILL
  {
    hide ListShape, FunOk, Shorter, Survivors, KeepOk, Flow.FnOk, Flow.RefTarget, SpillsStand, Removal.Count;
    var t :| t in f.targets && Removal.Places(Survivors(f.ops), |f.ops|)[t] == u;
    KeptTaken(f, infos, t);
    KeptSpill(f, infos, t);
  }

  /** The machine as the list before the removal sees it. */
  ghost function BeforeKept<W, M>(env: Env<W, M>, f: Fun): Env<W, M> {
    MovedBack(env, Removal.Places(Survivors(f.ops), |f.ops|), f.targets)
  }

  lemma KeptDiffer(keep: set<nat>, t: nat, u: nat)
    requires t < u && t in keep
    ensures Removal.Count(keep, t) < Removal.Count(keep, u)
  {
    Removal.CountMonotone(keep, t + 1, u);
  }

  lemma KeptApart(keep: set<nat>, t: nat, u: nat)
    requires t in keep && u in keep && t != u
    ensures Removal.Count(keep, t) != Removal.Count(keep, u)
  {
    KeptDiffer(keep, if t < u then t else u, if t < u then u else t);
  }

  lemma KeptAddresses<W(!new), M(!new)>(env: Env<W, M>, f: Fun, infos: map<int, seq<ArgInfo>>)
    requires FunOk(f, infos) && Inside(f.ops, f.targets)
    ensures AddressesMove(BeforeKept(env, f), env, Removal.Places(Survivors(f.ops), |f.ops|), f.targets, Survivors(f.ops))
  {
    hide ListShape, PointsWell, OpShape, RunSet, Shorter, DeadCode.Reachable, TargetTaken, Survivors, Removal.Count;
    var keep := Survivors(f.ops);
    forall t, u | t in f.targets && u in f.targets && Removal.Count(keep, t) == Removal.Count(keep, u)
      ensures t == u
    {
      TargetKept(f, infos, t);
      TargetKept(f, infos, u);
      if t != u {
        KeptApart(keep, t, u);
      }
    }
    MovesBack(env, Removal.Places(keep, |f.ops|), f.targets, keep);
  }

  /** The function does what it did before dead code went, step by step. */
  lemma KeptRuns<W(!new), M(!new)>(env: Env<W, M>, f: Fun, infos: map<int, seq<ArgInfo>>, c: Cfg<W, M>, n: nat)
    requires FunOk(f, infos) && Inside(f.ops, f.targets) && c.pc == f.q
    ensures var g := KeptFun(f);
      Upheld(Run(BeforeKept(env, f), f.ops, f.targets, c, n), n, Run(env, g.ops, g.targets, Started(g, c), n), n)
  {
    hide ListShape, PointsWell, OpShape, RunSet, Removal.KeptOps, DeadCode.Reachable, TargetTaken, Run, AddressesMove, Removal.StaysAmong;
    var keep := Survivors(f.ops);
    KeptAddresses(env, f, infos);
    ReachIsReachable(f, infos);
    RunSetEncloses(f.ops, f.targets, f.q);
    Removal.MarkedStays(f.ops, f.targets, Reach(f), keep);
    Removal.RemovalPreservesRuns(BeforeKept(env, f), env, f.ops, f.targets, Reach(f), keep, c, n);
  }
}
