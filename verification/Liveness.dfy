/** What exact liveness is good for: the rewriting passes and the allocator rely on
    it, for every function of a list. */
module Liveness {
  import opened Ops
  import opened Machine
  import opened Rewrites
  import opened Shapes
  import Flow
  import Fusion
  import Merging
  import UnusedAssign

  /** Execution of the function that begins at q stays in that function. */
  ghost predicate OwnRun(ops: seq<Op>, targets: set<nat>, reach: set<nat>, q: nat) {
    && Merging.AtEntry(ops, reach, q) && Encloses(ops, targets, reach)
    && forall i: nat :: i in reach ==> q <= i < |ops| && i < Flow.End(ops, q + 1)
  }

  /** What `jit_flw_analysis` leaves: exact liveness for every function. */
  ghost predicate Analysed(ops: seq<Op>, infos: map<int, seq<ArgInfo>>, beyond: map<int, seq<set<int>>>, s: Flow.Sets) {
    Flow.ListOk(ops, infos) && |s.into| == |s.out| == |ops| && Flow.AllExact(ops, infos, s, beyond, |ops|)
  }

  /** An indirect jump leads to operations whose address the function takes. */
  ghost predicate TakesTargets(ops: seq<Op>, infos: map<int, seq<ArgInfo>>, targets: set<nat>, q: nat)
    requires Flow.ListOk(ops, infos) && Flow.StartsAt(ops, q)
  {
    forall t :: t in targets ==> Flow.RefTarget(Flow.FnFrom(ops, infos, q), t)
  }

  /** A function of a list, analysed. */
  ghost predicate AnalysedRun(ops: seq<Op>, infos: map<int, seq<ArgInfo>>, targets: set<nat>, beyond: map<int, seq<set<int>>>,
                              s: Flow.Sets, reach: set<nat>, q: nat) {
    && ListShape(ops, infos) && OwnRun(ops, targets, reach, q) && Analysed(ops, infos, beyond, s)
    && Flow.StartsAt(ops, q) && TakesTargets(ops, infos, targets, q)
  }

  /** The liveness found, with everything the PROLOG passes on counted as needed
      before it: nothing leads there. */
  function NeedsOf(s: Flow.Sets, q: nat, reach: set<nat>): Needs
    requires q < |s.into| == |s.out|
  {
    Needs(s.into[q := s.into[q] + s.out[q]], s.out, reach)
  }

  /** The function as the analysis sees it. */
  lemma FunctionAt(ops: seq<Op>, infos: map<int, seq<ArgInfo>>, targets: set<nat>, beyond: map<int, seq<set<int>>>,
                   s: Flow.Sets, reach: set<nat>, q: nat, i: nat)
    requires AnalysedRun(ops, infos, targets, beyond, s, reach, q) && i in reach
    ensures |s.into| == |s.out| == |ops| && q in beyond && |beyond[q]| == |ops| && q < |ops| && ops[q].a1 in infos
    ensures var f := Flow.FnFrom(ops, infos, q);
      Flow.FnOk(f) && Flow.In(f, i) && Flow.Exact(f, beyond[q], s) && OpShape(ops[i], Flow.Info(f)) && LandsAt(ops, i)
    ensures ops[i].code == PROLOG <==> i == q
  {
    hide OpShape, LandsAt, AdjacentAt, Flow.FnOk, TakesTargets, Encloses, Flow.Exact;
    ShapeAt(ops, infos, i);
    ShapeAt(ops, infos, q);
    DeclaredInFunction(ops, infos, q, i);
  }

  /** The machine goes nowhere the analysis does not. */
  lemma GoesAreSuccessors(ops: seq<Op>, infos: map<int, seq<ArgInfo>>, targets: set<nat>, beyond: map<int, seq<set<int>>>,
                          s: Flow.Sets, reach: set<nat>, q: nat, i: nat, t: nat)
    requires AnalysedRun(ops, infos, targets, beyond, s, reach, q) && i in reach && i < |ops| && Goes(ops, targets, i, t)
    requires Flow.FnOk(Flow.FnFrom(ops, infos, q)) && Flow.In(Flow.FnFrom(ops, infos, q), i)
    ensures t in reach && t != q && Flow.Succ(Flow.FnFrom(ops, infos, q), i, t)
    ensures TakesArgs(ops[t].code) ==> t == i + 1 && ops[i].code in {PREPARE, PUTARG}
  {
    hide OpShape, AdjacentAt, Flow.FnOk, ListShape, LandsAt, Flow.RefTarget, Flow.End;
    FunctionAt(ops, infos, targets, beyond, s, reach, q, i);
    var f := Flow.FnFrom(ops, infos, q);
    ShapeHasNoFret(ops[i], Flow.Info(f));
    if t in targets {
      RefsLand(ops, infos, f, t);
    }
    hide Flow.Exact, Analysed, TakesTargets;
    WhereItGoes(ops, targets, f, i, t);
    FunctionAt(ops, infos, targets, beyond, s, reach, q, t);
    if TakesArgs(ops[t].code) {
      ArgsFollow(ops, infos, targets, i, t);
    }
  }

  lemma WhereItGoes(ops: seq<Op>, targets: set<nat>, f: Flow.Fn, i: nat, t: nat)
    requires Flow.FnOk(f) && f.ops == ops && Flow.In(f, i) && Goes(ops, targets, i, t) && LandsAt(ops, i)
    requires ops[i].code != FRET && (ops[i].code == JMP ==> ops[i].mode != Bare)
    requires t in targets ==> Flow.RefTarget(f, t) && IsLanding(ops[t].code)
    ensures Flow.Succ(f, i, t) && t != f.lo
  {
    hide Flow.RefTarget;
  }

  lemma ShapeHasNoFret(op: Op, info: seq<ArgInfo>)
    requires OpShape(op, info)
    ensures op.code != FRET && (op.code == JMP ==> op.mode != Bare)
  {
  }

  lemma RefsLand(ops: seq<Op>, infos: map<int, seq<ArgInfo>>, f: Flow.Fn, t: nat)
    requires ListShape(ops, infos) && f.ops == ops && Flow.FnOk(f) && Flow.RefTarget(f, t)
    ensures t < |ops| && IsLanding(ops[t].code)
  {
    hide OpShape, AdjacentAt;
    var k :| f.lo < k < f.hi && IsRef(ops[k]) && ops[k].jmp == Some(t);
    assert WellFormedAt(ops, infos, k);
  }

  lemma ReadsAreUsed(f: Flow.Fn, i: nat, v: int)
    requires Flow.FnOk(f) && Flow.In(f, i) && OpShape(f.ops[i], Flow.Info(f)) && v in Reads(f.ops[i])
    ensures v in Flow.Gen(f, i)
  {
  }

  lemma KillsAreDefs(f: Flow.Fn, i: nat)
    requires Flow.FnOk(f) && Flow.In(f, i) && f.ops[i].code != PROLOG
    ensures Flow.Kill(f, i) == f.ops[i].Defs()
  {
  }

  lemma ExactAtOp(ops: seq<Op>, infos: map<int, seq<ArgInfo>>, targets: set<nat>, beyond: map<int, seq<set<int>>>,
                  s: Flow.Sets, reach: set<nat>, q: nat, i: nat)
    requires AnalysedRun(ops, infos, targets, beyond, s, reach, q) && i in reach
    ensures i < |ops| && q < |s.into| == |s.out| == |ops| && var needs := NeedsOf(s, q, reach); SoundAt(ops[i], needs.into[i], needs.out[i])
  {
    FunctionAt(ops, infos, targets, beyond, s, reach, q, i);
    hide OwnRun, ListShape, Analysed, TakesTargets, Flow.Live, Flow.FlowsLive, Flow.Gen, Flow.Kill, Flow.FnOk;
    var f, op := Flow.FnFrom(ops, infos, q), ops[i];
    forall v | v in Reads(op)
      ensures v in s.into[i]
    {
      ReadsAreUsed(f, i, v);
      Flow.LiveHere(f, beyond[q], i, v);
    }
    forall v | v in s.out[i] && v !in op.Defs() && i != q
      ensures v in s.into[i]
    {
      assert Flow.FlowsLive(f, beyond[q], i, v);
      KillsAreDefs(f, i);
      FlowsBefore(f, beyond[q], i, v);
    }
    ShapedIsSound(op, Flow.Info(f), LandsAt(ops, i));
  }

  lemma FlowsBefore(f: Flow.Fn, beyond: seq<set<int>>, i: nat, v: int)
    requires Flow.FnOk(f) && |beyond| == |f.ops| && Flow.In(f, i) && Flow.FlowsLive(f, beyond, i, v) && v !in Flow.Kill(f, i)
    ensures Flow.Live(f, beyond, i, v)
  {
    var t: nat :| Flow.Succ(f, i, t) && Flow.Live(f, beyond, t, v);
    Flow.LiveBefore(f, beyond, i, t, v);
  }

  lemma ShapedIsSound(op: Op, info: seq<ArgInfo>, lands: bool)
    requires OpShape(op, info)
    ensures op.t1 != TREG && op.t2 != TREG && (op.code in {NOP, RET, JMP, PREPARE, PUTARG, CALL} ==> op.t0 != TREG)
  {
  }

  lemma ExactEdge(ops: seq<Op>, infos: map<int, seq<ArgInfo>>, targets: set<nat>, beyond: map<int, seq<set<int>>>,
                  s: Flow.Sets, reach: set<nat>, q: nat, i: nat, t: nat)
    requires AnalysedRun(ops, infos, targets, beyond, s, reach, q) && i in reach && i < |ops| && Goes(ops, targets, i, t)
    ensures q < |s.into| == |s.out| == |ops| && t in reach && SoundEdge(ops, NeedsOf(s, q, reach), i, t)
  {
    hide OpShape, ListShape, Flow.FnOk, Flow.Live, Flow.Exact, TakesTargets, Flow.Succ;
    FunctionAt(ops, infos, targets, beyond, s, reach, q, i);
    GoesAreSuccessors(ops, infos, targets, beyond, s, reach, q, i, t);
    FunctionAt(ops, infos, targets, beyond, s, reach, q, t);
    ExactFlows(Flow.FnFrom(ops, infos, q), beyond[q], s, i, t);
  }

  lemma ExactFlows(f: Flow.Fn, beyond: seq<set<int>>, s: Flow.Sets, i: nat, t: nat)
    requires Flow.FnOk(f) && Flow.SetsOk(f, s) && |beyond| == |f.ops| && Flow.Exact(f, beyond, s)
    requires Flow.In(f, i) && Flow.In(f, t) && Flow.Succ(f, i, t)
    ensures s.into[t] <= s.out[i]
  {
    forall v | v in s.into[t]
      ensures v in s.out[i]
    {
      assert Flow.Live(f, beyond, t, v);
    }
  }

  /** Control comes to an argument or a call from the operation right before it. */
  lemma ArgsFollow(ops: seq<Op>, infos: map<int, seq<ArgInfo>>, targets: set<nat>, i: nat, t: nat)
    requires ListShape(ops, infos) && i < |ops| && Goes(ops, targets, i, t) && TakesArgs(ops[t].code)
    requires t in targets ==> IsLanding(ops[t].code)
    ensures t == i + 1 && ops[i].code in {PREPARE, PUTARG}
  {
    hide OpShape;
    assert WellFormedAt(ops, infos, i) && WellFormedAt(ops, infos, t);
  }

  /** Exact liveness is sound for the rewriting passes. */
  lemma ExactIsSound(ops: seq<Op>, infos: map<int, seq<ArgInfo>>, targets: set<nat>, beyond: map<int, seq<set<int>>>,
                     s: Flow.Sets, reach: set<nat>, q: nat)
    requires AnalysedRun(ops, infos, targets, beyond, s, reach, q)
    ensures q < |s.into| == |s.out| == |ops| && Sound(ops, targets, NeedsOf(s, q, reach))
  {
    hide SoundAt, SoundEdge, ListShape, TakesTargets;
    forall i: nat | i in reach && i < |ops|
      ensures SoundAt(ops[i], NeedsOf(s, q, reach).into[i], NeedsOf(s, q, reach).out[i])
    {
      ExactAtOp(ops, infos, targets, beyond, s, reach, q, i);
    }
    forall i: nat, t: nat | i in reach && i < |ops| && Goes(ops, targets, i, t)
      ensures t in reach && SoundEdge(ops, NeedsOf(s, q, reach), i, t)
    {
      ExactEdge(ops, infos, targets, beyond, s, reach, q, i, t);
    }
  }

  /** A FULL_SPILL sees all that is live at the operation behind it. */
  lemma SpillSees(ops: seq<Op>, infos: map<int, seq<ArgInfo>>, targets: set<nat>, beyond: map<int, seq<set<int>>>,
                  s: Flow.Sets, reach: set<nat>, q: nat, t: nat)
    requires AnalysedRun(ops, infos, targets, beyond, s, reach, q) && t in reach && t in targets && 0 < t < |ops|
    requires ops[t - 1].code == FULL_SPILL
    ensures |s.into| == |s.out| == |ops| && s.into[t] <= s.out[t - 1]
  {
    hide OpShape, ListShape, Flow.Exact, Flow.End, Flow.RefTarget;
    FunctionAt(ops, infos, targets, beyond, s, reach, q, t);
    var f := Flow.FnFrom(ops, infos, q);
    RefsLand(ops, infos, f, t);
    assert Flow.In(f, t - 1);
    assert Flow.Succ(f, t - 1, t);
    ExactFlows(f, beyond[q], s, t - 1, t);
  }

  /** The operation goes to the next one and nowhere else. */
  predicate GoesToNext(op: Op) {
    op.jmp.None? && op.code != JMP && op.code != RET && op.code != FRET
  }

  /** A register that is live between two operations, and not behind the second unless
      that one assigns it, is read by the second. */
  lemma LiveIsRead(ops: seq<Op>, infos: map<int, seq<ArgInfo>>, targets: set<nat>, beyond: map<int, seq<set<int>>>,
                   s: Flow.Sets, reach: set<nat>, q: nat, i: nat, v: int)
    requires AnalysedRun(ops, infos, targets, beyond, s, reach, q) && i in reach && i + 1 < |ops|
    requires GoesToNext(ops[i]) && ops[i + 1].code != PROLOG && ops[i + 1].code != GETARG
    ensures |s.into| == |s.out| == |ops|
    ensures v in s.out[i] && (v in ops[i + 1].Defs() || v !in s.out[i + 1]) ==> v in ops[i + 1].Uses()
  {
    hide OpShape, ListShape, Flow.End, TakesTargets, Flow.Live, Flow.FnOk;
    FunctionAt(ops, infos, targets, beyond, s, reach, q, i);
    assert Goes(ops, targets, i, i + 1) && i + 1 in reach;
    FunctionAt(ops, infos, targets, beyond, s, reach, q, i + 1);
    var f := Flow.FnFrom(ops, infos, q);
    hide OwnRun, Analysed;
    if v in s.out[i] && (v in ops[i + 1].Defs() || v !in s.out[i + 1]) {
      var t: nat :| Flow.Succ(f, i, t) && Flow.Live(f, beyond[q], t, v);
      assert t == i + 1;
      KillsAreDefs(f, i + 1);
      LiveUnfolds(f, beyond[q], i + 1, v);
      assert v in s.out[i + 1] <==> !Flow.Returns(ops[i + 1]) && Flow.FlowsLive(f, beyond[q], i + 1, v);
    }
  }

  lemma LiveUnfolds(f: Flow.Fn, beyond: seq<set<int>>, i: nat, v: int)
    requires Flow.FnOk(f) && |beyond| == |f.ops| && Flow.In(f, i) && Flow.Live(f, beyond, i, v)
    ensures v in Flow.Gen(f, i) || (v !in Flow.Kill(f, i) && !Flow.Returns(f.ops[i]) && Flow.FlowsLive(f, beyond, i, v))
  {
    var path :| Flow.UsePath(f, beyond, path, v) && path[0] == i;
    if |path| > 1 {
      var rest := path[1..];
      assert Flow.Succ(f, path[0], path[1]) && v !in Flow.Kill(f, path[0]);
      assert Flow.UsePath(f, beyond, rest, v) by {
        assert forall k :: 0 <= k < |rest| ==> rest[k] == path[k + 1];
        assert rest[|rest| - 1] == path[|path| - 1];
      }
      assert Flow.Live(f, beyond, path[1], v);
    }
  }
}
