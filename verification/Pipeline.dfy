/** From the flow analysis to the code that comes out of the register allocator: it
    does what the function that went in does, whichever passes run between. */
module Pipeline {
  import opened Ops
  import opened RegMap
  import opened RegAlloc
  import opened Machine
  import opened Allocation
  import opened AllocSim
  import opened AllocTheorem
  import opened Shapes
  import opened Liveness
  import opened Passes
  import Flow
  import Merging
  import Rewrites
  import Statistics
  import StoreFold

  // ---- The list the allocator is given ---------------------------------------------------

  /** The allocator is given these operations, these sets, and the hints collected. */
  ghost predicate Given<W, M>(x: Setup<W, M>, ops: seq<Op>, s: Flow.Sets) {
    && x.pr.Ops() == ops && |s.into| == |s.out| == |ops|
    && forall i :: 0 <= i < |ops| ==>
      && x.pr.sites[i].liveIn == s.into[i] && x.pr.sites[i].liveOut == s.out[i] && Statistics.SiteTells(ops, i, x.pr.sites[i])
  }

  /** A list of this shape, with hints collected and spills put in, is what the
      allocator works on. */
  lemma ShapedProgram<W, M>(x: Setup<W, M>, ops: seq<Op>, s: Flow.Sets)
    requires PoolOk(x.p) && ListShape(ops, x.pr.infos) && Given(x, ops, s)
    requires SpillsStand(ops, x.pr.targets) && forall t :: t in x.pr.targets ==> t < |ops| && IsLanding(ops[t].code)
    ensures ProgramOk(x.p, x.pr)
  {
    hide OpShape, HintsExact, Statistics.SiteTells, PoolOk;
    forall i | 0 <= i < |x.pr.sites|
      ensures SiteOk(x.p, x.pr.sites[i]) && Shaped(x.pr.Op(i), x.pr.InfoAt(i)) && AdjacentAt(ops, i) && LandsAt(ops, i)
      ensures x.pr.Op(i) == ops[i]
    {
      ShapeAt(ops, x.pr.infos, i);
      Statistics.NextUsesAreExact(ops, i, x.pr.sites[i]);
      ShapeParts(ops[i], x.pr.InfoAt(i));
    }
  }

  lemma ShapeParts(op: Op, info: seq<ArgInfo>)
    requires OpShape(op, info)
    ensures Shaped(op, info) && OperandsOk(op)
  {
  }

  // ---- Liveness ------------------------------------------------------------------------------

  /** The setup of the allocation theorem, with this liveness. */
  function WithNeeds<W, M>(x: Setup<W, M>, needs: Rewrites.Needs, q: nat): Setup<W, M>
    requires q < |needs.into|
  {
    x.(needIn := needs.into[q := {}], needOut := needs.out)
  }

  /** Everything in reach of a run. */
  lemma RunShape(ops: seq<Op>, targets: set<nat>, reach: set<nat>, q: nat, i: nat)
    requires OwnRun(ops, targets, reach, q) && i in reach
    ensures q <= i < |ops| && (ops[i].code == PROLOG <==> i == q)
  {
  }

  /** Edges of the allocator are steps of the machine. */
  lemma EdgeGoes<W, M>(x: Setup<W, M>, ops: seq<Op>, q: nat, i: nat, t: nat)
    requires x.pr.Ops() == ops && OwnRun(ops, x.pr.targets, x.reach, q) && i in x.reach && i < |ops| && Edge(x.pr, i, t)
    requires forall k: nat :: k < |ops| ==> LandsAt(ops, k)
    requires forall t :: t in x.pr.targets ==> t < |ops| && IsLanding(ops[t].code)
    ensures Rewrites.Goes(ops, x.pr.targets, i, t) && t in x.reach && t != q && ops[t].code != PROLOG
  {
    hide Flow.End;
    assert x.pr.Op(i) == ops[i] && LandsAt(ops, i);
    assert Rewrites.Goes(ops, x.pr.targets, i, t);
    RunShape(ops, x.pr.targets, x.reach, q, i);
    RunShape(ops, x.pr.targets, x.reach, q, t);
  }

  /** Sound liveness within the given sets is what the allocator relies on. */
  lemma SoundFeedsAllocator<W(!new), M(!new)>(x: Setup<W, M>, ops: seq<Op>, s: Flow.Sets, needs: Rewrites.Needs, q: nat)
    requires ListShape(ops, x.pr.infos) && Given(x, ops, s) && OwnRun(ops, x.pr.targets, x.reach, q)
    requires forall t :: t in x.pr.targets ==> t < |ops| && IsLanding(ops[t].code)
    requires Rewrites.Sound(ops, x.pr.targets, needs) && Within(needs, s, q) && needs.reach == x.reach
    requires SpillsInUse(x) && forall t: nat :: t in x.pr.targets && t in x.reach && 0 < t < |ops| ==> s.into[t] <= s.out[t - 1]
    ensures LivenessOk(WithNeeds(x, needs, q))
  {
    hide ListShape, SpillsInUse, Statistics.SiteTells, Edge, Rewrites.Goes, OpShape;
    var y := WithNeeds(x, needs, q);
    forall k: nat | k < |ops|
      ensures LandsAt(ops, k)
    {
      ShapeAt(ops, x.pr.infos, k);
    }
    forall i: nat | i in x.reach && i < |ops|
      ensures NeedAt(x.pr.sites[i], y.needIn[i], y.needOut[i])
    {
      NeedsAtOp(x, ops, s, needs, q, i);
    }
    forall i: nat, t: nat | i in x.reach && i < |ops| && Edge(x.pr, i, t)
      ensures t in x.reach && x.pr.Op(t).code != PROLOG && y.needIn[t] <= y.needOut[i]
    {
      EdgeGoes(x, ops, q, i, t);
      assert Rewrites.SoundEdge(ops, needs, i, t);
    }
    forall t: nat | t in x.pr.targets && t in x.reach && 0 < t < |ops|
      ensures y.needIn[t] <= x.pr.sites[t - 1].liveOut
    {
      assert IsLanding(ops[t].code);
      RunShape(ops, x.pr.targets, x.reach, q, t);
    }
    assert SpillsInUse(y) by { SpillsAside(x, y); }
  }

  lemma SpillsAside<W, M>(x: Setup<W, M>, y: Setup<W, M>)
    requires SpillsInUse(x) && y.pr == x.pr && y.reach == x.reach
    ensures SpillsInUse(y)
  {
  }

  lemma NeedsAtOp<W(!new), M(!new)>(x: Setup<W, M>, ops: seq<Op>, s: Flow.Sets, needs: Rewrites.Needs, q: nat, i: nat)
    requires Given(x, ops, s) && OwnRun(ops, x.pr.targets, x.reach, q)
    requires Rewrites.Sound(ops, x.pr.targets, needs) && Within(needs, s, q) && needs.reach == x.reach
    requires i in x.reach && i < |ops|
    ensures NeedAt(x.pr.sites[i], needs.into[q := {}][i], needs.out[i])
  {
    hide Statistics.SiteTells;
    assert Rewrites.SoundAt(ops[i], needs.into[i], needs.out[i]);
    RunShape(ops, x.pr.targets, x.reach, q, i);
    assert ops[i] == x.pr.sites[i].op;
    if ops[i].code == GETARG {
      assert ArgReg(ops[i].a1) in Rewrites.Reads(ops[i]);
    }
  }

  // ---- The whole way ---------------------------------------------------------------------------

  /** Both machines at the PROLOG of the function, the arguments where it expects them. */
  ghost predicate AtStart<W(!new), M(!new)>(x: Setup<W, M>, s: Flow.Sets, q: nat, c: Cfg<W, M>, hw: Hw<W, M>) {
    && q < |x.pr.sites| && q < |s.out| && c.pc == q && hw.block == q && hw.index == 0
    && (ProgramOk(x.p, x.pr) ==> EntryAt(x.p, MapBefore(x.p, x.pr, q), PROLOG, s.out[q], c, hw))
  }

  /** What `jit_assign_regs` leaves, and what is asked of the machine. */
  ghost predicate AllocatorRan<W(!new), M(!new)>(x: Setup<W, M>) {
    && PoolOk(x.p) && (ProgramOk(x.p, x.pr) ==> WalksCover(x.p, x.pr) && MachineOk(x) && x.prog == Allocate(x.p, x.pr))
  }

  lemma NeedsAside<W(!new), M(!new)>(x: Setup<W, M>, needs: Rewrites.Needs, q: nat)
    requires AllocatorRan(x) && ProgramOk(x.p, x.pr) && q < |needs.into|
    ensures var y := WithNeeds(x, needs, q);
      ProgramOk(y.p, y.pr) && WalksCover(y.p, y.pr) && MachineOk(y) && y.prog == Allocate(y.p, y.pr) && ProgOk(y.prog)
  {
    hide ProgramOk, WalksCover, Inverts, MapsAgree;
  }

  lemma StartIsEntry<W(!new), M(!new)>(x: Setup<W, M>, ops: seq<Op>, s: Flow.Sets, needs: Rewrites.Needs, q: nat, c: Cfg<W, M>, hw: Hw<W, M>)
    requires ProgramOk(x.p, x.pr) && Given(x, ops, s) && OwnRun(ops, x.pr.targets, x.reach, q)
    requires Within(needs, s, q) && needs.reach == x.reach && AtStart(x, s, q, c, hw)
    ensures Entry(WithNeeds(x, needs, q), q, c, hw)
  {
    hide SitesOk, JumpsOk, TargetsOk, NeighboursOk, Statistics.SiteTells, MapBefore;
    assert x.pr.Op(q) == ops[q];
    AllocSteps.LocatedLess(x.p, MapBefore(x.p, x.pr, q), s.out[q], needs.out[q], c, hw);
  }

  /** From the list the allocator is given on. */
  lemma AllocatedLike<W(!new), M(!new)>(x: Setup<W, M>, first: seq<Op>, ops: seq<Op>, s: Flow.Sets, needs: Rewrites.Needs, q: nat,
                                        c: Cfg<W, M>, hw: Hw<W, M>, n: nat) returns (m: nat)
    requires AllocatorRan(x) && SpillsInUse(x) && SpillsStand(ops, x.pr.targets) && ListShape(ops, x.pr.infos) && Given(x, ops, s) && OwnRun(ops, x.pr.targets, x.reach, q)
    requires forall t :: t in x.pr.targets ==> t < |ops| && IsLanding(ops[t].code)
    requires forall t: nat :: t in x.pr.targets && t in x.reach && 0 < t < |ops| ==> s.into[t] <= s.out[t - 1]
    requires Rewrites.Sound(ops, x.pr.targets, needs) && Within(needs, s, q) && needs.reach == x.reach && AtStart(x, s, q, c, hw)
    requires Rewrites.SameRuns(x.env, first, ops, x.pr.targets, c)
    ensures ProgOk(x.prog) && Upheld(Run(x.env, first, x.pr.targets, c, n), n, HwRunOf(x, hw, m), m)
  {
    hide ListShape, Given, OwnRun, Rewrites.Sound, AtStart, WalksCover, MachineOk, LivenessOk, Entry, HwRun, Run, Rewrites.SameOutcome, ProgramOk, SpillsInUse;
    QLess(x, s, q, c, hw);
    ShapedProgram(x, ops, s);
    NeedsAside(x, needs, q);
    SoundFeedsAllocator(x, ops, s, needs, q);
    StartIsEntry(x, ops, s, needs, q, c, hw);
    var y := WithNeeds(x, needs, q);
    m := AllocationPreservesMeaning(y, c, hw, n);
    SameResult(x, y, first, ops, s, c, hw, n, m);
    assert HwRunOf(x, hw, m) == HwRunOf(y, hw, m);
  }

  lemma QLess<W(!new), M(!new)>(x: Setup<W, M>, s: Flow.Sets, q: nat, c: Cfg<W, M>, hw: Hw<W, M>)
    requires AtStart(x, s, q, c, hw)
    ensures q < |s.out| && c.pc == q
  {
  }

  lemma SameResult<W(!new), M(!new)>(x: Setup<W, M>, y: Setup<W, M>, first: seq<Op>, ops: seq<Op>, s: Flow.Sets, c: Cfg<W, M>, hw: Hw<W, M>,
                                   n: nat, m: nat)
    requires Given(x, ops, s) && y.pr == x.pr && y.env == x.env && ProgramOk(y.p, y.pr) && LivenessOk(y) && ProgOk(y.prog)
    requires Matches(y, RunOf(y, c, n), HwRunOf(y, hw, m)) && (RunOf(y, c, n).Running? ==> m >= n)
    requires Rewrites.SameRuns(x.env, first, ops, x.pr.targets, c)
    ensures Upheld(Run(x.env, first, x.pr.targets, c, n), n, HwRunOf(y, hw, m), m)
  {
    hide ProgramOk, Entry, HwRunOf, Run, Statistics.SiteTells, NeedsOk, EdgesOk, SpillsInUse, SpillsCover;
    assert RunOf(y, c, n) == Run(x.env, ops, x.pr.targets, c, n);
    assert Rewrites.SameOutcome(Run(x.env, first, x.pr.targets, c, n), Run(x.env, ops, x.pr.targets, c, n));
  }

  // ---- With the passes in between ----------------------------------------------------------------

  /** The liveness the allocator is given: that of the list before the passes, or, if
      something was fused, that of the list after them. */
  ghost predicate SecondAnalysis<W, M>(x: Setup<W, M>, o: Options, ops: seq<Op>, s: Flow.Sets, fused: bool,
                                  beyond': map<int, seq<set<int>>>, s': Flow.Sets, q: nat)
    requires |ops| == |s.out|
  {
    var last := WithAddImm(o, ops, s.out);
    if fused
    then Given(x, last, s') && Analysed(last, x.pr.infos, beyond', s') && Flow.StartsAt(last, q) && TakesTargets(last, x.pr.infos, x.pr.targets, q)
    else Given(x, last, s) && last == WithStores(o, ops, s.out)
  }

  /** What the passes leave is still that function. */
  lemma LastOwnRun<W(!new), M(!new)>(env: Env<W, M>, ops: seq<Op>, last: seq<Op>, targets: set<nat>, needs: Rewrites.Needs,
                                     liveOut: seq<set<int>>, reach: set<nat>, q: nat, c: Cfg<W, M>)
    requires OwnRun(ops, targets, reach, q) && Rewritten(ops, last) && needs.reach == reach && c.pc == q
    requires Merging.Underway(env, ops, last, targets, needs, liveOut, c)
    ensures OwnRun(last, targets, reach, q) && Rewrites.Sound(last, targets, needs) && Rewrites.SameRuns(env, ops, last, targets, c)
  {
    hide Rewrites.SameRuns, Rewrites.SoundAt, Rewrites.SoundEdge, Merging.JumpsLand;
    SameEnd(ops, last, q + 1);
  }

  lemma LastLands(ops: seq<Op>, last: seq<Op>, targets: set<nat>)
    requires Rewritten(ops, last) && SpillsStand(ops, targets) && forall t :: t in targets ==> t < |ops| && IsLanding(ops[t].code)
    ensures SpillsStand(last, targets) && forall t :: t in targets ==> t < |last| && IsLanding(last[t].code)
  {
    forall t | t in targets
      ensures 0 < t < |last| && last[t - 1].code == FULL_SPILL && IsLanding(last[t].code)
    {
      assert Redone(ops[t], last[t]) && Redone(ops[t - 1], last[t - 1]);
    }
  }

  /** Every spill in front of a target sees what is live there. */
  lemma SpillsSee(ops: seq<Op>, infos: map<int, seq<ArgInfo>>, targets: set<nat>, beyond: map<int, seq<set<int>>>,
                  s: Flow.Sets, reach: set<nat>, q: nat)
    requires AnalysedRun(ops, infos, targets, beyond, s, reach, q) && SpillsStand(ops, targets)
    ensures |s.into| == |s.out| == |ops|
    ensures forall t: nat :: t in targets && t in reach && 0 < t < |ops| ==> s.into[t] <= s.out[t - 1]
  {
    forall t: nat | t in targets && t in reach && 0 < t < |ops|
      ensures |s.into| == |s.out| == |ops| && s.into[t] <= s.out[t - 1]
    {
      SpillSees(ops, infos, targets, beyond, s, reach, q, t);
    }
  }

  /** A function that was analysed does, as code, what it does, whichever of the passes
      run and whether or not something was fused. */
  lemma FunctionCompiled(x: Setup<int, StoreFold.Memory>, o: Options, p: nat, ops: seq<Op>, beyond: map<int, seq<set<int>>>, s: Flow.Sets,
                         fused: bool, beyond': map<int, seq<set<int>>>, s': Flow.Sets, q: nat,
                         c: Cfg<int, StoreFold.Memory>, hw: Hw<int, StoreFold.Memory>, n: nat) returns (m: nat)
    requires AnalysedRun(ops, x.pr.infos, x.pr.targets, beyond, s, x.reach, q) && SpillsStand(ops, x.pr.targets)
    requires |ops| == |s.out| && Relied(o, x.env, p, ops, s.out, x.reach) && SecondAnalysis(x, o, ops, s, fused, beyond', s', q)
    requires AllocatorRan(x) && SpillsInUse(x) && AtStart(x, if fused then s' else s, q, c, hw)
    ensures ProgOk(x.prog) && Upheld(Run(x.env, ops, x.pr.targets, c, n), n, HwRunOf(x, hw, m), m)
  {
    hide Relied, AllocatorRan, AtStart, Upheld, WithAddImm, WithStores, Merging.Underway, Within, Given, ListShape, Run, SpillsStand;
    hide OwnRun, Analysed, TakesTargets, Rewritten, Rewrites.Sound, Rewrites.SameRuns;
    QLess(x, if fused then s' else s, q, c, hw);
    var needs := PassesPreserveRuns(o, x.env, p, ops, x.pr.infos, x.pr.targets, beyond, s, x.reach, q, c);
    var last := WithAddImm(o, ops, s.out);
    PassesShape(o, ops, x.pr.infos, s.out);
    TargetsLand(ops, x.pr.infos, x.pr.targets, beyond, s, x.reach, q);
    LastLands(ops, last, x.pr.targets);
    LastOwnRun(x.env, ops, last, x.pr.targets, needs, s.out, x.reach, q, c);
    if fused {
      ExactIsSound(last, x.pr.infos, x.pr.targets, beyond', s', x.reach, q);
      NeedsWithin(s', q, x.reach);
      SpillsSee(last, x.pr.infos, x.pr.targets, beyond', s', x.reach, q);
      m := AllocatedLike(x, ops, last, s', NeedsOf(s', q, x.reach), q, c, hw, n);
    } else {
      SpillsSee(ops, x.pr.infos, x.pr.targets, beyond, s, x.reach, q);
      m := AllocatedLike(x, ops, last, s, needs, q, c, hw, n);
    }
  }
}
