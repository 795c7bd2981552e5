/** Merging two adjacent operations into the second: what it takes for no run to
    notice.  Liveness of the rewritten list is given as well, so that merges can
    follow one another. */
module Merging {
  import opened Ops
  import opened Machine
  import opened Rewrites

  /** `a` only assigns its first operand, and `b` and `b2` compute. */
  predicate MergeShape(a: Op, b: Op, b2: Op) {
    && a.t0 == TREG && a.t1 != TREG && a.t2 != TREG && Computes(a.code) && !MayBranch(a.code)
    && b.t1 != TREG && b.t2 != TREG && Computes(b.code) && !MayBranch(b.code)
    && b2.t1 != TREG && b2.t2 != TREG && Computes(b2.code) && !MayBranch(b2.code)
    && (b.t0 == TREG <==> b2.t0 == TREG) && (b.t0 == TREG ==> b.a0 == b2.a0)
    && !TakesArgs(b.code) && !TakesArgs(b2.code)
    && a.code != PROLOG && b.code != PROLOG && b2.code != PROLOG
  }

  /** The registers after `a`. */
  function After<W, M>(env: Env<W, M>, a: Op, g: int -> W, m: M): int -> W {
    Set(g, a.a0, env.value(SigOf(a), VirtVals(env, a, g), m))
  }

  /** `b2` does from the registers before `a` what `b` does from those after it. */
  ghost predicate SameEffect<W(!new), M(!new)>(env: Env<W, M>, a: Op, b: Op, b2: Op) {
    forall g: int -> W, m: M ::
      var f := After(env, a, g, m);
      && env.effect(SigOf(b), VirtVals(env, b, f), m) == env.effect(SigOf(b2), VirtVals(env, b2, g), m)
      && (b.t0 == TREG ==> env.value(SigOf(b), VirtVals(env, b, f), m) == env.value(SigOf(b2), VirtVals(env, b2, g), m))
  }

  ghost predicate NoEffect<W(!new), M(!new)>(env: Env<W, M>, a: Op) {
    forall vals: seq<W>, m: M :: env.effect(SigOf(a), vals, m) == m
  }

  /** What merging `a` and `b` into `b2` takes where execution may come. */
  ghost predicate MergeRight<W(!new), M(!new)>(env: Env<W, M>, a: Op, b: Op, b2: Op, out: set<int>) {
    && NoEffect(env, a) && SameEffect(env, a, b, b2)
    && a.a0 !in out - b.Defs() && b2.Uses() <= a.Uses() + (b.Uses() - {a.a0})
  }

  /** The pair at i may be merged into `b2`. */
  ghost predicate MergeOk<W(!new), M(!new)>(env: Env<W, M>, ops: seq<Op>, targets: set<nat>, needs: Needs, i: nat, b2: Op)
    requires |needs.into| == |needs.out| == |ops| && i + 1 < |ops|
  {
    && MergeShape(ops[i], ops[i + 1], b2) && OnlyFrom(ops, targets, i, i + 1)
    && (i in needs.reach ==> MergeRight(env, ops[i], ops[i + 1], b2, needs.out[i + 1]))
  }

  /** Control comes to t from i alone. */
  ghost predicate OnlyFrom(ops: seq<Op>, targets: set<nat>, i: nat, t: nat) {
    forall j: nat :: j < |ops| && Goes(ops, targets, j, t) ==> j == i
  }

  function Merged(ops: seq<Op>, i: nat, b2: Op): (r: seq<Op>)
    requires i + 1 < |ops|
    ensures |r| == |ops| && r[i] == MadeNop(ops[i]) && r[i + 1] == b2
    ensures forall k :: 0 <= k < |ops| && k != i && k != i + 1 ==> r[k] == ops[k]
  {
    ops[i := MadeNop(ops[i])][i + 1 := b2]
  }

  /** Liveness of the rewritten list: it differs between the two operations only. */
  function MergedNeeds(needs: Needs, b: Op, i: nat, b2: Op): Needs
    requires i + 1 < |needs.into| == |needs.out|
  {
    var between := needs.out[i + 1] - b.Defs() + b2.Uses();
    needs.(into := needs.into[i + 1 := between], out := needs.out[i := between])
  }

  /** What is needed between two operations, the first of which assigns r. */
  lemma BetweenSets(uses: set<int>, uses1: set<int>, uses2: set<int>, r: int, defs: set<int>,
                    into: set<int>, out: set<int>, into1: set<int>, out1: set<int>)
    requires uses <= into && out - {r} <= into && into1 <= out && uses1 <= into1 && out1 - defs <= into1
    requires r !in out1 - defs && uses2 <= uses + (uses1 - {r})
    ensures out1 - defs + uses2 <= into
  {
  }

  /** The two operations of a merge, where execution may come. */
  lemma PairFacts<W(!new), M(!new)>(env: Env<W, M>, ops: seq<Op>, targets: set<nat>, needs: Needs, i: nat, b2: Op)
    requires Sound(ops, targets, needs) && i + 1 < |ops| && MergeOk(env, ops, targets, needs, i, b2) && i in needs.reach
    ensures |needs.into| == |needs.out| == |ops|
    ensures i + 1 in needs.reach && Goes(ops, targets, i, i + 1) && needs.into[i + 1] <= needs.out[i]
    ensures SoundAt(ops[i], needs.into[i], needs.out[i]) && SoundAt(ops[i + 1], needs.into[i + 1], needs.out[i + 1])
    ensures MergeRight(env, ops[i], ops[i + 1], b2, needs.out[i + 1])
  {
    hide MergeRight, SoundAt, OnlyFrom;
    assert Goes(ops, targets, i, i + 1);
    assert SoundEdge(ops, needs, i, i + 1);
  }

  lemma DefsOfPair(a: Op, b: Op, b2: Op)
    requires MergeShape(a, b, b2)
    ensures a.Defs() == {a.a0} && b.Defs() == b2.Defs() == if b.t0 == TREG then {b.a0} else {}
  {
    DefsOf(a);
    DefsOf(b);
    DefsOf(b2);
  }

  /** What is needed between the two operations is needed before the first. */
  lemma BetweenIsNeeded<W(!new), M(!new)>(env: Env<W, M>, ops: seq<Op>, targets: set<nat>, needs: Needs, i: nat, b2: Op)
    requires Sound(ops, targets, needs) && i + 1 < |ops| && MergeOk(env, ops, targets, needs, i, b2) && i in needs.reach
    ensures needs.out[i + 1] - ops[i + 1].Defs() + b2.Uses() <= needs.into[i]
    ensures b2.Defs() == ops[i + 1].Defs()
  {
    hide SameEffect, NoEffect, OnlyFrom, Sound, MergeShape, Op.Uses, Op.Defs, Goes;
    var a, b := ops[i], ops[i + 1];
    PairFacts(env, ops, targets, needs, i, b2);
    DefsOfPair(a, b, b2);
    BetweenSets(a.Uses(), b.Uses(), b2.Uses(), a.a0, b.Defs(), needs.into[i], needs.out[i], needs.into[i + 1], needs.out[i + 1]);
  }

  lemma MergedSoundAt<W(!new), M(!new)>(env: Env<W, M>, ops: seq<Op>, targets: set<nat>, needs: Needs, i: nat, b2: Op, k: nat)
    requires Sound(ops, targets, needs) && i + 1 < |ops| && MergeOk(env, ops, targets, needs, i, b2)
    requires k < |ops| && k in needs.reach
    ensures var needs' := MergedNeeds(needs, ops[i + 1], i, b2);
      SoundAt(Merged(ops, i, b2)[k], needs'.into[k], needs'.out[k])
  {
    hide SameEffect, NoEffect, OnlyFrom;
    assert SoundAt(ops[k], needs.into[k], needs.out[k]);
    DefsOfPair(ops[i], ops[i + 1], b2);
    if k == i {
      BetweenIsNeeded(env, ops, targets, needs, i, b2);
      assert MadeNop(ops[i]).Uses() == {} && MadeNop(ops[i]).Defs() == {};
    }
  }

  lemma MergedSoundEdge<W(!new), M(!new)>(env: Env<W, M>, ops: seq<Op>, targets: set<nat>, needs: Needs, i: nat, b2: Op, k: nat, t: nat)
    requires Sound(ops, targets, needs) && i + 1 < |ops| && MergeOk(env, ops, targets, needs, i, b2)
    requires k < |ops| && k in needs.reach && Goes(Merged(ops, i, b2), targets, k, t)
    ensures t in needs.reach && SoundEdge(Merged(ops, i, b2), MergedNeeds(needs, ops[i + 1], i, b2), k, t)
  {
    hide SameEffect, NoEffect, SoundAt;
    assert Goes(ops, targets, k, t);
    assert SoundEdge(ops, needs, k, t);
    assert t == i + 1 ==> k == i;
  }

  lemma MergedIsSound<W(!new), M(!new)>(env: Env<W, M>, ops: seq<Op>, targets: set<nat>, needs: Needs, i: nat, b2: Op)
    requires Sound(ops, targets, needs) && i + 1 < |ops| && MergeOk(env, ops, targets, needs, i, b2)
    ensures Sound(Merged(ops, i, b2), targets, MergedNeeds(needs, ops[i + 1], i, b2))
  {
    hide MergeOk, SoundAt, SoundEdge;
    var ops', needs' := Merged(ops, i, b2), MergedNeeds(needs, ops[i + 1], i, b2);
    forall k: nat | k in needs.reach && k < |ops|
      ensures SoundAt(ops'[k], needs'.into[k], needs'.out[k])
    {
      MergedSoundAt(env, ops, targets, needs, i, b2, k);
    }
    forall k: nat, t: nat | k in needs.reach && k < |ops| && Goes(ops', targets, k, t)
      ensures t in needs.reach && SoundEdge(ops', needs', k, t)
    {
      MergedSoundEdge(env, ops, targets, needs, i, b2, k, t);
    }
  }

  // ---- Runs ---------------------------------------------------------------------------

  /** Between the two operations: the original has done `a`, the rewritten list
      nothing yet. */
  ghost predicate Pending<W(!new), M(!new)>(env: Env<W, M>, ops: seq<Op>, needs: Needs, i: nat, c: Cfg<W, M>, d: Cfg<W, M>)
    requires |needs.into| == |ops| && i + 1 < |ops|
  {
    var a := ops[i];
    && i in needs.reach && c.pc == d.pc == i + 1 && c.mem == d.mem && c.args == d.args && c.ret == d.ret
    && SameOn(needs.into[i] - {a.a0}, c.regs, d.regs)
    && c.regs(a.a0) == After(env, a, d.regs, d.mem)(a.a0)
  }

  /** The states of the two runs after as many steps. */
  ghost predicate Related<W(!new), M(!new)>(env: Env<W, M>, ops: seq<Op>, needs: Needs, i: nat, c: Cfg<W, M>, d: Cfg<W, M>)
    requires |needs.into| == |ops| && i + 1 < |ops|
  {
    if c.pc == i + 1 then Pending(env, ops, needs, i, c, d) else Agree(ops, needs, c, d)
  }

  ghost predicate RelatedResults<W(!new), M(!new)>(env: Env<W, M>, ops: seq<Op>, needs: Needs, i: nat,
                                                   r: Result<Cfg<W, M>, W, M>, q: Result<Cfg<W, M>, W, M>)
    requires |needs.into| == |ops| && i + 1 < |ops|
  {
    match r
    case Running(c) => q.Running? && Related(env, ops, needs, i, c, q.c)
    case Done(v, m) => q == Done(v, m)
    case Stuck => q.Stuck?
  }

  lemma ComputeStep<W(!new), M(!new)>(env: Env<W, M>, ops: seq<Op>, targets: set<nat>, c: Cfg<W, M>)
    requires c.pc < |ops| && var op := ops[c.pc]; Computes(op.code) && !MayBranch(op.code)
    ensures var op := ops[c.pc]; var vals := VirtVals(env, op, c.regs);
      Step(env, ops, targets, c) ==
      Running(c.(pc := c.pc + 1, mem := env.effect(SigOf(op), vals, c.mem),
                 regs := if op.t0 == TREG then Set(c.regs, op.a0, env.value(SigOf(op), vals, c.mem)) else c.regs))
  {
  }

  lemma FirstStep<W(!new), M(!new)>(env: Env<W, M>, ops: seq<Op>, targets: set<nat>, needs: Needs, i: nat, b2: Op, c: Cfg<W, M>, d: Cfg<W, M>)
    requires Sound(ops, targets, needs) && i + 1 < |ops| && MergeOk(env, ops, targets, needs, i, b2)
    requires c.pc == i && Agree(ops, needs, c, d)
    ensures RelatedResults(env, ops, needs, i, Step(env, ops, targets, c), Step(env, Merged(ops, i, b2), targets, d))
  {
    hide Step, VirtVals, SigOf, SameEffect, OnlyFrom, Goes, Op.Uses, Op.Defs, TakesArgs;
    var a := ops[i];
    PairFacts(env, ops, targets, needs, i, b2);
    hide Sound;
    ComputeStep(env, ops, targets, c);
    NopStep(env, Merged(ops, i, b2), targets, d);
    SameVals(env, a, c.regs, d.regs);
  }

  /** The second operation reads the same values in both runs. */
  lemma PendingReads<W(!new), M(!new)>(env: Env<W, M>, ops: seq<Op>, targets: set<nat>, needs: Needs, i: nat, b2: Op, c: Cfg<W, M>, d: Cfg<W, M>)
    requires Sound(ops, targets, needs) && i + 1 < |ops| && MergeOk(env, ops, targets, needs, i, b2)
    requires Pending(env, ops, needs, i, c, d)
    ensures VirtVals(env, ops[i + 1], c.regs) == VirtVals(env, ops[i + 1], After(env, ops[i], d.regs, d.mem))
    ensures SameOn(needs.out[i + 1] - ops[i + 1].Defs(), c.regs, d.regs)
  {
    hide SameEffect, NoEffect, OnlyFrom, Sound, MergeShape, Op.Uses, Op.Defs, Goes, VirtVals, SigOf;
    var a, b := ops[i], ops[i + 1];
    PairFacts(env, ops, targets, needs, i, b2);
    DefsOfPair(a, b, b2);
    var f := After(env, a, d.regs, d.mem);
    PendingSets(needs.into[i], needs.out[i], a.a0, needs.into[i + 1], needs.out[i + 1], b.Uses(), b.Defs(), c.regs, d.regs, f);
    SameVals(env, b, c.regs, f);
  }

  lemma PendingSets<W(!new)>(into: set<int>, out: set<int>, r: int, into1: set<int>, out1: set<int>, uses1: set<int>, defs1: set<int>,
                             f: int -> W, g: int -> W, h: int -> W)
    requires out - {r} <= into && into1 <= out && uses1 <= into1 && out1 - defs1 <= into1 && r !in out1 - defs1
    requires SameOn(into - {r}, f, g) && f(r) == h(r) && forall v :: v != r ==> h(v) == g(v)
    ensures SameOn(uses1, f, h) && SameOn(out1 - defs1, f, g)
  {
  }

  /** The second operation leaves the same memory, and the same registers as far as
      they are needed. */
  lemma SecondEffect<W(!new), M(!new)>(env: Env<W, M>, ops: seq<Op>, targets: set<nat>, needs: Needs, i: nat, b2: Op, c: Cfg<W, M>, d: Cfg<W, M>)
    requires Sound(ops, targets, needs) && i + 1 < |ops| && MergeOk(env, ops, targets, needs, i, b2)
    requires Pending(env, ops, needs, i, c, d)
    ensures var b := ops[i + 1];
      var v, v2 := VirtVals(env, b, c.regs), VirtVals(env, b2, d.regs);
      && env.effect(SigOf(b), v, c.mem) == env.effect(SigOf(b2), v2, d.mem)
      && if b.t0 == TREG
         then SameOn(needs.out[i + 1], Set(c.regs, b.a0, env.value(SigOf(b), v, c.mem)), Set(d.regs, b.a0, env.value(SigOf(b2), v2, d.mem)))
         else SameOn(needs.out[i + 1], c.regs, d.regs)
  {
    var b := ops[i + 1];
    PendingReads(env, ops, targets, needs, i, b2, c, d);
    SameEffectAt(env, ops[i], b, b2, d.regs, d.mem);
    DefsOf(b);
    hide Sound, MergeRight, OnlyFrom, VirtVals, SigOf;
  }

  lemma SecondStep<W(!new), M(!new)>(env: Env<W, M>, ops: seq<Op>, targets: set<nat>, needs: Needs, i: nat, b2: Op, c: Cfg<W, M>, d: Cfg<W, M>)
    requires Sound(ops, targets, needs) && i + 1 < |ops| && MergeOk(env, ops, targets, needs, i, b2)
    requires Pending(env, ops, needs, i, c, d)
    ensures RelatedResults(env, ops, needs, i, Step(env, ops, targets, c), Step(env, Merged(ops, i, b2), targets, d))
  {
    hide Step, MergeRight, OnlyFrom, SameOn, VirtVals, SigOf, SoundAt, SoundEdge;
    assert Goes(ops, targets, i, i + 1) && i + 1 in needs.reach;
    SecondEffect(env, ops, targets, needs, i, b2, c, d);
    ComputeStep(env, ops, targets, c);
    ComputeStep(env, Merged(ops, i, b2), targets, d);
    StepShape(env, ops, targets, c);
    hide Sound;
    var e, g := Step(env, ops, targets, c).c, Step(env, Merged(ops, i, b2), targets, d).c;
    Arrive(env, ops, targets, needs, i + 1, c, d, e, g);
  }

  lemma SameEffectAt<W(!new), M(!new)>(env: Env<W, M>, a: Op, b: Op, b2: Op, g: int -> W, m: M)
    requires SameEffect(env, a, b, b2)
    ensures var f := After(env, a, g, m);
      && env.effect(SigOf(b), VirtVals(env, b, f), m) == env.effect(SigOf(b2), VirtVals(env, b2, g), m)
      && (b.t0 == TREG ==> env.value(SigOf(b), VirtVals(env, b, f), m) == env.value(SigOf(b2), VirtVals(env, b2, g), m))
  {
  }

  lemma RelatedStep<W(!new), M(!new)>(env: Env<W, M>, ops: seq<Op>, targets: set<nat>, needs: Needs, i: nat, b2: Op, c: Cfg<W, M>, d: Cfg<W, M>)
    requires Sound(ops, targets, needs) && i + 1 < |ops| && MergeOk(env, ops, targets, needs, i, b2)
    requires Related(env, ops, needs, i, c, d)
    ensures RelatedResults(env, ops, needs, i, Step(env, ops, targets, c), Step(env, Merged(ops, i, b2), targets, d))
  {
    hide Step, MergeOk;
    if c.pc == i {
      FirstStep(env, ops, targets, needs, i, b2, c, d);
    } else if c.pc == i + 1 {
      SecondStep(env, ops, targets, needs, i, b2, c, d);
    } else {
      AgreeingStep(env, ops, targets, needs, c, d);
      SameOpSameStep(env, ops, Merged(ops, i, b2), targets, d);
      NotBetween(env, ops, targets, needs, i, b2, c);
    }
  }

  lemma NotBetween<W(!new), M(!new)>(env: Env<W, M>, ops: seq<Op>, targets: set<nat>, needs: Needs, i: nat, b2: Op, c: Cfg<W, M>)
    requires |needs.into| == |needs.out| == |ops| && i + 1 < |ops| && MergeOk(env, ops, targets, needs, i, b2) && c.pc != i
    ensures Step(env, ops, targets, c).Running? ==> Step(env, ops, targets, c).c.pc != i + 1
  {
    hide Step;
    if c.pc < |ops| {
      StepShape(env, ops, targets, c);
    } else {
      StepOffEnd(env, ops, targets, c);
    }
  }

  lemma RelatedToItself<W(!new), M(!new)>(env: Env<W, M>, ops: seq<Op>, needs: Needs, i: nat, c: Cfg<W, M>)
    requires |needs.into| == |ops| && i + 1 < |ops| && c.pc != i + 1 && c.pc in needs.reach
    ensures Related(env, ops, needs, i, c, c)
  {
  }

  lemma {:induction false} RelatedRuns<W(!new), M(!new)>(env: Env<W, M>, ops: seq<Op>, targets: set<nat>, needs: Needs, i: nat, b2: Op,
                                                         c: Cfg<W, M>, n: nat)
    requires Sound(ops, targets, needs) && i + 1 < |ops| && MergeOk(env, ops, targets, needs, i, b2)
    requires c.pc != i + 1 && c.pc in needs.reach
    ensures RelatedResults(env, ops, needs, i, Run(env, ops, targets, c, n), Run(env, Merged(ops, i, b2), targets, c, n))
  {
    assert |needs.into| == |ops|;
    hide Step, MergeOk, Sound, Related, Merged;
    if n == 0 {
      assert Related(env, ops, needs, i, c, c) by { RelatedToItself(env, ops, needs, i, c); }
    } else {
      RelatedRuns(env, ops, targets, needs, i, b2, c, n - 1);
      var r, q := Run(env, ops, targets, c, n - 1), Run(env, Merged(ops, i, b2), targets, c, n - 1);
      if r.Running? {
        RelatedStep(env, ops, targets, needs, i, b2, r.c, q.c);
      }
    }
  }

  /** A merge that is in order changes no run, and leaves sound liveness behind. */
  lemma MergePreservesRuns<W(!new), M(!new)>(env: Env<W, M>, ops: seq<Op>, targets: set<nat>, needs: Needs, i: nat, b2: Op, c: Cfg<W, M>)
    requires Sound(ops, targets, needs) && i + 1 < |ops| && MergeOk(env, ops, targets, needs, i, b2)
    requires c.pc != i + 1 && c.pc in needs.reach
    ensures SameRuns(env, ops, Merged(ops, i, b2), targets, c)
    ensures Sound(Merged(ops, i, b2), targets, MergedNeeds(needs, ops[i + 1], i, b2))
  {
    MergedIsSound(env, ops, targets, needs, i, b2);
    forall n: nat
      ensures SameOutcome(Run(env, ops, targets, c, n), Run(env, Merged(ops, i, b2), targets, c, n))
    {
      RelatedRuns(env, ops, targets, needs, i, b2, c, n);
    }
  }

  // ---- One merge after another -----------------------------------------------------------

  /** Jumps lead to labels and patches. */
  ghost predicate JumpsLand(ops: seq<Op>, targets: set<nat>) {
    forall j: nat, t: nat :: j < |ops| && Goes(ops, targets, j, t) && t != j + 1 ==> IsLanding(ops[t].code)
  }

  /** A run begins with the PROLOG of a function. */
  ghost predicate AtEntry(ops: seq<Op>, reach: set<nat>, pc: nat) {
    pc < |ops| && ops[pc].code == PROLOG && pc in reach
  }

  /** Where a pass stands: the list so far behaves like the one it all began with,
      has sound liveness, and at every operation that is left that liveness is
      within the sets the pass consults. */
  ghost predicate Underway<W(!new), M(!new)>(env: Env<W, M>, first: seq<Op>, ops: seq<Op>, targets: set<nat>, needs: Needs,
                                             liveOut: seq<set<int>>, c: Cfg<W, M>)
  {
    && |first| == |ops| == |liveOut| && Sound(ops, targets, needs) && JumpsLand(ops, targets)
    && (forall k: nat :: k in needs.reach && k < |ops| && ops[k].code != NOP ==> needs.out[k] <= liveOut[k])
    && SameRuns(env, first, ops, targets, c) && AtEntry(ops, needs.reach, c.pc)
  }

  lemma UnderwayShape<W(!new), M(!new)>(env: Env<W, M>, first: seq<Op>, ops: seq<Op>, targets: set<nat>, needs: Needs,
                                        liveOut: seq<set<int>>, c: Cfg<W, M>)
    requires Underway(env, first, ops, targets, needs, liveOut, c)
    ensures |needs.into| == |needs.out| == |first| == |ops| == |liveOut|
  {
  }

  /** The operations of a merge, wherever they stand. */
  predicate PairShaped(a: Op, b: Op, b2: Op) {
    MergeShape(a, b, b2) && !IsLanding(a.code) && !IsLanding(b.code) && !IsLanding(b2.code)
  }

  /** What a pass tests, and what it relies on without testing. */
  ghost predicate PairOk<W(!new), M(!new)>(env: Env<W, M>, a: Op, b: Op, b2: Op, liveOut: set<int>) {
    && NoEffect(env, a) && SameEffect(env, a, b, b2)
    && (a.a0 !in liveOut || (b.t0 == TREG && b.a0 == a.a0))
    && b2.Uses() <= a.Uses() + (b.Uses() - {a.a0})
  }

  lemma PairIsMerge<W(!new), M(!new)>(env: Env<W, M>, first: seq<Op>, ops: seq<Op>, targets: set<nat>, needs: Needs,
                                      liveOut: seq<set<int>>, i: nat, b2: Op, c: Cfg<W, M>)
    requires Underway(env, first, ops, targets, needs, liveOut, c) && i + 1 < |ops| && PairShaped(ops[i], ops[i + 1], b2)
    requires i in needs.reach ==> PairOk(env, ops[i], ops[i + 1], b2, liveOut[i + 1])
    ensures |needs.into| == |needs.out| == |ops| && MergeOk(env, ops, targets, needs, i, b2) && c.pc != i + 1
  {
    hide SameEffect, NoEffect, SameRuns, SoundAt, SoundEdge, Op.Uses, Op.Defs;
    DefsOfPair(ops[i], ops[i + 1], b2);
    if i in needs.reach {
      assert Goes(ops, targets, i, i + 1) && i + 1 in needs.reach;
    }
  }

  lemma ComputesIsNoNop(op: Op)
    requires Computes(op.code)
    ensures op.code != NOP
  {
  }

  /** The sets the pass consults hold what may be needed in the rewritten list. */
  lemma MergedWithin<W(!new), M(!new)>(env: Env<W, M>, first: seq<Op>, ops: seq<Op>, targets: set<nat>, needs: Needs,
                                       liveOut: seq<set<int>>, i: nat, b2: Op, c: Cfg<W, M>)
    requires Underway(env, first, ops, targets, needs, liveOut, c) && i + 1 < |ops| && PairShaped(ops[i], ops[i + 1], b2)
    ensures |needs.into| == |needs.out| == |ops|
    ensures var ops', needs' := Merged(ops, i, b2), MergedNeeds(needs, ops[i + 1], i, b2);
      && (forall k: nat :: k in needs.reach && k < |ops| && ops'[k].code != NOP ==> needs'.out[k] <= liveOut[k])
      && AtEntry(ops', needs.reach, c.pc)
  {
    hide SameRuns, Sound, Op.Uses, Op.Defs, JumpsLand, Computes, TakesArgs, IsLanding, MayBranch;
    UnderwayShape(env, first, ops, targets, needs, liveOut, c);
    assert ops[i + 1].code != NOP by { ComputesIsNoNop(ops[i + 1]); }
    var ops', needs' := Merged(ops, i, b2), MergedNeeds(needs, ops[i + 1], i, b2);
    forall k: nat | k in needs.reach && k < |ops| && ops'[k].code != NOP
      ensures needs'.out[k] <= liveOut[k]
    {
      assert k != i && needs'.out[k] == needs.out[k] && ops[k].code != NOP;
    }
  }

  lemma MergeUnderway<W(!new), M(!new)>(env: Env<W, M>, first: seq<Op>, ops: seq<Op>, targets: set<nat>, needs: Needs,
                                        liveOut: seq<set<int>>, i: nat, b2: Op, c: Cfg<W, M>)
    requires Underway(env, first, ops, targets, needs, liveOut, c) && i + 1 < |ops|
    requires PairShaped(ops[i], ops[i + 1], b2)
    requires i in needs.reach ==> PairOk(env, ops[i], ops[i + 1], b2, liveOut[i + 1])
    ensures Underway(env, first, Merged(ops, i, b2), targets, MergedNeeds(needs, ops[i + 1], i, b2), liveOut, c)
  {
    hide SameRuns, Sound, PairOk, MergeOk, Op.Uses, Op.Defs;
    PairIsMerge(env, first, ops, targets, needs, liveOut, i, b2, c);
    MergedWithin(env, first, ops, targets, needs, liveOut, i, b2, c);
    MergePreservesRuns(env, ops, targets, needs, i, b2, c);
    SameRunsTrans(env, first, ops, Merged(ops, i, b2), targets, c);
    hide JumpsLand;
    MergedJumpsLand(ops, targets, i, b2);
  }

  lemma MergedJumpsLand(ops: seq<Op>, targets: set<nat>, i: nat, b2: Op)
    requires JumpsLand(ops, targets) && i + 1 < |ops| && !IsLanding(ops[i].code) && !IsLanding(ops[i + 1].code)
    requires Computes(ops[i].code) && Computes(ops[i + 1].code) && Computes(b2.code) && !MayBranch(b2.code)
    ensures JumpsLand(Merged(ops, i, b2), targets)
  {
    var ops' := Merged(ops, i, b2);
    forall j: nat, t: nat | j < |ops'| && Goes(ops', targets, j, t) && t != j + 1
      ensures IsLanding(ops'[t].code)
    {
      assert Goes(ops, targets, j, t);
    }
  }
}
