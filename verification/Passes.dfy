/** The rewriting passes of `jit_generate_code` in their order, each under the option
    or on the architecture it is built for. */
module Passes {
  import opened Ops
  import opened Machine
  import opened Rewrites
  import opened Merging
  import opened Shapes
  import opened Liveness
  import opened UnusedAssign
  import opened StoreFold
  import opened Fusion
  import Flow

  /** `drop` is JIT_OPT_OMIT_UNUSED_ASSIGNEMENTS, off by default; `x86` the i386 and
      AMD64 builds; `join` JIT_OPT_JOIN_ADDMUL, on by default. */
  datatype Options = Options(drop: bool, x86: bool, join: bool)

  function DropAll(ops: seq<Op>, liveOut: seq<set<int>>): (r: seq<Op>)
    requires |ops| == |liveOut|
    ensures DroppedAll(ops, liveOut, r)
  {
    seq(|ops|, i requires 0 <= i < |ops| => Dropped(ops[i], liveOut[i]))
  }

  /** The list after unused assignments went, after constant stores were folded, and
      after either fusing pass. */
  function WithoutUnused(o: Options, ops: seq<Op>, liveOut: seq<set<int>>): (r: seq<Op>)
    requires |ops| == |liveOut|
    ensures |r| == |ops|
  {
    if o.drop then DropAll(ops, liveOut) else ops
  }

  function WithStores(o: Options, ops: seq<Op>, liveOut: seq<set<int>>): (r: seq<Op>)
    requires |ops| == |liveOut|
    ensures |r| == |ops|
  {
    var r := WithoutUnused(o, ops, liveOut);
    if o.x86 then FoldAll(r, liveOut, |ops|) else r
  }

  function WithAddMul(o: Options, ops: seq<Op>, liveOut: seq<set<int>>): (r: seq<Op>)
    requires |ops| == |liveOut|
    ensures |r| == |ops|
  {
    var r := WithStores(o, ops, liveOut);
    if o.x86 && o.join then FuseAll(JoinAddMul, r, liveOut, |ops|) else r
  }

  function WithAddImm(o: Options, ops: seq<Op>, liveOut: seq<set<int>>): (r: seq<Op>)
    requires |ops| == |liveOut|
    ensures |r| == |ops|
  {
    var r := WithAddMul(o, ops, liveOut);
    if o.x86 && o.join then FuseAll(JoinAddImm, r, liveOut, |ops|) else r
  }

  // ---- Shape ------------------------------------------------------------------------------

  lemma StoresShape(o: Options, ops: seq<Op>, infos: map<int, seq<ArgInfo>>, liveOut: seq<set<int>>)
    requires ListShape(ops, infos) && |ops| == |liveOut|
    ensures Rewritten(ops, WithoutUnused(o, ops, liveOut)) && ListShape(WithoutUnused(o, ops, liveOut), infos)
    ensures Rewritten(ops, WithStores(o, ops, liveOut)) && ListShape(WithStores(o, ops, liveOut), infos)
  {
    hide ListShape, Redone, FoldAll, DroppedAll;
    SameIsRewritten(ops);
    if o.drop {
      DroppedShape(ops, infos, liveOut, DropAll(ops, liveOut));
    }
    var r := WithoutUnused(o, ops, liveOut);
    if o.x86 {
      FoldAllShape(r, infos, liveOut, |ops|);
      RewrittenOn(ops, r, FoldAll(r, liveOut, |ops|));
    }
  }

  lemma PassesShape(o: Options, ops: seq<Op>, infos: map<int, seq<ArgInfo>>, liveOut: seq<set<int>>)
    requires ListShape(ops, infos) && |ops| == |liveOut|
    ensures Rewritten(ops, WithAddMul(o, ops, liveOut)) && ListShape(WithAddMul(o, ops, liveOut), infos)
    ensures Rewritten(ops, WithAddImm(o, ops, liveOut)) && ListShape(WithAddImm(o, ops, liveOut), infos)
  {
    hide ListShape, Rewritten, FuseAll, WithStores;
    StoresShape(o, ops, infos, liveOut);
    if o.x86 && o.join {
      var r := WithStores(o, ops, liveOut);
      FuseAllShape(JoinAddMul, r, infos, liveOut, |ops|);
      var j := WithAddMul(o, ops, liveOut);
      RewrittenOn(ops, r, j);
      FuseAllShape(JoinAddImm, j, infos, liveOut, |ops|);
      RewrittenOn(ops, j, WithAddImm(o, ops, liveOut));
    }
  }

  // ---- What is relied on without a test ------------------------------------------------------

  /** No stored register is part of the address it is stored at. */
  ghost predicate AddressesFree(ops: seq<Op>, liveOut: seq<set<int>>, reach: set<nat>)
    requires |ops| == |liveOut|
  {
    forall i: nat :: i in reach && i + 1 < |ops| && Folds(ops[i], ops[i + 1], liveOut[i + 1]) ==> AddressFree(ops[i], ops[i + 1])
  }

  /** What is left of the condition of a pair once the second is known to read the
      first: the constant of a SUB is its own negative, a displacement fits its field. */
  predicate JoinFits(p: nat, pass: Pass, a: Op, b: Op) {
    match pass
    case JoinAddMul => true
    case JoinAddImm =>
      if Is(a, ADD, RegForm) then b.code == SUB ==> OwnNegative(p, b.a2)
      else p == TWO_32 || Is32Bit(Displacement(a, b))
  }

  /** The condition of every pair that is joined.  Where unused assignments are gone,
      the second operation reads the first by itself. */
  ghost predicate JoinsRight(o: Options, p: nat, pass: Pass, ops: seq<Op>, liveOut: seq<set<int>>, reach: set<nat>)
    requires |ops| == |liveOut|
  {
    forall i: nat :: i in reach && i + 1 < |ops| && Join(pass, ops[i], ops[i + 1], liveOut[i + 1]).Some? ==>
      if o.drop then JoinFits(p, pass, ops[i], ops[i + 1]) else JoinRight(p, pass, ops[i], ops[i + 1])
  }

  ghost predicate Relied(o: Options, env: Env<int, Memory>, p: nat, ops: seq<Op>, liveOut: seq<set<int>>, reach: set<nat>)
    requires |ops| == |liveOut|
  {
    && (o.drop ==> AllOnlyAssign(env, ops, reach))
    && (o.x86 ==> StoresBytes(env) && AddressesFree(WithoutUnused(o, ops, liveOut), liveOut, reach))
    && (o.x86 && o.join ==>
          && ComputesWords(env, p)
          && JoinsRight(o, p, JoinAddMul, WithStores(o, ops, liveOut), liveOut, reach)
          && JoinsRight(o, p, JoinAddImm, WithAddMul(o, ops, liveOut), liveOut, reach))
  }

  // ---- Unused assignments make the second operation read the first ----------------------------

  /** An operation of the codes that are fused was there from the beginning. */
  lemma AluIsOriginal(o: Options, ops: seq<Op>, liveOut: seq<set<int>>, i: nat)
    requires |ops| == |liveOut| && i < |ops|
    ensures WithStores(o, ops, liveOut)[i].code in {ADD, SUB, MUL, LSH, OR} ==> WithStores(o, ops, liveOut)[i] == ops[i]
    ensures o.drop && WithStores(o, ops, liveOut)[i].code in {ADD, SUB, MUL, LSH, OR} ==> !Unused(ops[i], liveOut[i])
  {
    hide FoldAll, Folds, Folded;
    var r := WithoutUnused(o, ops, liveOut);
    if o.x86 {
      AluNotFolded(r, liveOut, |ops|, i);
    }
  }

  lemma {:induction false} AluNotFolded(ops: seq<Op>, liveOut: seq<set<int>>, n: nat, i: nat)
    requires n <= |ops| == |liveOut| && i < |ops|
    ensures var r := FoldAll(ops, liveOut, n); r[i].code in {ADD, SUB, MUL, LSH, OR} ==> r[i] == ops[i]
  {
    hide Folds;
    if n > 0 {
      AluNotFolded(ops, liveOut, n - 1, i);
      var r := FoldAll(ops, liveOut, n - 1);
      if n > 1 && Folds(r[n - 2], r[n - 1], liveOut[n - 1]) {
        assert Folded(r[n - 2], r[n - 1]).code !in {ADD, SUB, MUL, LSH, OR};
      }
    }
  }

  lemma {:induction false} AluNotFused(pass: Pass, ops: seq<Op>, liveOut: seq<set<int>>, n: nat, i: nat)
    requires n <= |ops| == |liveOut| && i < |ops|
    ensures var r := FuseAll(pass, ops, liveOut, n); r[i].code in {ADD, SUB, MUL, LSH, OR} ==> r[i] == ops[i]
  {
    hide Join;
    if n > 0 {
      AluNotFused(pass, ops, liveOut, n - 1, i);
      var r := FuseAll(pass, ops, liveOut, n - 1);
      if n < |ops| && Join(pass, r[n - 1], r[n], liveOut[n]).Some? {
        JoinedIsNoAlu(pass, r[n - 1], r[n], liveOut[n]);
      }
    }
  }

  lemma JoinedIsNoAlu(pass: Pass, a: Op, b: Op, liveOut: set<int>)
    requires Join(pass, a, b, liveOut).Some?
    ensures Join(pass, a, b, liveOut).value.code !in {ADD, SUB, MUL, LSH, OR}
    ensures a.code in {ADD, SUB, MUL, LSH} && b.code in {ADD, SUB, OR} && RelatedOp(a, b, liveOut)
  {
  }

  /** Both operations of a pair that is joined are of the list the analysis saw, and
      the first was not unused. */
  lemma PairWasThere(o: Options, pass: Pass, ops: seq<Op>, liveOut: seq<set<int>>, i: nat)
    requires |ops| == |liveOut| && i + 1 < |ops|
    requires var r := if pass == JoinAddMul then WithStores(o, ops, liveOut) else WithAddMul(o, ops, liveOut);
      Join(pass, r[i], r[i + 1], liveOut[i + 1]).Some?
    ensures var r := if pass == JoinAddMul then WithStores(o, ops, liveOut) else WithAddMul(o, ops, liveOut);
      r[i] == ops[i] && r[i + 1] == ops[i + 1]
    ensures o.drop ==> !Unused(ops[i], liveOut[i])
    ensures Join(pass, ops[i], ops[i + 1], liveOut[i + 1]).Some?
  {
    hide Join, FuseAll, WithStores;
    var r := if pass == JoinAddMul then WithStores(o, ops, liveOut) else WithAddMul(o, ops, liveOut);
    JoinedIsNoAlu(pass, r[i], r[i + 1], liveOut[i + 1]);
    if pass != JoinAddMul && o.x86 && o.join {
      AluNotFused(JoinAddMul, WithStores(o, ops, liveOut), liveOut, |ops|, i);
      AluNotFused(JoinAddMul, WithStores(o, ops, liveOut), liveOut, |ops|, i + 1);
    }
    AluIsOriginal(o, ops, liveOut, i);
    AluIsOriginal(o, ops, liveOut, i + 1);
  }

  /** Where the first operation of a pair is not unused, the second reads it. */
  lemma SecondReads(ops: seq<Op>, infos: map<int, seq<ArgInfo>>, targets: set<nat>, beyond: map<int, seq<set<int>>>,
                    s: Flow.Sets, reach: set<nat>, q: nat, pass: Pass, i: nat)
    requires AnalysedRun(ops, infos, targets, beyond, s, reach, q) && i in reach && i + 1 < |ops| && |s.out| == |ops|
    requires Join(pass, ops[i], ops[i + 1], s.out[i + 1]).Some? && !Unused(ops[i], s.out[i])
    ensures AluShape(ops[i]) && AluShape(ops[i + 1]) && ops[i].a0 in ops[i + 1].Uses()
  {
    hide ListShape, OwnRun, Analysed, TakesTargets, Join, AluShape, OpShape;
    ShapeAt(ops, infos, i);
    ShapeAt(ops, infos, i + 1);
    FormsShaped(pass, ops[i], ops[i + 1], DeclaredAt(ops, infos, i), DeclaredAt(ops, infos, i + 1));
    JoinedIsAlu(pass, ops[i], ops[i + 1], s.out[i + 1]);
    LiveIsRead(ops, infos, targets, beyond, s, reach, q, i, ops[i].a0);
  }

  lemma JoinedIsAlu(pass: Pass, a: Op, b: Op, liveOut: set<int>)
    requires PairShape(pass, a, b) && Join(pass, a, b, liveOut).Some?
    ensures AluShape(a) && AluShape(b) && GoesToNext(a) && a.t0 == TREG && !SetsCarry(a.code)
    ensures b.code != PROLOG && b.code != GETARG && (a.a0 in b.Defs() || a.a0 !in liveOut)
  {
    assert b.T(0) == b.t0 && b.A(0) == b.a0;
  }

  /** So only the constants have to be right. */
  lemma FitsIsRight(p: nat, pass: Pass, a: Op, b: Op, liveOut: set<int>)
    requires AluShape(a) && AluShape(b) && Join(pass, a, b, liveOut).Some? && a.a0 in b.Uses() && JoinFits(p, pass, a, b)
    ensures JoinRight(p, pass, a, b)
  {
    UsesOf(b);
    hide Displacement, Shift;
  }

  /** The condition a fusing pass needs, from what is assumed and what liveness says. */
  lemma JoinableHere(o: Options, p: nat, pass: Pass, ops: seq<Op>, infos: map<int, seq<ArgInfo>>, targets: set<nat>,
                     beyond: map<int, seq<set<int>>>, s: Flow.Sets, reach: set<nat>, q: nat)
    requires AnalysedRun(ops, infos, targets, beyond, s, reach, q) && |s.out| == |ops|
    requires var r := if pass == JoinAddMul then WithStores(o, ops, s.out) else WithAddMul(o, ops, s.out);
      ListShape(r, infos) && JoinsRight(o, p, pass, r, s.out, reach)
    ensures var r := if pass == JoinAddMul then WithStores(o, ops, s.out) else WithAddMul(o, ops, s.out);
      Joinable(p, pass, r, s.out, reach)
  {
    hide ListShape, AnalysedRun, Join, JoinFits, JoinRight, PairShape, WithStores, WithAddMul, OpShape;
    var r := if pass == JoinAddMul then WithStores(o, ops, s.out) else WithAddMul(o, ops, s.out);
    forall i: nat | i + 1 < |ops|
      ensures PairShape(pass, r[i], r[i + 1])
      ensures i in reach && Join(pass, r[i], r[i + 1], s.out[i + 1]).Some? ==> JoinRight(p, pass, r[i], r[i + 1])
    {
      ShapeAt(r, infos, i);
      ShapeAt(r, infos, i + 1);
      FormsShaped(pass, r[i], r[i + 1], DeclaredAt(r, infos, i), DeclaredAt(r, infos, i + 1));
      if i in reach && Join(pass, r[i], r[i + 1], s.out[i + 1]).Some? && o.drop {
        PairWasThere(o, pass, ops, s.out, i);
        SecondReads(ops, infos, targets, beyond, s, reach, q, pass, i);
        FitsIsRight(p, pass, r[i], r[i + 1], s.out[i + 1]);
      }
    }
  }

  // ---- Runs -----------------------------------------------------------------------------------

  /** What may be needed is within the sets that were found, but for what the PROLOG
      at q passes on. */
  ghost predicate Within(needs: Needs, s: Flow.Sets, q: nat) {
    && |needs.into| == |needs.out| == |s.into| == |s.out|
    && forall i: nat :: i in needs.reach && i < |s.out| ==> needs.out[i] <= s.out[i] && (i != q ==> needs.into[i] <= s.into[i])
  }

  /** The first pass, if it runs. */
  lemma DropUnderway(o: Options, env: Env<int, Memory>, ops: seq<Op>, infos: map<int, seq<ArgInfo>>, targets: set<nat>,
                     beyond: map<int, seq<set<int>>>, s: Flow.Sets, reach: set<nat>, q: nat, c: Cfg<int, Memory>)
    requires AnalysedRun(ops, infos, targets, beyond, s, reach, q) && c.pc == q && |s.out| == |ops|
    requires o.drop ==> AllOnlyAssign(env, ops, reach)
    ensures q < |s.into| == |s.out|
    ensures Underway(env, ops, WithoutUnused(o, ops, s.out), targets, NeedsOf(s, q, reach), s.out, c)
  {
    hide Sound, SameOutcome, Run, AllOnlyAssign, DroppedAll, ListShape, Analysed, TakesTargets, JumpsLand, Rewritten, Redone;
    ExactIsSound(ops, infos, targets, beyond, s, reach, q);
    TargetsLand(ops, infos, targets, beyond, s, reach, q);
    var needs, r := NeedsOf(s, q, reach), WithoutUnused(o, ops, s.out);
    StoresShape(o, ops, infos, s.out);
    if o.drop {
      UnusedAssignmentsPreserveRuns(env, ops, r, targets, needs, s.out, c);
    } else {
      SameRunsSelf(env, ops, targets, c);
    }
    ShapeLands(ops, r, infos, targets);
    assert AtEntry(r, reach, q) by { StaysAtEntry(ops, r, reach, q); }
  }

  lemma SameRunsSelf<W(!new), M(!new)>(env: Env<W, M>, ops: seq<Op>, targets: set<nat>, c: Cfg<W, M>)
    ensures SameRuns(env, ops, ops, targets, c)
  {
  }

  lemma StaysAtEntry(ops: seq<Op>, r: seq<Op>, reach: set<nat>, q: nat)
    requires AtEntry(ops, reach, q) && Rewritten(ops, r)
    ensures AtEntry(r, reach, q)
  {
    assert Redone(ops[q], r[q]);
  }

  /** Indirect jumps lead to labels and patches. */
  lemma TargetsLand(ops: seq<Op>, infos: map<int, seq<ArgInfo>>, targets: set<nat>, beyond: map<int, seq<set<int>>>,
                    s: Flow.Sets, reach: set<nat>, q: nat)
    requires AnalysedRun(ops, infos, targets, beyond, s, reach, q)
    ensures forall t :: t in targets ==> t < |ops| && IsLanding(ops[t].code)
  {
    hide ListShape, OwnRun, Flow.FnOk, Flow.RefTarget;
    forall t | t in targets
      ensures t < |ops| && IsLanding(ops[t].code)
    {
      RefsLand(ops, infos, Flow.FnFrom(ops, infos, q), t);
    }
  }

  lemma ShapeLands(ops: seq<Op>, r: seq<Op>, infos: map<int, seq<ArgInfo>>, targets: set<nat>)
    requires ListShape(r, infos) && Rewritten(ops, r) && forall t :: t in targets ==> t < |ops| && IsLanding(ops[t].code)
    ensures JumpsLand(r, targets)
  {
    hide OpShape, AdjacentAt;
    forall j: nat, t: nat | j < |r| && Goes(r, targets, j, t) && t != j + 1
      ensures IsLanding(r[t].code)
    {
      assert WellFormedAt(r, infos, j) && Redone(ops[t], r[t]);
    }
  }

  lemma NeedsWithin(s: Flow.Sets, q: nat, reach: set<nat>)
    requires q < |s.into| == |s.out|
    ensures Within(NeedsOf(s, q, reach), s, q)
  {
  }

  lemma ShrunkWithin(needs: Needs, needs': Needs, s: Flow.Sets, q: nat)
    requires Within(needs, s, q) && Shrunk(needs, needs')
    ensures Within(needs', s, q)
  {
  }

  lemma StoreForms(ops: seq<Op>, infos: map<int, seq<ArgInfo>>, liveOut: seq<set<int>>, reach: set<nat>)
    requires ListShape(ops, infos) && |ops| == |liveOut| && AddressesFree(ops, liveOut, reach)
    ensures StoresFoldable(ops, liveOut, reach)
  {
    forall i | 0 <= i < |ops|
      ensures StoreShape(ops[i])
    {
      ShapeAt(ops, infos, i);
    }
  }

  /** The first two passes: the liveness that was found still covers what is needed. */
  lemma StoresPreserveRuns(o: Options, env: Env<int, Memory>, p: nat, ops: seq<Op>, infos: map<int, seq<ArgInfo>>, targets: set<nat>,
                           beyond: map<int, seq<set<int>>>, s: Flow.Sets, reach: set<nat>, q: nat, c: Cfg<int, Memory>) returns (needs: Needs)
    requires AnalysedRun(ops, infos, targets, beyond, s, reach, q) && c.pc == q && |s.out| == |ops| && Relied(o, env, p, ops, s.out, reach)
    ensures Underway(env, ops, WithStores(o, ops, s.out), targets, needs, s.out, c)
    ensures needs.reach == reach && Within(needs, s, q)
  {
    hide AnalysedRun, Underway, FoldAll, WithoutUnused, AddressesFree, StoresBytes, AllOnlyAssign, Shrunk, Within;
    DropUnderway(o, env, ops, infos, targets, beyond, s, reach, q, c);
    needs := NeedsOf(s, q, reach);
    NeedsWithin(s, q, reach);
    if o.x86 {
      var r := WithoutUnused(o, ops, s.out);
      ShapeOfRun(ops, infos, targets, beyond, s, reach, q);
      StoresShape(o, ops, infos, s.out);
      StoreForms(r, infos, s.out, reach);
      var shrunk := FoldingPreservesRuns(env, ops, r, targets, needs, s.out, c, |ops|);
      ShrunkWithin(needs, shrunk, s, q);
      assert shrunk.reach == reach by { ShrunkReach(needs, shrunk); }
      needs := shrunk;
    }
  }

  lemma ShrunkReach(needs: Needs, needs': Needs)
    requires Shrunk(needs, needs')
    ensures needs'.reach == needs.reach
  {
  }

  lemma ShapeOfRun(ops: seq<Op>, infos: map<int, seq<ArgInfo>>, targets: set<nat>, beyond: map<int, seq<set<int>>>,
                   s: Flow.Sets, reach: set<nat>, q: nat)
    requires AnalysedRun(ops, infos, targets, beyond, s, reach, q)
    ensures ListShape(ops, infos)
  {
  }

  /** All passes: no run changes, and if nothing was fused the liveness that was found
      still covers what is needed. */
  lemma PassesPreserveRuns(o: Options, env: Env<int, Memory>, p: nat, ops: seq<Op>, infos: map<int, seq<ArgInfo>>, targets: set<nat>,
                           beyond: map<int, seq<set<int>>>, s: Flow.Sets, reach: set<nat>, q: nat, c: Cfg<int, Memory>) returns (needs: Needs)
    requires AnalysedRun(ops, infos, targets, beyond, s, reach, q) && c.pc == q && |s.out| == |ops| && Relied(o, env, p, ops, s.out, reach)
    ensures Underway(env, ops, WithAddImm(o, ops, s.out), targets, needs, s.out, c) && needs.reach == reach
    ensures WithAddImm(o, ops, s.out) == WithStores(o, ops, s.out) ==> Within(needs, s, q)
  {
    hide AnalysedRun, Underway, FuseAll, WithStores, AddressesFree, StoresBytes, AllOnlyAssign, Within, ComputesWords, JoinsRight, Joinable;
    needs := StoresPreserveRuns(o, env, p, ops, infos, targets, beyond, s, reach, q, c);
    if o.x86 && o.join && WithAddImm(o, ops, s.out) != WithStores(o, ops, s.out) {
      ShapeOfRun(ops, infos, targets, beyond, s, reach, q);
      StoresShape(o, ops, infos, s.out);
      PassesShape(o, ops, infos, s.out);
      JoinableHere(o, p, JoinAddMul, ops, infos, targets, beyond, s, reach, q);
      JoinableHere(o, p, JoinAddImm, ops, infos, targets, beyond, s, reach, q);
      needs := FusionPreservesRuns(env, p, JoinAddMul, ops, WithStores(o, ops, s.out), targets, needs, s.out, c, |ops|);
      needs := FusionPreservesRuns(env, p, JoinAddImm, ops, WithAddMul(o, ops, s.out), targets, needs, s.out, c, |ops|);
    }
  }
}
