/** Every list the program may build is compiled: what the theorem of `Compiler` says of
    the output of `jit_generate_code` can be met, and its runs begin. */
module Generation {
  import opened Ops
  import opened RegMap
  import opened Machine
  import opened Allocation
  import opened AllocSim
  import opened AllocSteps
  import opened Shapes
  import opened Liveness
  import opened Passes
  import opened Front
  import opened Pipeline
  import opened Compiler
  import opened Feasible
  import opened Insertion
  import opened Moving
  import DeadCode
  import Flow
  import Fusion
  import LongImm
  import LongImmList
  import Removal
  import SpillList
  import StoreFold

  // ---- The marks -----------------------------------------------------------------------------

  ghost predicate IsUsed(ops: seq<Op>, i: nat)
    requires i < |ops|
  {
    DeadCode.Reachable(ops, i) || DeadCode.IsDirective(ops[i].code)
  }

  /** The mark of the operation that stands at j once dead code has gone. */
  ghost predicate UsedAt(b: Build, ops: seq<Op>, j: nat) {
    b.removes ==> exists i: nat :: i < |ops| && i in Survivors(ops) && Removal.Count(Survivors(ops), i) == j && IsUsed(ops, i)
  }

  ghost function Marks(b: Build, ops: seq<Op>): nat -> bool {
    (j: nat) => UsedAt(b, ops, j)
  }

  lemma {:induction false} CountGrows(keep: set<nat>, i: nat, j: nat)
    requires i < j && i in keep
    ensures Removal.Count(keep, i) < Removal.Count(keep, j)
  {
    Removal.CountMonotone(keep, i + 1, j);
  }

  lemma UsedIsMarked<W, M>(x: Setup<W, M>, b: Build, f: Fun)
    requires forall t :: t in f.targets ==> t < |f.ops|
    requires forall j :: 0 <= j < |x.pr.sites| ==> x.pr.sites[j].inUse == Marks(b, f.ops)(j)
    ensures Marked(x, b, f)
  {
    hide DeadCode.Reachable, DeadCode.IsDirective, Removal.Count;
    var keep := Survivors(f.ops);
    if b.removes {
      forall i: nat | i in keep && Removal.Count(keep, i) < |x.pr.sites|
        ensures x.pr.sites[Removal.Count(keep, i)].inUse == IsUsed(f.ops, i)
      {
        var j := Removal.Count(keep, i);
        if UsedAt(b, f.ops, j) {
          var k: nat :| k < |f.ops| && k in keep && Removal.Count(keep, k) == j && IsUsed(f.ops, k);
          if k < i {
            CountGrows(keep, k, i);
          } else if i < k {
            CountGrows(keep, i, k);
          }
        }
      }
    }
  }

  // ---- The lists after the passes --------------------------------------------------------------

  /** Code references stay, unless unused assignments are dropped. */
  lemma {:induction false} RefsNotFolded(ops: seq<Op>, liveOut: seq<set<int>>, n: nat, i: nat)
    requires n <= |ops| == |liveOut| && i < |ops| && IsRef(ops[i])
    ensures StoreFold.FoldAll(ops, liveOut, n)[i] == ops[i]
  {
    hide StoreFold.Folded, StoreFold.Folds;
    if n > 0 {
      RefsNotFolded(ops, liveOut, n - 1, i);
      var r := StoreFold.FoldAll(ops, liveOut, n - 1);
      if n > 1 && StoreFold.Folds(r[n - 2], r[n - 1], liveOut[n - 1]) {
        StoresFold(r[n - 2], r[n - 1], liveOut[n - 1]);
      }
    }
  }

  lemma StoresFold(prev: Op, op: Op, liveOut: set<int>)
    requires StoreFold.Folds(prev, op, liveOut)
    ensures !IsRef(prev) && !IsRef(op)
  {
  }

  lemma {:induction false} RefsNotFused(pass: Fusion.Pass, ops: seq<Op>, liveOut: seq<set<int>>, n: nat, i: nat)
    requires n <= |ops| == |liveOut| && i < |ops| && IsRef(ops[i])
    ensures Fusion.FuseAll(pass, ops, liveOut, n)[i] == ops[i]
  {
    hide Fusion.Join;
    if n > 0 {
      RefsNotFused(pass, ops, liveOut, n - 1, i);
      var r := Fusion.FuseAll(pass, ops, liveOut, n - 1);
      if n < |ops| && Fusion.Join(pass, r[n - 1], r[n], liveOut[n]).Some? {
        JoinedIsNoAlu(pass, r[n - 1], r[n], liveOut[n]);
      }
    }
  }

  lemma RefsStay(o: Options, ops: seq<Op>, liveOut: seq<set<int>>, i: nat)
    requires |ops| == |liveOut| && i < |ops| && IsRef(ops[i]) && !o.drop
    ensures WithAddImm(o, ops, liveOut)[i] == ops[i]
  {
    hide StoreFold.FoldAll, Fusion.FuseAll;
    if o.x86 {
      RefsNotFolded(ops, liveOut, |ops|, i);
      if o.join {
        RefsNotFused(Fusion.JoinAddMul, WithStores(o, ops, liveOut), liveOut, |ops|, i);
        RefsNotFused(Fusion.JoinAddImm, WithAddMul(o, ops, liveOut), liveOut, |ops|, i);
      }
    }
  }

  /** The addresses the function jumps to are still taken. */
  ghost predicate StillTaken(ops: seq<Op>, infos: map<int, seq<ArgInfo>>, targets: set<nat>, q: nat) {
    Flow.ListOk(ops, infos) && Flow.StartsAt(ops, q) && TakesTargets(ops, infos, targets, q)
  }

  lemma SameFunction(ops: seq<Op>, last: seq<Op>, q: nat)
    requires Rewritten(ops, last) && Flow.StartsAt(ops, q)
    ensures Flow.StartsAt(last, q) && Flow.End(last, q + 1) == Flow.End(ops, q + 1)
  {
    assert Redone(ops[q], last[q]);
    SameEnd(ops, last, q + 1);
  }

  lemma PassesKeepTargets(o: Options, g: Fun, infos: map<int, seq<ArgInfo>>, liveOut: seq<set<int>>)
    requires Ready(g, infos) && |liveOut| == |g.ops| && !o.drop
    ensures StillTaken(WithAddImm(o, g.ops, liveOut), infos, g.targets, g.q)
  {
    hide OwnRun, SpillsStand, Flow.ListOk, ListShape, Flow.FnOk, WithAddImm, Rewritten, Flow.End;
    var last := WithAddImm(o, g.ops, liveOut);
    PassesShape(o, g.ops, infos, liveOut);
    ShapedList(last, infos);
    SameFunction(g.ops, last, g.q);
    assert Flow.FnOk(Flow.FnFrom(g.ops, infos, g.q)) by { ShapedFunction(g.ops, infos, g.q); }
    assert Flow.FnOk(Flow.FnFrom(last, infos, g.q)) by { ShapedFunction(last, infos, g.q); }
    forall t | t in g.targets
      ensures Flow.RefTarget(Flow.FnFrom(last, infos, g.q), t)
    {
      var f := Flow.FnFrom(g.ops, infos, g.q);
      var k :| f.lo < k < f.hi && IsRef(f.ops[k]) && f.ops[k].jmp == Some(t);
      RefsStay(o, g.ops, liveOut, k);
    }
  }

  // ---- The compilation ----------------------------------------------------------------------------

  ghost function ListSets(g: Fun, infos: map<int, seq<ArgInfo>>): (s: Flow.Sets)
    requires Ready(g, infos)
    ensures |s.into| == |s.out| == |g.ops|
  {
    SetsOf(g.ops, infos)
  }

  /** The list that is left for the allocator. */
  ghost function LastOps(o: Options, g: Fun, infos: map<int, seq<ArgInfo>>): (last: seq<Op>)
    requires Ready(g, infos)
    ensures |last| == |g.ops| && Flow.ListOk(last, infos) && ListShape(last, infos)
  {
    PassesShape(o, g.ops, infos, ListSets(g, infos).out);
    ShapedList(WithAddImm(o, g.ops, ListSets(g, infos).out), infos);
    WithAddImm(o, g.ops, ListSets(g, infos).out)
  }

  ghost function AnalysesOf(o: Options, g: Fun, infos: map<int, seq<ArgInfo>>): (a: Analyses)
    requires Ready(g, infos)
  {
    var n, s, last := |g.ops|, ListSets(g, infos), LastOps(o, g, infos);
    Analyses(s, BeyondAll(n, n), last != WithStores(o, g.ops, s.out), SetsOf(last, infos), BeyondAll(n, n))
  }

  /** What remains to be asked: that untested conditions of the passes hold, that the
      machine serves the allocator, and, where unused assignments are dropped, that
      none of them took an address that is jumped to. */
  ghost predicate Compilable(b: Build, p: nat, env: Env<int, StoreFold.Memory>, g: Fun, infos: map<int, seq<ArgInfo>>)
    requires Ready(g, infos)
  {
    && Relied(b.passes, env, p, g.ops, ListSets(g, infos).out, Reach(g))
    && Serves(env, LastOps(b.passes, g, infos), infos)
    && (b.passes.drop ==> StillTaken(LastOps(b.passes, g, infos), infos, g.targets, g.q))
  }

  lemma BothAnalysed(o: Options, g: Fun, infos: map<int, seq<ArgInfo>>)
    requires Ready(g, infos)
    ensures var a := AnalysesOf(o, g, infos);
      && Analysed(g.ops, infos, a.beyond, a.sets) && Analysed(LastOps(o, g, infos), infos, a.beyond2, a.sets2)
  {
    hide SetsOf, Analysed, Flow.ListOk, ListShape, OwnRun, TakesTargets, LastOps;
    EveryListIsAnalysed(g.ops, infos);
    EveryListIsAnalysed(LastOps(o, g, infos), infos);
  }

  lemma LastStands(o: Options, g: Fun, infos: map<int, seq<ArgInfo>>)
    requires Ready(g, infos)
    ensures var last := LastOps(o, g, infos);
      SpillsStand(last, g.targets) && forall t :: t in g.targets ==> t < |last| && IsLanding(last[t].code)
  {
    hide Flow.ListOk, ListShape, OwnRun, Rewritten, Flow.RefTarget, SpillsStand, WithAddImm;
    var s, n := ListSets(g, infos), |g.ops|;
    PassesShape(o, g.ops, infos, s.out);
    BothAnalysed(o, g, infos);
    TargetsLand(g.ops, infos, g.targets, BeyondAll(n, n), s, Reach(g), g.q);
    LastLands(g.ops, LastOps(o, g, infos), g.targets);
  }

  /** For every list there are an output and analyses the theorem is about. */
  lemma EveryListIsCompiled(b: Build, p: nat, f: Fun, infos: map<int, seq<ArgInfo>>, env: Env<int, StoreFold.Memory>, pool: Pool)
    returns (x: Setup<int, StoreFold.Memory>, a: Analyses)
    requires SourceOk(b, f, infos) && PoolOk(pool) && Compilable(b, p, env, Prepared(b, f, infos), infos)
    ensures x.env == env && x.p == pool && x.pr.infos == infos && Generated(b, p, f, x, a)
  {
    hide SourceOk, Ready, Prepared, WithSpills, LastOps, Relied, Serves, Marked, PoolOk, ProgramOk, ListShape, SpillsStand, Analysed, Given, AllocatorRan, StillTaken;
    var g, w := Prepared(b, f, infos), WithSpills(b, f, infos);
    a := AnalysesOf(b.passes, g, infos);
    var last, s := LastOps(b.passes, g, infos), a.Last();
    assert |last| == |s.into| == |s.out| by { SetsFit(b.passes, g, infos); }
    var pr := ProgramFor(last, infos, g.targets, s, Marks(b, w.ops));
    var y := Setup(env, pool, pr, [], [], [], Reach(g));
    ForIsGiven(y, last, infos, g.targets, s, Marks(b, w.ops));
    LastStands(b.passes, g, infos);
    ShapedProgram(y, last, s);
    assert pr.Ops() == last by { OpsGiven(y, last, s); }
    AssignedRan(env, pool, pr, Reach(g));
    x := Assigned(env, pool, pr, Reach(g));
    ForIsGiven(x, last, infos, g.targets, s, Marks(b, w.ops));
    SpilledInside(b, f, infos);
    UsedIsMarked(x, b, w);
    BothAnalysed(b.passes, g, infos);
    SecondIsFound(x, b.passes, g, infos);
  }

  lemma OpsGiven<W, M>(x: Setup<W, M>, ops: seq<Op>, s: Flow.Sets)
    requires Given(x, ops, s)
    ensures x.pr.Ops() == ops
  {
  }

  lemma SetsFit(o: Options, g: Fun, infos: map<int, seq<ArgInfo>>)
    requires Ready(g, infos)
    ensures var s := AnalysesOf(o, g, infos).Last(); |g.ops| == |s.into| == |s.out|
  {
    hide Ready, LastOps, SetsOf;
  }

  lemma SpilledInside(b: Build, f: Fun, infos: map<int, seq<ArgInfo>>)
    requires SourceOk(b, f, infos)
    ensures var w := WithSpills(b, f, infos); Inside(w.ops, w.targets)
  {
    hide FunOk;
    FunInside(WithSpills(b, f, infos), infos);
  }

  lemma SecondIsFound<W, M>(x: Setup<W, M>, o: Options, g: Fun, infos: map<int, seq<ArgInfo>>)
    requires Ready(g, infos) && x.pr.infos == infos && x.pr.targets == g.targets
    requires var a := AnalysesOf(o, g, infos);
      && Given(x, LastOps(o, g, infos), a.Last()) && Analysed(LastOps(o, g, infos), infos, a.beyond2, a.sets2)
    requires o.drop ==> StillTaken(LastOps(o, g, infos), infos, g.targets, g.q)
    ensures var a := AnalysesOf(o, g, infos);
      |g.ops| == |a.sets.out| && SecondAnalysis(x, o, g.ops, a.sets, a.fused, a.beyond2, a.sets2, g.q)
  {
    hide Given, Analysed, SetsOf, ListShape, OwnRun, SpillsStand, WithAddImm, WithStores;
    if !o.drop {
      PassesKeepTargets(o, g, infos, ListSets(g, infos).out);
    }
  }

  // ---- The beginning of a run -------------------------------------------------------------------------

  /** The hardware with everything where the map says. */
  function Loaded<M>(p: Pool, m: Rmap, c: Cfg<int, M>): Hw<int, M> {
    Hw(c.pc, 0, h => if h == p.fpReg then c.regs(R_FP)
                     else match IsAssociated(m, h) case Some(v) => c.regs(v) case None => 0,
       c.regs, c.mem, [], map[])
  }

  lemma LoadedHolds<M>(p: Pool, m: Rmap, live: set<int>, c: Cfg<int, M>)
    requires PoolOk(p) && InPool(p, m)
    ensures Located(p, m, live, c, Loaded(p, m, c))
  {
    forall v | v in m
      ensures Loaded(p, m, c).hw(m[v]) == c.regs(v)
    {
      assert IsAssociated(m, m[v]) == Some(v);
    }
  }

  /** From every state of the source a run of the code begins. */
  lemma EveryRunBegins(b: Build, p: nat, f: Fun, x: Setup<int, StoreFold.Memory>, a: Analyses, c: Cfg<int, StoreFold.Memory>)
    returns (hw: Hw<int, StoreFold.Memory>)
    requires SourceOk(b, f, x.pr.infos) && Generated(b, p, f, x, a) && c.pc == f.q && c.args == []
    requires SpillList.SpillsSilent(x.env) && (b.lowers.Some? ==> LongImm.FormsAgree(x.env))
    ensures Begins(b, f, x, a, c, hw)
  {
    hide SourceOk, Prepared, WithSpills, Marked, Relied, Ready, Analysed, SpillList.SpillsSilent, LongImm.FormsAgree, SecondAnalysis, AllocatorRan, Located, Loaded;
    hide SitesOk, NeighboursOk, JumpsOk, TargetsOk, PoolOk, MapBefore, InPool, SpillsStand;
    var g := Prepared(b, f, x.pr.infos);
    assert g.q < |x.pr.sites| == |a.Last().out| && PoolOk(x.p) by { BeginsInside(x, b, g, a); }
    hw := Hw(g.q, 0, h => 0, v => 0, c.mem, [], map[]);
    if ProgramOk(x.p, x.pr) {
      var m := MapBefore(x.p, x.pr, g.q);
      hw := Loaded(x.p, m, Started(g, c));
      LoadedHolds(x.p, m, a.Last().out[g.q], Started(g, c));
      assert hw.block == g.q && hw.index == 0 by { LoadedStands(x.p, m, Started(g, c)); }
    }
  }

  lemma LoadedStands<M>(p: Pool, m: Rmap, c: Cfg<int, M>)
    ensures Loaded(p, m, c).block == c.pc && Loaded(p, m, c).index == 0
  {
  }

  lemma BeginsInside(x: Setup<int, StoreFold.Memory>, b: Build, g: Fun, a: Analyses)
    requires Ready(g, x.pr.infos) && Analysed(g.ops, x.pr.infos, a.beyond, a.sets) && AllocatorRan(x)
    requires |g.ops| == |a.sets.out| ==> SecondAnalysis(x, b.passes, g.ops, a.sets, a.fused, a.beyond2, a.sets2, g.q)
    ensures g.q < |x.pr.sites| == |a.Last().out| && PoolOk(x.p)
  {
    hide ProgramOk, ListShape, OwnRun, TakesTargets, SpillsStand, WithAddImm, WithStores, Flow.AllExact, Flow.ListOk, PoolOk;
  }

  // ---- What the lists are made of ------------------------------------------------------------------------

  predicate All(ops: seq<Op>, good: Op -> bool) {
    forall i :: 0 <= i < |ops| ==> good(ops[i])
  }

  /** Operations of a kind stay of that kind wherever they are moved. */
  ghost predicate Movable(good: Op -> bool) {
    forall place: seq<nat>, op: Op :: good(op) ==> good(MovedOp(place, op))
  }

  lemma {:induction false} FlatAll(pre: seq<seq<Op>>, ops: seq<Op>, place: seq<nat>, n: nat, good: Op -> bool)
    requires |pre| == |ops| && n <= |ops| && All(ops, good) && Movable(good) && forall i :: 0 <= i < |pre| ==> All(pre[i], good)
    ensures All(Flat(pre, ops, place, n), good)
  {
    hide MovedOp;
    if n > 0 {
      FlatAll(pre, ops, place, n - 1, good);
      AllConcat(Flat(pre, ops, place, n - 1), pre[n - 1], good);
      AllConcat(Flat(pre, ops, place, n - 1) + pre[n - 1], [MovedOp(place, ops[n - 1])], good);
    }
  }

  lemma AllConcat(a: seq<Op>, b: seq<Op>, good: Op -> bool)
    requires All(a, good) && All(b, good)
    ensures All(a + b, good)
  {
  }

  lemma {:induction false} KeptAll(ops: seq<Op>, keep: set<nat>, place: seq<nat>, n: nat, good: Op -> bool)
    requires n <= |ops| && All(ops, good) && Movable(good)
    ensures All(Removal.KeptOps(ops, keep, place, n), good)
  {
    hide MovedOp;
    if n > 0 {
      KeptAll(ops, keep, place, n - 1, good);
      AllConcat(Removal.KeptOps(ops, keep, place, n - 1), if n - 1 in keep then [MovedOp(place, ops[n - 1])] else [], good);
    }
  }

  /** What holds of all operations of the program, of those the passes put in, and goes
      on holding when immediates are lowered, holds of the list that is analysed. */
  lemma PreparedAll(b: Build, f: Fun, infos: map<int, seq<ArgInfo>>, good: Op -> bool)
    requires SourceOk(b, f, infos) && All(f.ops, good) && Movable(good)
    requires good(SPILL) && forall value, size :: good(LongImm.MoveImm(value, size))
    requires b.lowers.Some? ==> forall op :: good(op) && LongImm.ImmShape(op) ==> good(LongImm.Lower(b.lowers.value, op).1)
    ensures All(Prepared(b, f, infos).ops, good)
  {
    hide AfterLowering, Prepared, SourceOk, Movable, LongImm.Lower, LongImm.ImmShape;
    LoweredAll(b, f, infos, good);
    RestAll(b, f, infos, good);
  }

  /** The same from the lowered list on. */
  lemma RestAll(b: Build, f: Fun, infos: map<int, seq<ArgInfo>>, good: Op -> bool)
    requires SourceOk(b, f, infos) && All(AfterLowering(b, f, infos).ops, good) && Movable(good) && good(SPILL)
    ensures All(Prepared(b, f, infos).ops, good)
  {
    hide Movable, FunOk, Ready, LongImm.Lower, LongImm.ImmShape, Flat, Removal.KeptOps;
    var f1 := AfterLowering(b, f, infos);
    var pre := SpillFronts(f1.ops);
    FlatAll(pre, f1.ops, Places(pre), |f1.ops|, good);
    var f2 := WithSpills(b, f, infos);
    if b.removes {
      KeptAll(f2.ops, Survivors(f2.ops), Removal.Places(Survivors(f2.ops), |f2.ops|), |f2.ops|, good);
    }
  }

  lemma LoweredAll(b: Build, f: Fun, infos: map<int, seq<ArgInfo>>, good: Op -> bool)
    requires SourceOk(b, f, infos) && All(f.ops, good) && Movable(good)
    requires forall value, size :: good(LongImm.MoveImm(value, size))
    requires b.lowers.Some? ==> forall op :: good(op) && LongImm.ImmShape(op) ==> good(LongImm.Lower(b.lowers.value, op).1)
    ensures All(AfterLowering(b, f, infos).ops, good)
  {
    hide Movable, FunOk, Ready, LongImm.ImmShape, LongImm.ImmOverflow, LongImm.WithReg, LongImm.MoveImm, Flat;
    match b.lowers
    case None =>
    case Some(m) =>
      var l := LowerAll(m, f.ops);
      forall i | 0 <= i < |f.ops|
        ensures good(l.ops[i]) && All(LongImmList.Fronts(l)[i], good)
      {
        assert good(f.ops[i]) && Lowerable(f.ops[i]);
      }
      FlatAll(LongImmList.Fronts(l), l.ops, Places(LongImmList.Fronts(l)), |f.ops|, good);
  }

  // ---- What the passes before the flow analysis are for ---------------------------------------------------

  ghost function FitsField(m: LongImm.Target): Op -> bool {
    (op: Op) => LongImmList.Fielded(m, op) == op
  }

  lemma FieldsMove(m: LongImm.Target)
    ensures Movable(FitsField(m)) && FitsField(m)(SPILL)
  {
    hide LongImmList.Fielded;
    forall place: seq<nat>, op: Op | LongImmList.Fielded(m, op) == op
      ensures LongImmList.Fielded(m, MovedOp(place, op)) == MovedOp(place, op)
    {
      FieldMoves(m, place, op);
    }
    SpillFits(m);
  }

  lemma FieldMoves(m: LongImm.Target, place: seq<nat>, op: Op)
    requires LongImmList.Fielded(m, op) == op
    ensures LongImmList.Fielded(m, MovedOp(place, op)) == MovedOp(place, op)
  {
    hide LongImmList.InField;
  }

  lemma SpillFits(m: LongImm.Target)
    ensures LongImmList.Fielded(m, SPILL) == SPILL
  {
  }

  /** No operation that is analysed has an immediate its field would cut. */
  lemma NothingLongIsLeft(b: Build, m: LongImm.Target, f: Fun, infos: map<int, seq<ArgInfo>>)
    requires SourceOk(b, f, infos) && b.lowers == Some(m)
    requires forall i :: 0 <= i < |f.ops| ==> LongImm.IsLong(m.w, LongImm.LastImm(f.ops[i]))
    ensures All(Prepared(b, f, infos).ops, FitsField(m))
  {
    hide Prepared, LongImmList.Fielded, LongImm.IsLong, LongImm.LastImm, FunOk, LongImm.Lower, LongImm.ImmShape, Insertion.Longer, Movable;
    FieldsMove(m);
    var l := LowerAll(m, f.ops);
    LongImmList.LoweredFits(m, f.ops, l);
    LoweredIsFlat(b, m, f, infos);
    var r := LongImmList.FlatList(l);
    forall i | 0 <= i < |r|
      ensures FitsField(m)(r[i])
    {
      assert LongImmList.AllFielded(m, r)[i] == LongImmList.Fielded(m, r[i]);
    }
    RestAll(b, f, infos, FitsField(m));
  }

  lemma LoweredIsFlat(b: Build, m: LongImm.Target, f: Fun, infos: map<int, seq<ArgInfo>>)
    requires SourceOk(b, f, infos) && b.lowers == Some(m)
    ensures m.bits < m.w && (forall i :: 0 <= i < |f.ops| ==> LongImm.ImmShape(f.ops[i]))
    ensures AfterLowering(b, f, infos).ops == LongImmList.FlatList(LowerAll(m, f.ops))
  {
    hide FunOk, LongImm.Lower, LongImm.ImmShape, Insertion.Longer;
    forall i | 0 <= i < |f.ops|
      ensures LongImm.ImmShape(f.ops[i])
    {
      assert Lowerable(f.ops[i]);
    }
  }

  lemma {:induction false} KeptOrigin(ops: seq<Op>, keep: set<nat>, place: seq<nat>, n: nat, p: nat) returns (i: nat)
    requires n <= |ops| && p < |Removal.KeptOps(ops, keep, place, n)|
    ensures i < n && i in keep && Removal.KeptOps(ops, keep, place, n)[p] == MovedOp(place, ops[i])
  {
    if p < |Removal.KeptOps(ops, keep, place, n - 1)| {
      i := KeptOrigin(ops, keep, place, n - 1, p);
    } else {
      i := n - 1;
    }
  }

  /** With dead code removed, every operation that is analysed can be reached, or is a
      directive or a spill. */
  lemma OnlyReachedIsLeft(b: Build, f: Fun, infos: map<int, seq<ArgInfo>>, p: nat) returns (i: nat)
    requires SourceOk(b, f, infos) && b.removes && p < |Prepared(b, f, infos).ops|
    ensures var ops := WithSpills(b, f, infos).ops;
      && i < |ops| && Prepared(b, f, infos).ops[p] == MovedOp(Removal.Places(Survivors(ops), |ops|), ops[i])
      && (|| DeadCode.Reachable(ops, i)
          || ops[i].code in {CODESTART, DATA_BYTE, DATA_REF_CODE, DATA_REF_DATA, CODE_ALIGN, LABEL, PATCH, COMMENT, MARK, FULL_SPILL})
  {
    hide FunOk, Ready, DeadCode.Reachable, Removal.KeptOps, WithSpills, MovedOp;
    var ops := WithSpills(b, f, infos).ops;
    i := KeptOrigin(ops, Survivors(ops), Removal.Places(Survivors(ops), |ops|), |ops|, p);
  }
}
