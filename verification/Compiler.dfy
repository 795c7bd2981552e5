/** `jit_generate_code` as far as the register allocator: from the list the program
    built, under every combination of options, to code that does what it says. */
module Compiler {
  import opened Ops
  import opened RegMap
  import opened Machine
  import opened Moving
  import opened AllocSim
  import opened Shapes
  import opened Liveness
  import opened Passes
  import opened Front
  import opened Pipeline
  import opened Insertion
  import AllocTheorem
  import DeadCode
  import Flow
  import Layout
  import LongImm
  import LongImmList
  import Removal
  import SpillList
  import StoreFold

  /** How the compiler was built and set: the machine if immediates are lowered for it,
      JIT_OPT_DEAD_CODE, and the rewriting passes. */
  datatype Build = Build(lowers: Option<LongImm.Target>, removes: bool, passes: Options)

  /** A list as the program may build it. */
  ghost predicate SourceOk(b: Build, f: Fun, infos: map<int, seq<ArgInfo>>) {
    FunOk(f, infos) && (b.lowers.Some? ==> b.lowers.value.bits < b.lowers.value.w && AllLowerable(f.ops))
  }

  // ---- The lists one after the other -----------------------------------------------------

  ghost function AfterLowering(b: Build, f: Fun, infos: map<int, seq<ArgInfo>>): (g: Fun)
    requires SourceOk(b, f, infos)
    ensures FunOk(g, infos)
  {
    match b.lowers
    case Some(m) => LoweredOk(m, f, infos); LoweredFun(m, f)
    case None => f
  }

  ghost function AfterSpills(f: Fun, infos: map<int, seq<ArgInfo>>): (g: Fun)
    requires FunOk(f, infos)
    ensures Inside(f.ops, f.targets) && g == SpilledFun(f) && FunOk(g, infos) && SpillsStand(g.ops, g.targets)
  {
    SpilledOk(f, infos);
    SpilledFun(f)
  }

  ghost function AfterRemoval(b: Build, f: Fun, infos: map<int, seq<ArgInfo>>): (g: Fun)
    requires FunOk(f, infos) && SpillsStand(f.ops, f.targets)
    ensures Ready(g, infos)
  {
    KeptIsReady(f, infos);
    FunIsReady(f, infos);
    if b.removes then KeptFun(f) else f
  }

  /** The list with its spills, and the list the flow analysis is given. */
  ghost function WithSpills(b: Build, f: Fun, infos: map<int, seq<ArgInfo>>): (g: Fun)
    requires SourceOk(b, f, infos)
    ensures FunOk(g, infos) && SpillsStand(g.ops, g.targets)
  {
    AfterSpills(AfterLowering(b, f, infos), infos)
  }

  ghost function Prepared(b: Build, f: Fun, infos: map<int, seq<ArgInfo>>): (g: Fun)
    requires SourceOk(b, f, infos)
    ensures Ready(g, infos)
  {
    AfterRemoval(b, WithSpills(b, f, infos), infos)
  }

  // ---- The machine as each list sees it ------------------------------------------------------

  /** Addresses of operations are those of the operations they have become. */
  ghost function EnvBeforeRemoval<W, M>(b: Build, env: Env<W, M>, f: Fun, infos: map<int, seq<ArgInfo>>): Env<W, M>
    requires FunOk(f, infos)
  {
    if b.removes then BeforeKept(env, f) else env
  }

  ghost function EnvBeforeSpills<W, M>(env: Env<W, M>, f: Fun): Env<W, M> {
    BeforeLonged(env, SpillFronts(f.ops), f)
  }

  ghost function EnvBeforeLowering<W, M>(b: Build, env: Env<W, M>, f: Fun, infos: map<int, seq<ArgInfo>>): Env<W, M>
    requires SourceOk(b, f, infos)
  {
    match b.lowers
    case Some(m) => LoweredOk(m, f, infos); BeforeLonged(env, LongImmList.Fronts(LowerAll(m, f.ops)), f)
    case None => env
  }

  ghost function SourceEnv<W, M>(b: Build, env: Env<W, M>, f: Fun, infos: map<int, seq<ArgInfo>>): Env<W, M>
    requires SourceOk(b, f, infos)
  {
    var spilled := EnvBeforeRemoval(b, env, WithSpills(b, f, infos), infos);
    EnvBeforeLowering(b, EnvBeforeSpills(spilled, AfterLowering(b, f, infos)), f, infos)
  }

  // ---- Runs ----------------------------------------------------------------------------------

  lemma UpheldOn<C, D, E, W, M>(r: Result<C, W, M>, n: nat, q: Result<D, W, M>, k: nat, h: Result<E, W, M>, m: nat)
    requires Upheld(r, n, q, k) && Upheld(q, k, h, m)
    ensures Upheld(r, n, h, m)
  {
  }

  lemma RemovalUpholds<W(!new), M(!new)>(b: Build, env: Env<W, M>, f: Fun, infos: map<int, seq<ArgInfo>>, c: Cfg<W, M>, n: nat)
    requires FunOk(f, infos) && SpillsStand(f.ops, f.targets) && c.pc == f.q
    ensures var g := AfterRemoval(b, f, infos);
      Upheld(Run(EnvBeforeRemoval(b, env, f, infos), f.ops, f.targets, c, n), n, Run(env, g.ops, g.targets, Started(g, c), n), n)
  {
    hide Run, FunOk, Ready;
    assert Inside(f.ops, f.targets) by { FunInside(f, infos); }
    if b.removes {
      KeptRuns(env, f, infos, c, n);
    } else {
      assert Started(f, c) == c;
    }
  }

  lemma SpillsUphold<W(!new), M(!new)>(env: Env<W, M>, f: Fun, infos: map<int, seq<ArgInfo>>, c: Cfg<W, M>, n: nat) returns (k: nat)
    requires FunOk(f, infos) && c.pc == f.q && SpillList.SpillsSilent(env)
    ensures var g := AfterSpills(f, infos);
      Upheld(Run(EnvBeforeSpills(env, f), f.ops, f.targets, c, n), n, Run(env, g.ops, g.targets, Started(g, c), k), k)
  {
    hide Run, FunOk;
    assert Inside(f.ops, f.targets) by { FunInside(f, infos); }
    k := SpilledRuns(env, f, infos, c, n);
  }

  lemma LoweringUpholds<W(!new), M(!new)>(b: Build, env: Env<W, M>, f: Fun, infos: map<int, seq<ArgInfo>>, c: Cfg<W, M>, n: nat) returns (k: nat)
    requires SourceOk(b, f, infos) && c.pc == f.q && c.args == [] && (b.lowers.Some? ==> LongImm.FormsAgree(env))
    ensures var g := AfterLowering(b, f, infos);
      Upheld(Run(EnvBeforeLowering(b, env, f, infos), f.ops, f.targets, c, n), n, Run(env, g.ops, g.targets, Started(g, c), k), k)
  {
    hide Run, FunOk;
    assert Inside(f.ops, f.targets) by { FunInside(f, infos); }
    match b.lowers
    case Some(m) => k := LoweredRuns(env, m, f, infos, c, n);
    case None =>
      k := n;
      assert Started(f, c) == c;
  }

  lemma EnvFacts<W(!new), M(!new)>(b: Build, env: Env<W, M>, f: Fun, infos: map<int, seq<ArgInfo>>)
    requires SourceOk(b, f, infos)
    ensures var e := EnvBeforeRemoval(b, env, WithSpills(b, f, infos), infos);
      && (SpillList.SpillsSilent(env) ==> SpillList.SpillsSilent(e))
      && (LongImm.FormsAgree(env) ==> LongImm.FormsAgree(EnvBeforeSpills(e, AfterLowering(b, f, infos))))
  {
    hide FunOk, WithSpills, AfterLowering;
  }

  /** The passes before the flow analysis change no run. */
  lemma FrontUpholds<W(!new), M(!new)>(b: Build, env: Env<W, M>, f: Fun, infos: map<int, seq<ArgInfo>>, c: Cfg<W, M>, n: nat) returns (k: nat)
    requires SourceOk(b, f, infos) && c.pc == f.q && c.args == []
    requires SpillList.SpillsSilent(env) && (b.lowers.Some? ==> LongImm.FormsAgree(env))
    ensures var g := Prepared(b, f, infos);
      Upheld(Run(SourceEnv(b, env, f, infos), f.ops, f.targets, c, n), n, Run(env, g.ops, g.targets, Started(g, c), k), k)
  {
    hide Run, SourceOk, FunOk, Ready, Upheld, AfterRemoval, EnvBeforeRemoval, EnvBeforeSpills, EnvBeforeLowering, SpillList.SpillsSilent, LongImm.FormsAgree;
    EnvFacts(b, env, f, infos);
    var f1, f2, g := AfterLowering(b, f, infos), WithSpills(b, f, infos), Prepared(b, f, infos);
    var e2 := EnvBeforeRemoval(b, env, f2, infos);
    var e1 := EnvBeforeSpills(e2, f1);
    var k1 := LoweringUpholds(b, e1, f, infos, c, n);
    var k2 := SpillsUphold(e2, f1, infos, Started(f1, c), k1);
    RemovalUpholds(b, env, f2, infos, Started(f2, c), k2);
    var r0 := Run(SourceEnv(b, env, f, infos), f.ops, f.targets, c, n);
    var r1, r2 := Run(e1, f1.ops, f1.targets, Started(f1, c), k1), Run(e2, f2.ops, f2.targets, Started(f2, c), k2);
    var r3 := Run(env, g.ops, g.targets, Started(g, c), k2);
    UpheldOn(r0, n, r1, k1, r2, k2);
    UpheldOn(r0, n, r2, k2, r3, k2);
    k := k2;
  }

  // ---- The compiler ------------------------------------------------------------------------------

  /** The marks operations carry: those of the dead-code pass, or the ones they were
      created with. */
  ghost predicate Marked<W, M>(x: Setup<W, M>, b: Build, f: Fun)
    requires forall t :: t in f.targets ==> t < |f.ops|
  {
    if b.removes then
      forall i :: i in Survivors(f.ops) && Removal.Count(Survivors(f.ops), i) < |x.pr.sites| ==>
        x.pr.sites[Removal.Count(Survivors(f.ops), i)].inUse == (DeadCode.Reachable(f.ops, i) || DeadCode.IsDirective(f.ops[i].code))
    else
      forall i :: 0 <= i < |x.pr.sites| ==> x.pr.sites[i].inUse
  }

  /** The analyses the allocator relies on: of the list that was prepared, and again of
      the list after the passes if something was fused. */
  datatype Analyses = Analyses(sets: Flow.Sets, beyond: map<int, seq<set<int>>>, fused: bool, sets2: Flow.Sets, beyond2: map<int, seq<set<int>>>)
  {
    function Last(): Flow.Sets {
      if fused then sets2 else sets
    }
  }

  /** What `jit_generate_code` makes of the function: lists, marks, liveness and the
      allocated code. */
  ghost predicate Generated(b: Build, p: nat, f: Fun, x: Setup<int, StoreFold.Memory>, a: Analyses)
    requires SourceOk(b, f, x.pr.infos)
  {
    var g := Prepared(b, f, x.pr.infos);
    && x.pr.targets == g.targets && x.reach == Reach(g)
    && Inside(WithSpills(b, f, x.pr.infos).ops, WithSpills(b, f, x.pr.infos).targets) && Marked(x, b, WithSpills(b, f, x.pr.infos))
    && Analysed(g.ops, x.pr.infos, a.beyond, a.sets) && Relied(b.passes, x.env, p, g.ops, a.sets.out, x.reach)
    && SecondAnalysis(x, b.passes, g.ops, a.sets, a.fused, a.beyond2, a.sets2, g.q) && AllocatorRan(x)
  }

  /** The machine, and the two ways the run begins: at the PROLOG of the source and of
      the code. */
  ghost predicate Begins(b: Build, f: Fun, x: Setup<int, StoreFold.Memory>, a: Analyses,
                         c: Cfg<int, StoreFold.Memory>, hw: Hw<int, StoreFold.Memory>)
    requires SourceOk(b, f, x.pr.infos)
  {
    var g := Prepared(b, f, x.pr.infos);
    && SpillList.SpillsSilent(x.env) && (b.lowers.Some? ==> LongImm.FormsAgree(x.env))
    && c.pc == f.q && c.args == [] && AtStart(x, a.Last(), g.q, Started(g, c), hw)
  }

  /** The source, run on the machine that executes the code. */
  ghost function SourceRun(b: Build, f: Fun, x: Setup<int, StoreFold.Memory>, c: Cfg<int, StoreFold.Memory>, n: nat)
    : Result<Cfg<int, StoreFold.Memory>, int, StoreFold.Memory>
    requires SourceOk(b, f, x.pr.infos)
  {
    Run(SourceEnv(b, x.env, f, x.pr.infos), f.ops, f.targets, c, n)
  }

  /** A spill that a run can come to is marked as in use. */
  lemma ReachedSpillsInUse<W, M>(x: Setup<W, M>, b: Build, f: Fun, infos: map<int, seq<ArgInfo>>)
    requires FunOk(f, infos) && SpillsStand(f.ops, f.targets) && Inside(f.ops, f.targets) && Marked(x, b, f)
    requires x.reach == Reach(AfterRemoval(b, f, infos))
    ensures SpillsInUse(x)
  {
    hide FunOk, Ready, DeadCode.Reachable, Survivors, Reach, Layout.KeepOk, Removal.Count;
    if b.removes {
      Layout.SurvivorsOk(f.ops, infos, Survivors(f.ops)) by { FunShape(f, infos); }
      forall i: nat | i in x.reach && i < |x.pr.sites|
        ensures x.pr.sites[i].inUse
      {
        var j := KeptReach(f, infos, i);
        ReachIsReachable(f, infos);
      }
    }
  }

  lemma FunShape(f: Fun, infos: map<int, seq<ArgInfo>>)
    requires FunOk(f, infos)
    ensures ListShape(f.ops, infos) && Layout.PointsWell(f.ops)
  {
  }

  lemma PreparedRun(g: Fun, infos: map<int, seq<ArgInfo>>, beyond: map<int, seq<set<int>>>, s: Flow.Sets)
    requires Ready(g, infos) && Analysed(g.ops, infos, beyond, s)
    ensures AnalysedRun(g.ops, infos, g.targets, beyond, s, Reach(g), g.q) && SpillsStand(g.ops, g.targets) && |g.ops| == |s.out|
  {
    hide ListShape, Flow.ListOk, OwnRun, TakesTargets, Flow.AllExact;
  }

  /** Compiler correctness, for every function of a list and every build: whatever the
      source does in n steps, the code does in some number of steps. */
  lemma CodeDoesWhatSourceDoes(b: Build, p: nat, f: Fun, x: Setup<int, StoreFold.Memory>, a: Analyses,
                               c: Cfg<int, StoreFold.Memory>, hw: Hw<int, StoreFold.Memory>, n: nat) returns (m: nat)
    requires SourceOk(b, f, x.pr.infos) && Generated(b, p, f, x, a) && Begins(b, f, x, a, c, hw)
    ensures ProgOk(x.prog) && Upheld(SourceRun(b, f, x, c, n), n, HwRunOf(x, hw, m), m)
  {
    hide SourceOk, Prepared, WithSpills, SourceEnv, Marked, Relied, SecondAnalysis, AllocatorRan, AtStart, Ready, Analysed, Run, HwRunOf, Upheld, FunOk;
    hide SpillList.SpillsSilent, LongImm.FormsAgree;
    var infos, g := x.pr.infos, Prepared(b, f, x.pr.infos);
    var k := FrontUpholds(b, x.env, f, infos, c, n);
    PreparedRun(g, infos, a.beyond, a.sets);
    assert SpillsInUse(x) by { PreparedSpills(x, b, f); }
    m := FunctionCompiled(x, b.passes, p, g.ops, a.beyond, a.sets, a.fused, a.beyond2, a.sets2, g.q, Started(g, c), hw, k);
    UpheldOn(SourceRun(b, f, x, c, n), n, Run(x.env, g.ops, g.targets, Started(g, c), k), k, HwRunOf(x, hw, m), m);
  }

  lemma PreparedSpills<W, M>(x: Setup<W, M>, b: Build, f: Fun)
    requires SourceOk(b, f, x.pr.infos) && x.reach == Reach(Prepared(b, f, x.pr.infos))
    requires var g := WithSpills(b, f, x.pr.infos); Inside(g.ops, g.targets) && Marked(x, b, g)
    ensures SpillsInUse(x)
  {
    hide SourceOk, FunOk, Ready, Marked, SpillsInUse;
    ReachedSpillsInUse(x, b, WithSpills(b, f, x.pr.infos), x.pr.infos);
  }

  /** And what the code returns is what the source returns, if the source never gets
      stuck. */
  lemma CodeReturnsWhatSourceReturns(b: Build, p: nat, f: Fun, x: Setup<int, StoreFold.Memory>, a: Analyses,
                                     c: Cfg<int, StoreFold.Memory>, hw: Hw<int, StoreFold.Memory>, m: nat)
    requires SourceOk(b, f, x.pr.infos) && Generated(b, p, f, x, a) && Begins(b, f, x, a, c, hw)
    requires forall n :: SourceRun(b, f, x, c, n) != Stuck
    requires ProgOk(x.prog) && HwRunOf(x, hw, m).Done?
    ensures SourceRun(b, f, x, c, m + 1) == Done(HwRunOf(x, hw, m).value, HwRunOf(x, hw, m).mem)
  {
    hide SourceOk, Generated, Begins, SourceRun, HwRunOf;
    var k := CodeDoesWhatSourceDoes(b, p, f, x, a, c, hw, m + 1);
    assert SourceRun(b, f, x, c, m + 1) != Stuck;
    if k >= m {
      AllocTheorem.HwRunPersists(x, hw, m, k - m);
    } else {
      AllocTheorem.HwRunPersists(x, hw, k, m - k);
    }
  }
}
