/** Allocation preserves meaning: the run of a function over virtual registers and
    the run of its allocated form go through the same operations, with every
    live register where the map says, and return the same value. */
module AllocTheorem {
  import opened Ops
  import opened RegMap
  import opened RegAlloc
  import opened Machine
  import opened AllocMoves
  import opened EdgeRepair
  import opened Allocation
  import opened AllocSteps
  import opened AllocSim

  // ---- Operations with a rule of their own -----------------------------------------

  /** The operation of block i about to run. */
  ghost function CoreAt<W, M>(x: Setup<W, M>, i: nat): (n: Node)
    requires ProgramOk(x.p, x.pr) && i < |x.pr.sites|
    ensures n.Core? && |n.r| == 3
  {
    CoreOf(x.p, x.pr, i, AssignAt(x.p, x.pr, i).code, false)
  }

  ghost function BeforeCore<W, M>(x: Setup<W, M>, i: nat, s: Hw<W, M>): (u: Hw<W, M>)
    requires ProgramOk(x.p, x.pr) && i < |x.pr.sites|
    ensures u.block == s.block
  {
    var pre := AssignAt(x.p, x.pr, i).pre;
    ExecRegOps(pre, s).(index := |pre|)
  }

  /** What is to be shown about an operation that goes on to the next one. */
  ghost predicate GoesOn<W, M>(x: Setup<W, M>, i: nat, c: Cfg<W, M>, u: Hw<W, M>)
    requires ProgramOk(x.p, x.pr) && LivenessOk(x) && i < |x.pr.sites|
  {
    var rm, live := AssignAt(x.p, x.pr, i).rm, x.needOut[i];
    && Located(x.p, rm, live, c, u)
    && (x.pr.Op(i).code in {PREPARE, PUTARG} ==> CallOpen(x.p, rm, live, c, u))
    && (x.pr.Op(i).code == CALL ==> u.hw(x.p.ret.id) == c.ret)
  }

  /** The operation of a simple block falls through. */
  lemma Proceed<W(!new), M(!new)>(x: Setup<W, M>, i: nat, c: Cfg<W, M>, s: Hw<W, M>, c': Cfg<W, M>, u': Hw<W, M>) returns (m: nat)
    requires SetupOk(x) && Entry(x, i, c, s) && Simple(x.p, x.pr, i) && FallsThrough(x.pr.Op(i))
    requires StepOf(x, c) == Running(c'.(pc := i + 1))
    requires u'.block == i && u'.index == |AssignAt(x.p, x.pr, i).pre| + 1
    requires StepCore(x.env, x.p, x.prog, x.pr.targets, CoreAt(x, i), BeforeCore(x, i, s)) == Running(u')
    requires GoesOn(x, i, c', u')
    ensures m > 0 && StepMatches(x, StepOf(x, c), HwRunOf(x, s, m))
  {
    hide HwRunOf, StepOf, StepCore, StepMatches, AssignAt, Located, CallOpen, EntryAt, MapBefore, Block;
    hide WalksCover, MachineOk, NeedsOk, EdgesOk, SpillsInUse, SpillsCover, SitesOk, JumpsOk, NeighboursOk, TargetsOk, ProgOk;
    var k := |AssignAt(x.p, x.pr, i).pre| + 1;
    RunSimple(x, i, s);
    FinishSimple(x, i, c', s, k, u');
    m := k + 1;
    Conclude(x, c, s, m, c'.(pc := i + 1));
  }

  /** Operands in place, and read alike. */
  ghost predicate OperandsReady<W, M>(x: Setup<W, M>, i: nat, c: Cfg<W, M>, u: Hw<W, M>)
    requires ProgramOk(x.p, x.pr) && LivenessOk(x) && i < |x.pr.sites|
  {
    var n := CoreAt(x, i);
    && n.op == x.pr.Op(i) && u.block == i && u.index == |AssignAt(x.p, x.pr, i).pre|
    && OperandsPlaced(x.p, n.op, n.rm, n.r) && Located(x.p, n.rm, x.needIn[i], c, u)
    && HwVals(x.env, n, u) == VirtVals(x.env, n.op, c.regs)
  }

  lemma OrdinaryReady<W(!new), M(!new)>(x: Setup<W, M>, i: nat, c: Cfg<W, M>, s: Hw<W, M>)
    requires ProgramOk(x.p, x.pr) && LivenessOk(x) && Entry(x, i, c, s)
    requires Ordinary(x.pr.sites[i], x.pr.InfoAt(i), MapBefore(x.p, x.pr, i))
    ensures OperandsReady(x, i, c, BeforeCore(x, i, s)) && NeedAt(x.pr.sites[i], x.needIn[i], x.needOut[i])
  {
    hide AssignAt, HwVals, VirtVals, JumpsOk, TargetsOk, EdgesOk, NeighboursOk, MapBefore, Ordinary;
    OrdinaryAtCore(x, i, c, s);
    assert SiteOk(x.p, x.pr.sites[i]) && Shaped(x.pr.Op(i), x.pr.InfoAt(i)) && NeedAt(x.pr.sites[i], x.needIn[i], x.needOut[i]);
    ValsAgree(x.env, x.p, CoreAt(x, i), x.pr.Op(i), x.needIn[i], c, BeforeCore(x, i, s));
  }

  // What the two machines do, code by code.

  lemma StepNop<W(!new), M(!new)>(x: Setup<W, M>, c: Cfg<W, M>, n: Node, u: Hw<W, M>)
    requires c.pc < |x.pr.sites| && x.pr.Op(c.pc).code == NOP
    requires u.block < |x.prog| && n.Core? && |n.r| == 3 && n.op.code == NOP
    ensures StepOf(x, c) == Running(c.(pc := c.pc + 1))
    ensures StepCore(x.env, x.p, x.prog, x.pr.targets, n, u) == Running(u.(index := u.index + 1))
  {
  }

  lemma CoreRefCode<W(!new), M(!new)>(x: Setup<W, M>, n: Node, u: Hw<W, M>)
    requires u.block < |x.prog| && n.Core? && |n.r| == 3 && n.op.code == REF_CODE && n.op.jmp.Some?
    ensures StepCore(x.env, x.p, x.prog, x.pr.targets, n, u) ==
      Running(u.(index := u.index + 1, hw := Set(u.hw, n.r[0], x.env.address(n.op.jmp.value))))
  {
    hide HwVals, SigOf, GoTo, HwArgValues, AfterCall, HwAssigned;
  }

  lemma StepRefCode<W(!new), M(!new)>(x: Setup<W, M>, c: Cfg<W, M>, n: Node, u: Hw<W, M>)
    requires c.pc < |x.pr.sites| && x.pr.Op(c.pc).code == REF_CODE
    requires u.block < |x.prog| && n.Core? && |n.r| == 3 && n.op == x.pr.Op(c.pc)
    ensures n.op.jmp.None? ==> StepOf(x, c) == Stuck
    ensures n.op.jmp.Some? ==> var w := x.env.address(n.op.jmp.value);
      && StepOf(x, c) == Running(c.(pc := c.pc + 1, regs := Set(c.regs, n.op.a0, w)))
      && StepCore(x.env, x.p, x.prog, x.pr.targets, n, u) == Running(u.(index := u.index + 1, hw := Set(u.hw, n.r[0], w)))
  {
    hide StepCore, Step;
    RefCodeStep(x.env, x.pr.Ops(), x.pr.targets, c);
    if n.op.jmp.Some? {
      CoreRefCode(x, n, u);
    }
  }

  lemma RefCodeStep<W(!new), M(!new)>(env: Env<W, M>, ops: seq<Op>, targets: set<nat>, c: Cfg<W, M>)
    requires c.pc < |ops| && ops[c.pc].code == REF_CODE
    ensures var op := ops[c.pc];
      Step(env, ops, targets, c) ==
      if op.jmp.Some? then Running(c.(pc := c.pc + 1, regs := Set(c.regs, op.a0, env.address(op.jmp.value)))) else Stuck
  {
    hide VirtVals, SigOf, ArgValues, WriteBack;
  }

  lemma StepGetarg<W(!new), M(!new)>(x: Setup<W, M>, c: Cfg<W, M>, n: Node, u: Hw<W, M>)
    requires c.pc < |x.pr.sites| && x.pr.Op(c.pc).code == GETARG
    requires u.block < |x.prog| && n.Core? && |n.r| == 3 && n.op == x.pr.Op(c.pc)
    requires ValueOf(n.rm, u, ArgReg(n.op.a1)) == c.regs(ArgReg(n.op.a1))
    ensures var w := x.env.extend(n.op.a1, c.regs(ArgReg(n.op.a1)));
      && StepOf(x, c) == Running(c.(pc := c.pc + 1, regs := Set(c.regs, n.op.a0, w)))
      && StepCore(x.env, x.p, x.prog, x.pr.targets, n, u) == Running(u.(index := u.index + 1, hw := Set(u.hw, n.r[0], w)))
  {
  }

  lemma StepTakeOver<W(!new), M(!new)>(x: Setup<W, M>, c: Cfg<W, M>, n: Node, u: Hw<W, M>)
    requires c.pc < |x.pr.sites| && x.pr.Op(c.pc).code == GETARG
    requires u.block < |x.prog| && n.Core? && |n.r| == 3 && n.op.code == NOP
    requires var op := x.pr.Op(c.pc); x.env.extend(op.a1, c.regs(ArgReg(op.a1))) == c.regs(ArgReg(op.a1))
    ensures var op := x.pr.Op(c.pc); StepOf(x, c) == Running(c.(pc := c.pc + 1, regs := Set(c.regs, op.a0, c.regs(ArgReg(op.a1)))))
    ensures StepCore(x.env, x.p, x.prog, x.pr.targets, n, u) == Running(u.(index := u.index + 1))
  {
  }

  lemma SimNop<W(!new), M(!new)>(x: Setup<W, M>, i: nat, c: Cfg<W, M>, s: Hw<W, M>) returns (m: nat)
    requires SetupOk(x) && Entry(x, i, c, s) && x.pr.Op(i).code == NOP
    ensures m > 0 && StepMatches(x, StepOf(x, c), HwRunOf(x, s, m))
  {
    hide AssignAt, HwRunOf, JumpsOk, TargetsOk, EdgesOk, SpillsInUse, SpillsCover, NeedsOk, NeighboursOk, MapBefore, EntryAt, WalksCover, MachineOk, StepOf, StepCore, HwVals, VirtVals, Located;
    OrdinaryReady(x, i, c, s);
    var u := BeforeCore(x, i, s);
    assert Shaped(x.pr.Op(i), x.pr.InfoAt(i)) && x.pr.Op(i).Defs() == {};
    StepNop(x, c, CoreAt(x, i), u);
    LocatedLess(x.p, AssignAt(x.p, x.pr, i).rm, x.needIn[i], x.needOut[i], c, u);
    LocatedMoved(x.p, AssignAt(x.p, x.pr, i).rm, x.needOut[i], c, u, c.pc, i, u.index + 1);
    m := Proceed(x, i, c, s, c, u.(index := u.index + 1));
  }

  /** A return delivers the same value. */
  lemma SimRet<W(!new), M(!new)>(x: Setup<W, M>, i: nat, c: Cfg<W, M>, s: Hw<W, M>) returns (m: nat)
    requires SetupOk(x) && Entry(x, i, c, s) && x.pr.Op(i).code == RET
    ensures m > 0 && StepMatches(x, StepOf(x, c), HwRunOf(x, s, m))
  {
    hide AssignAt, HwRunOf, JumpsOk, TargetsOk, EdgesOk, SpillsInUse, SpillsCover, NeedsOk, SitesOk, NeighboursOk, MapBefore, EntryAt, WalksCover, MachineOk, HwVals, VirtVals;
    OrdinaryReady(x, i, c, s);
    RunSimple(x, i, s);
    m := |AssignAt(x.p, x.pr, i).pre| + 1;
  }

  /** Assigning the first operand. */
  lemma DefinesFirst<W(!new), M(!new)>(x: Setup<W, M>, i: nat, c: Cfg<W, M>, u: Hw<W, M>, w: W)
    requires ProgramOk(x.p, x.pr) && LivenessOk(x) && i < |x.pr.sites| && OperandsReady(x, i, c, u)
    requires NeedAt(x.pr.sites[i], x.needIn[i], x.needOut[i]) && x.pr.Op(i).code in {GETARG, REF_CODE}
    ensures Located(x.p, AssignAt(x.p, x.pr, i).rm, x.needOut[i], c.(regs := Set(c.regs, x.pr.Op(i).a0, w)),
                    u.(hw := Set(u.hw, CoreAt(x, i).r[0], w)))
  {
    hide AssignAt, Located, HwVals, VirtVals, JumpsOk, TargetsOk, EdgesOk, NeighboursOk;
    var op := x.pr.Op(i);
    assert SiteOk(x.p, x.pr.sites[i]) && Shaped(op, x.pr.InfoAt(i));
    DestinationMapped(op, 0);
    WriteLocated(x.p, AssignAt(x.p, x.pr, i).rm, x.needIn[i], x.needOut[i], op.a0, w, c, u);
  }

  /** An operation that assigns a value to its first operand and goes on. */
  lemma Define<W(!new), M(!new)>(x: Setup<W, M>, i: nat, c: Cfg<W, M>, s: Hw<W, M>, w: W) returns (m: nat)
    requires SetupOk(x) && Entry(x, i, c, s) && OperandsReady(x, i, c, BeforeCore(x, i, s))
    requires NeedAt(x.pr.sites[i], x.needIn[i], x.needOut[i]) && x.pr.Op(i).code in {GETARG, REF_CODE}
    requires StepOf(x, c) == Running(c.(pc := i + 1, regs := Set(c.regs, x.pr.Op(i).a0, w)))
    requires var u := BeforeCore(x, i, s);
      StepCore(x.env, x.p, x.prog, x.pr.targets, CoreAt(x, i), u) ==
      Running(u.(index := u.index + 1, hw := Set(u.hw, CoreAt(x, i).r[0], w)))
    ensures m > 0 && StepMatches(x, StepOf(x, c), HwRunOf(x, s, m))
  {
    hide AssignAt, StepOf, StepCore, StepMatches, HwRunOf, CoreAt, BeforeCore, JumpsOk, TargetsOk, EdgesOk, SpillsInUse, SpillsCover, NeedsOk, SitesOk;
    hide NeighboursOk, MapBefore, EntryAt, WalksCover, MachineOk, HwVals, VirtVals, Located, NeedAt;
    var u := BeforeCore(x, i, s);
    var c', u' := c.(regs := Set(c.regs, x.pr.Op(i).a0, w)), u.(hw := Set(u.hw, CoreAt(x, i).r[0], w));
    DefinesFirst(x, i, c, u, w);
    LocatedMoved(x.p, AssignAt(x.p, x.pr, i).rm, x.needOut[i], c', u', c.pc, i, u.index + 1);
    m := Proceed(x, i, c, s, c', u'.(index := u.index + 1));
  }

  /** The address of a code reference. */
  lemma SimRefCode<W(!new), M(!new)>(x: Setup<W, M>, i: nat, c: Cfg<W, M>, s: Hw<W, M>) returns (m: nat)
    requires SetupOk(x) && Entry(x, i, c, s) && x.pr.Op(i).code == REF_CODE
    ensures m > 0 && StepMatches(x, StepOf(x, c), HwRunOf(x, s, m))
  {
    hide AssignAt, HwRunOf, JumpsOk, TargetsOk, EdgesOk, SpillsInUse, SpillsCover, NeedsOk, SitesOk, NeighboursOk, MapBefore, EntryAt, WalksCover, MachineOk, StepOf, StepCore, HwVals, VirtVals, Located, NeedAt, TakesOver;
    OrdinaryReady(x, i, c, s);
    StepRefCode(x, c, CoreAt(x, i), BeforeCore(x, i, s));
    if x.pr.Op(i).jmp.Some? {
      m := Define(x, i, c, s, x.env.address(x.pr.Op(i).jmp.value));
    } else {
      m := 1;
    }
  }

  /** GETARG whose argument is needed again, or passed on the stack, or widened. */
  lemma SimGetarg<W(!new), M(!new)>(x: Setup<W, M>, i: nat, c: Cfg<W, M>, s: Hw<W, M>) returns (m: nat)
    requires SetupOk(x) && Entry(x, i, c, s) && x.pr.Op(i).code == GETARG
    requires !TakesOver(x.pr.sites[i], x.pr.InfoAt(i), MapBefore(x.p, x.pr, i))
    ensures m > 0 && StepMatches(x, StepOf(x, c), HwRunOf(x, s, m))
  {
    hide AssignAt, HwRunOf, JumpsOk, TargetsOk, EdgesOk, SpillsInUse, SpillsCover, NeedsOk, SitesOk, NeighboursOk, MapBefore, EntryAt, WalksCover, MachineOk, StepOf, StepCore, HwVals, VirtVals, Located, NeedAt, TakesOver, StepMatches;
    OrdinaryReady(x, i, c, s);
    ArgInPlace(x, i, c, BeforeCore(x, i, s));
    StepGetarg(x, c, CoreAt(x, i), BeforeCore(x, i, s));
    m := Define(x, i, c, s, x.env.extend(x.pr.Op(i).a1, c.regs(ArgReg(x.pr.Op(i).a1))));
  }

  lemma ArgInPlace<W(!new), M(!new)>(x: Setup<W, M>, i: nat, c: Cfg<W, M>, u: Hw<W, M>)
    requires ProgramOk(x.p, x.pr) && LivenessOk(x) && i < |x.pr.sites| && OperandsReady(x, i, c, u)
    requires NeedAt(x.pr.sites[i], x.needIn[i], x.needOut[i]) && x.pr.Op(i).code == GETARG
    ensures var g := ArgReg(x.pr.Op(i).a1); ValueOf(CoreAt(x, i).rm, u, g) == c.regs(g)
  {
    hide AssignAt, HwVals, VirtVals, JumpsOk, TargetsOk, EdgesOk, SpillsInUse, SpillsCover, NeedsOk, SitesOk, NeighboursOk;
    ArgRegNotAlias(x.pr.Op(i).a1);
  }

  /** GETARG that takes over the register its argument came in. */
  lemma SimTakeOver<W(!new), M(!new)>(x: Setup<W, M>, i: nat, c: Cfg<W, M>, s: Hw<W, M>) returns (m: nat)
    requires SetupOk(x) && Entry(x, i, c, s) && x.pr.Op(i).code == GETARG
    requires TakesOver(x.pr.sites[i], x.pr.InfoAt(i), MapBefore(x.p, x.pr, i))
    ensures m > 0 && StepMatches(x, StepOf(x, c), HwRunOf(x, s, m))
  {
    hide *;
    EntryInside(x, i, c, s);
    GetargGoesOn(x.pr.Op(i));
    PlainBlock(x, i, c, s);
    TakeOverSteps(x, i, c, s);
    TakeOverGoesOn(x, i, c, s);
    m := Proceed(x, i, c, s, ArgTaken(x, i, c), NextIndex(BeforeCore(x, i, s)));
  }

  /** The argument is where the assigned register now is. */
  function ArgTaken<W, M>(x: Setup<W, M>, i: nat, c: Cfg<W, M>): Cfg<W, M>
    requires i < |x.pr.sites|
  {
    c.(regs := Set(c.regs, x.pr.Op(i).a0, c.regs(ArgReg(x.pr.Op(i).a1))))
  }

  function NextIndex<W, M>(u: Hw<W, M>): Hw<W, M> {
    u.(index := u.index + 1)
  }

  lemma EntryInside<W(!new), M(!new)>(x: Setup<W, M>, i: nat, c: Cfg<W, M>, s: Hw<W, M>)
    requires SetupOk(x) && Entry(x, i, c, s)
    ensures i < |x.pr.sites|
  {
    hide ProgramOk, WalksCover, MachineOk, EntryAt;
  }

  lemma GetargGoesOn(op: Op)
    requires op.code == GETARG
    ensures !MayBranch(op.code) && FallsThrough(op)
  {
  }

  /** A block with an operation that is no jump has no repairs. */
  lemma PlainBlock<W(!new), M(!new)>(x: Setup<W, M>, i: nat, c: Cfg<W, M>, s: Hw<W, M>)
    requires SetupOk(x) && Entry(x, i, c, s) && !MayBranch(x.pr.Op(i).code) && FallsThrough(x.pr.Op(i))
    ensures i < |x.pr.sites| && ProgramOk(x.p, x.pr) && LivenessOk(x) && MachineOk(x) && Simple(x.p, x.pr, i)
    ensures var u := BeforeCore(x, i, s);
      c.pc == i && i < |x.prog| && NextIndex(u).block == i && NextIndex(u).index == |AssignAt(x.p, x.pr, i).pre| + 1 && u.block < |x.prog|
  {
    hide ProgramOk, LivenessOk, MachineOk, WalksCover, EntryAt, AssignAt, MapBefore, MapsAgree, Block, ProgOk, ExecRegOps;
  }

  lemma TakeOverSteps<W(!new), M(!new)>(x: Setup<W, M>, i: nat, c: Cfg<W, M>, s: Hw<W, M>)
    requires ProgramOk(x.p, x.pr) && LivenessOk(x) && MachineOk(x) && Entry(x, i, c, s) && x.pr.Op(i).code == GETARG
    requires TakesOver(x.pr.sites[i], x.pr.InfoAt(i), MapBefore(x.p, x.pr, i)) && i < |x.prog|
    ensures var u := BeforeCore(x, i, s);
      && u.block < |x.prog|
      && StepOf(x, c) == Running(ArgTaken(x, i, c).(pc := i + 1))
      && StepCore(x.env, x.p, x.prog, x.pr.targets, CoreAt(x, i), u) == Running(NextIndex(u))
  {
    hide ProgramOk, LivenessOk, MachineOk, EntryAt, AssignAt, MapBefore, StepOf, StepCore, Located, TakesOver, ArgReg, ExecRegOps;
    TakenOver(x, i, c, s);
    StepTakeOver(x, c, CoreAt(x, i), BeforeCore(x, i, s));
  }

  lemma TakeOverGoesOn<W(!new), M(!new)>(x: Setup<W, M>, i: nat, c: Cfg<W, M>, s: Hw<W, M>)
    requires ProgramOk(x.p, x.pr) && LivenessOk(x) && MachineOk(x) && Entry(x, i, c, s) && x.pr.Op(i).code == GETARG
    requires TakesOver(x.pr.sites[i], x.pr.InfoAt(i), MapBefore(x.p, x.pr, i))
    ensures GoesOn(x, i, ArgTaken(x, i, c), NextIndex(BeforeCore(x, i, s)))
  {
    hide JumpsOk, TargetsOk, EdgesOk, SpillsInUse, SpillsCover, NeedsOk, SitesOk, NeighboursOk, MapBefore, AssignAt, EntryAt, MachineOk, Located, TakesOver, PoolOk, ArgReg;
    TakenOver(x, i, c, s);
    var u := BeforeCore(x, i, s);
    LocatedMoved(x.p, AssignAt(x.p, x.pr, i).rm, x.needOut[i], ArgTaken(x, i, c), u, c.pc, u.block, u.index + 1);
  }

  lemma TakenOver<W(!new), M(!new)>(x: Setup<W, M>, i: nat, c: Cfg<W, M>, s: Hw<W, M>)
    requires ProgramOk(x.p, x.pr) && LivenessOk(x) && MachineOk(x) && Entry(x, i, c, s) && x.pr.Op(i).code == GETARG
    requires TakesOver(x.pr.sites[i], x.pr.InfoAt(i), MapBefore(x.p, x.pr, i))
    ensures var op, a, g := x.pr.Op(i), AssignAt(x.p, x.pr, i), ArgReg(x.pr.Op(i).a1);
      && a.pre == [] && a.code == NOP && x.env.extend(op.a1, c.regs(g)) == c.regs(g)
      && Located(x.p, a.rm, x.needOut[i], c.(regs := Set(c.regs, op.a0, c.regs(g))), BeforeCore(x, i, s))
  {
    hide JumpsOk, TargetsOk, EdgesOk, SpillsInUse, SpillsCover, NeedsOk, SitesOk, NeighboursOk, MapBefore, AssignAt, Located, MachineOk;
    var op, prev, g := x.pr.Op(i), MapBefore(x.p, x.pr, i), ArgReg(x.pr.Op(i).a1);
    TakeOverMap(x, i);
    ArgWhole(x, i, c.regs(g));
    ArgRegNotAlias(op.a1);
    DefsOfFirst(op);
    TakeOverLocated(x.p, prev, g, op.a0, x.needIn[i], x.needOut[i], c, s);
    LocatedMoved(x.p, AssignAt(x.p, x.pr, i).rm, x.needOut[i], c.(regs := Set(c.regs, op.a0, c.regs(g))), s, c.pc, i, 0);
  }

  lemma TakeOverMap<W(!new), M(!new)>(x: Setup<W, M>, i: nat)
    requires ProgramOk(x.p, x.pr) && LivenessOk(x) && i < |x.pr.sites| && i in x.reach && x.pr.Op(i).code == GETARG
    requires TakesOver(x.pr.sites[i], x.pr.InfoAt(i), MapBefore(x.p, x.pr, i))
    ensures var op, a, prev := x.pr.Op(i), AssignAt(x.p, x.pr, i), MapBefore(x.p, x.pr, i);
      && a.pre == [] && a.code == NOP && a.rm == Assoc(Unassoc(prev, ArgReg(op.a1)), op.a0, prev[ArgReg(op.a1)])
      && OperandsOk(op) && op.t0 == TREG && !IsAlias(op.a0) && NeedAt(x.pr.sites[i], x.needIn[i], x.needOut[i])
  {
    hide JumpsOk, TargetsOk, EdgesOk;
    var op := x.pr.Op(i);
    assert Shaped(op, x.pr.InfoAt(i)) && SiteOk(x.p, x.pr.sites[i]);
    DefsOfFirst(op);
  }

  lemma ArgWhole<W(!new), M(!new)>(x: Setup<W, M>, i: nat, w: W)
    requires ProgramOk(x.p, x.pr) && MachineOk(x) && i < |x.pr.sites| && i in x.reach && x.pr.Op(i).code == GETARG
    requires TakesOver(x.pr.sites[i], x.pr.InfoAt(i), MapBefore(x.p, x.pr, i))
    ensures x.env.extend(x.pr.Op(i).a1, w) == w
  {
    hide JumpsOk, TargetsOk, SitesOk, NeighboursOk, MapBefore, MapsAgree, Inverts;
  }

  lemma DefsOfFirst(op: Op)
    requires op.t1 != TREG && op.t2 != TREG
    ensures op.Defs() == if op.t0 == TREG then {op.a0} else {}
  {
    assert op.T(0) == op.t0 && op.T(1) == op.t1 && op.T(2) == op.t2;
    assert op.t0 == TREG ==> op.A(0) in op.Defs();
  }

  // ---- Calls ------------------------------------------------------------------------

  lemma StepPrepare<W(!new), M(!new)>(x: Setup<W, M>, c: Cfg<W, M>, n: Node, u: Hw<W, M>)
    requires c.pc < |x.pr.sites| && x.pr.Op(c.pc).code == PREPARE
    requires u.block < |x.prog| && n.Core? && |n.r| == 3 && n.op.code == PREPARE
    ensures StepOf(x, c) == Running(c.(pc := c.pc + 1, args := []))
    ensures StepCore(x.env, x.p, x.prog, x.pr.targets, n, u) == Running(u.(index := u.index + 1, args := [], argMap := n.rm))
  {
  }

  lemma StepPutarg<W(!new), M(!new)>(x: Setup<W, M>, c: Cfg<W, M>, n: Node, u: Hw<W, M>)
    requires c.pc < |x.pr.sites| && x.pr.Op(c.pc).code == PUTARG
    requires u.block < |x.prog| && n.Core? && |n.r| == 3 && n.op == x.pr.Op(c.pc)
    ensures StepOf(x, c) == Running(c.(pc := c.pc + 1, args := c.args + [PutargOperand(n.op)]))
    ensures StepCore(x.env, x.p, x.prog, x.pr.targets, n, u) == Running(u.(index := u.index + 1, args := u.args + [PutargOperand(n.op)]))
  {
  }

  lemma StepRetval<W(!new), M(!new)>(x: Setup<W, M>, c: Cfg<W, M>, n: Node, u: Hw<W, M>)
    requires c.pc < |x.pr.sites| && x.pr.Op(c.pc).code == RETVAL
    requires u.block < |x.prog| && n.Core? && |n.r| == 3 && n.op.code == RETVAL
    ensures StepOf(x, c) == Running(c.(pc := c.pc + 1, regs := Set(c.regs, x.pr.Op(c.pc).a0, c.ret)))
    ensures StepCore(x.env, x.p, x.prog, x.pr.targets, n, u) == Running(u.(index := u.index + 1))
  {
  }

  lemma StepCall<W(!new), M(!new)>(x: Setup<W, M>, c: Cfg<W, M>, n: Node, u: Hw<W, M>)
    requires c.pc < |x.pr.sites| && x.pr.Op(c.pc).code == CALL
    requires u.block < |x.prog| && n.Core? && |n.r| == 3 && n.op == x.pr.Op(c.pc)
    requires n.op.t0 == REG ==> ValueOf(n.rm, u, n.op.a0) == c.regs(n.op.a0)
    requires HwArgValues(x.env, u) == ArgValues(x.env, c) && u.mem == c.mem
    ensures var f, args := VirtVals(x.env, n.op, c.regs)[0], ArgValues(x.env, c);
      var result := x.env.call(f, args, c.mem);
      && StepOf(x, c) == Running(c.(pc := c.pc + 1, mem := result.1, ret := result.0))
      && StepCore(x.env, x.p, x.prog, x.pr.targets, n, u) ==
         Running(u.(index := u.index + 1, mem := result.1, hw := AfterCall(x.env, x.p, n, f, args, result.0, u)))
  {
    var f := if n.op.t0 == REG then ValueOf(n.rm, u, n.op.a0) else HwVals(x.env, n, u)[0];
    if n.op.t0 == REG {
      assert n.op.A(0) == n.op.a0;
      assert VirtVals(x.env, n.op, c.regs)[0] == c.regs(n.op.A(0));
    } else {
      assert HwVals(x.env, n, u)[0] == if n.op.jmp.Some? then x.env.address(n.op.jmp.value) else x.env.imm(n.op.a0);
      assert VirtVals(x.env, n.op, c.regs)[0] == if n.op.jmp.Some? then x.env.address(n.op.jmp.value) else x.env.imm(n.op.a0);
    }
  }

  /** PREPARE keeps every value live after it, clears the way for the arguments, and
      sees to it that what stays in the return register is stored too. */
  lemma SimPrepare<W(!new), M(!new)>(x: Setup<W, M>, i: nat, c: Cfg<W, M>, s: Hw<W, M>) returns (m: nat)
    requires SetupOk(x) && Entry(x, i, c, s) && x.pr.Op(i).code == PREPARE
    ensures m > 0 && StepMatches(x, StepOf(x, c), HwRunOf(x, s, m))
  {
    hide HwRunOf, JumpsOk, TargetsOk, EdgesOk, SpillsInUse, SpillsCover, NeedsOk, SitesOk, NeighboursOk, MapBefore, AssignAt, EntryAt, WalksCover, MachineOk, StepOf, StepCore, Located, CallOpen;
    PrepareReady(x, i, c, s);
    var u := BeforeCore(x, i, s);
    StepPrepare(x, c, CoreAt(x, i), u);
    m := Proceed(x, i, c, s, c.(args := []), u.(index := u.index + 1, args := [], argMap := AssignAt(x.p, x.pr, i).rm));
  }

  lemma PrepareReady<W(!new), M(!new)>(x: Setup<W, M>, i: nat, c: Cfg<W, M>, s: Hw<W, M>)
    requires ProgramOk(x.p, x.pr) && LivenessOk(x) && Entry(x, i, c, s) && x.pr.Op(i).code == PREPARE
    ensures var a, u := AssignAt(x.p, x.pr, i), BeforeCore(x, i, s);
      && a.code == PREPARE
      && GoesOn(x, i, c.(args := []), u.(index := u.index + 1, args := [], argMap := a.rm))
  {
    hide JumpsOk, TargetsOk, EdgesOk, SpillsInUse, SpillsCover, NeedsOk, SitesOk, NeighboursOk, AssignAt, MapBefore;
    var site, a := x.pr.sites[i], Alloc(MapBefore(x.p, x.pr, i), []);
    PrepareMap(x, i);
    LocatedLess(x.p, a.rm, x.needIn[i], x.needOut[i], c, s);
    PrepareTracks(x.p, site, a, x.needOut[i], c.regs, s);
  }

  lemma PrepareMap<W(!new), M(!new)>(x: Setup<W, M>, i: nat)
    requires ProgramOk(x.p, x.pr) && LivenessOk(x) && i < |x.pr.sites| && i in x.reach && x.pr.Op(i).code == PREPARE
    ensures var a, b := AssignAt(x.p, x.pr, i), PrepareRegistersForCall(x.p, x.pr.sites[i], Alloc(MapBefore(x.p, x.pr, i), []));
      && a.code == PREPARE && a.rm == b.rm && a.pre == b.pre
      && x.needOut[i] <= x.pr.sites[i].liveOut && x.needOut[i] <= x.needIn[i]
  {
    hide JumpsOk, TargetsOk, EdgesOk, AssignAt, MapBefore, SiteOk, PrepareRegistersForCall;
    var site := x.pr.sites[i];
    assert NeedAt(site, x.needIn[i], x.needOut[i]);
    AssignFollows(x.p, x.pr, i);
    DefsOfFirst(site.op);
    NoOperandsKeepsMap(x.p, site, PrepareRegistersForCall(x.p, site, Alloc(MapBefore(x.p, x.pr, i), [])));
  }

  lemma OwnRule<W(!new), M(!new)>(x: Setup<W, M>, i: nat)
    requires ProgramOk(x.p, x.pr) && LivenessOk(x) && i < |x.pr.sites| && i in x.reach && x.pr.Op(i).code in {PUTARG, CALL, RETVAL}
    ensures var op := x.pr.Op(i);
      && i > 0 && SiteOk(x.p, x.pr.sites[i])
      && NeedAt(x.pr.sites[i], x.needIn[i], x.needOut[i]) && LivenessAt(op, x.needIn[i], x.needOut[i])
      && op.Defs() == (if op.code == RETVAL then {op.a0} else {})
      && (op.code == RETVAL ==> x.pr.Op(i - 1).code == CALL && !IsAlias(op.a0))
  {
    hide JumpsOk, TargetsOk, EdgesOk;
    var site := x.pr.sites[i];
    assert SiteOk(x.p, site) && Shaped(site.op, x.pr.InfoAt(i)) && NeedAt(site, x.needIn[i], x.needOut[i]);
    DefsOfFirst(site.op);
  }

  /** The map of an operation that only takes over or gives up a register. */
  lemma SkipMap<W(!new), M(!new)>(x: Setup<W, M>, i: nat)
    requires ProgramOk(x.p, x.pr) && LivenessOk(x) && i < |x.pr.sites| && i in x.reach && x.pr.Op(i).code in {PUTARG, CALL, RETVAL}
    ensures var op, a, prev := x.pr.Op(i), AssignAt(x.p, x.pr, i), MapBefore(x.p, x.pr, i);
      && a.pre == [] && a.code == op.code
      && (op.code == PUTARG ==> a.rm == prev)
      && (op.code == CALL ==> a.rm == CallMap(x.p, prev))
      && (op.code == RETVAL ==> IsFree(prev, x.p.ret.id) && a.rm == Assoc(prev, op.a0, x.p.ret.id))
  {
    hide JumpsOk, TargetsOk, EdgesOk, SpillsInUse, SpillsCover, NeedsOk, SitesOk, NeighboursOk, AssignAt, MapBefore, SiteOk, Shaped;
    OwnRule(x, i);
    AssignFollows(x.p, x.pr, i);
  }

  lemma SimPutarg<W(!new), M(!new)>(x: Setup<W, M>, i: nat, c: Cfg<W, M>, s: Hw<W, M>) returns (m: nat)
    requires SetupOk(x) && Entry(x, i, c, s) && x.pr.Op(i).code == PUTARG
    ensures m > 0 && StepMatches(x, StepOf(x, c), HwRunOf(x, s, m))
  {
    hide HwRunOf, JumpsOk, TargetsOk, EdgesOk, SpillsInUse, SpillsCover, NeedsOk, SitesOk, NeighboursOk, MapBefore, AssignAt, WalksCover, MachineOk, StepOf, StepCore, Located, CallOpen, StepMatches, EntryAt, GoesOn, PoolOk, BeforeCore, Allocate;
    PutargReady(x, i, c, s);
    StepPutarg(x, c, CoreAt(x, i), s);
    var arg := [PutargOperand(x.pr.Op(i))];
    m := Proceed(x, i, c, s, c.(args := c.args + arg), s.(index := 1, args := s.args + arg));
  }

  lemma PutargReady<W(!new), M(!new)>(x: Setup<W, M>, i: nat, c: Cfg<W, M>, s: Hw<W, M>)
    requires ProgramOk(x.p, x.pr) && LivenessOk(x) && Entry(x, i, c, s) && x.pr.Op(i).code == PUTARG
    ensures var arg, a := [PutargOperand(x.pr.Op(i))], AssignAt(x.p, x.pr, i);
      && a.pre == [] && a.code == PUTARG && BeforeCore(x, i, s) == s
      && GoesOn(x, i, c.(args := c.args + arg), s.(index := 1, args := s.args + arg))
  {
    hide JumpsOk, TargetsOk, EdgesOk, SpillsInUse, SpillsCover, NeedsOk, SitesOk, NeighboursOk, MapBefore, AssignAt, Located, CallOpen;
    OwnRule(x, i);
    SkipMap(x, i);
    PutargOpen(x.p, x.pr.Op(i), AssignAt(x.p, x.pr, i).rm, x.needIn[i], x.needOut[i], c, s, 1);
  }

  /** The result is already where RETVAL maps its target. */
  lemma SimRetval<W(!new), M(!new)>(x: Setup<W, M>, i: nat, c: Cfg<W, M>, s: Hw<W, M>) returns (m: nat)
    requires SetupOk(x) && Entry(x, i, c, s) && x.pr.Op(i).code == RETVAL
    ensures m > 0 && StepMatches(x, StepOf(x, c), HwRunOf(x, s, m))
  {
    hide HwRunOf, JumpsOk, TargetsOk, EdgesOk, SpillsInUse, SpillsCover, NeedsOk, SitesOk, NeighboursOk, MapBefore, AssignAt, WalksCover, MachineOk, StepOf, StepCore, Located, CallOpen;
    OwnRule(x, i);
    SkipMap(x, i);
    var op := x.pr.Op(i);
    StepRetval(x, c, CoreAt(x, i), s);
    RetvalLocated(x.p, MapBefore(x.p, x.pr, i), op.a0, x.needIn[i], x.needOut[i], c, s, 1);
    m := Proceed(x, i, c, s, c.(regs := Set(c.regs, op.a0, c.ret)), s.(index := 1));
  }

  /** A call sees the same function and arguments, and loses no live value. */
  lemma SimCall<W(!new), M(!new)>(x: Setup<W, M>, i: nat, c: Cfg<W, M>, s: Hw<W, M>) returns (m: nat)
    requires SetupOk(x) && Entry(x, i, c, s) && x.pr.Op(i).code == CALL
    ensures m > 0 && StepMatches(x, StepOf(x, c), HwRunOf(x, s, m))
  {
    hide HwRunOf, JumpsOk, TargetsOk, EdgesOk, SpillsInUse, SpillsCover, NeedsOk, SitesOk, NeighboursOk, MapBefore, AssignAt, WalksCover, MachineOk, StepOf, StepCore, Located, CallOpen, AfterCall;
    OwnRule(x, i);
    SkipMap(x, i);
    var n := CoreAt(x, i);
    CallReady(x, i, c, s);
    StepCall(x, c, n, s);
    var f, args := VirtVals(x.env, n.op, c.regs)[0], ArgValues(x.env, c);
    var result := x.env.call(f, args, c.mem);
    CallLocated(x.env, x.p, n, x.needIn[i], x.needOut[i], f, args, result.0, result.1, c, s, 1);
    m := Proceed(x, i, c, s, c.(mem := result.1, ret := result.0),
                 s.(index := 1, mem := result.1, hw := AfterCall(x.env, x.p, n, f, args, result.0, s)));
  }

  lemma CallReady<W(!new), M(!new)>(x: Setup<W, M>, i: nat, c: Cfg<W, M>, s: Hw<W, M>)
    requires ProgramOk(x.p, x.pr) && LivenessOk(x) && Entry(x, i, c, s) && x.pr.Op(i).code == CALL
    ensures var n := CoreAt(x, i);
      && Located(x.p, n.rm, x.needIn[i], c, s) && IsFree(n.rm, x.p.ret.id)
      && (n.op.t0 == REG ==> ValueOf(n.rm, s, n.op.a0) == c.regs(n.op.a0))
      && HwArgValues(x.env, s) == ArgValues(x.env, c) && s.mem == c.mem
  {
    hide JumpsOk, TargetsOk, EdgesOk, SpillsInUse, SpillsCover, NeedsOk, SitesOk, NeighboursOk, MapBefore, AssignAt, HwArgValues, ArgValues;
    OwnRule(x, i);
    SkipMap(x, i);
    var op, prev := x.pr.Op(i), MapBefore(x.p, x.pr, i);
    CallMapLocated(x.p, prev, x.needIn[i], c, s);
    ArgsAgree(x.env, x.p, prev, x.needIn[i], c, s);
    if op.t0 == REG {
      assert op.T(0) == REG && op.A(0) in op.Uses();
    }
  }

  // ---- Jumps through a register -------------------------------------------------------

  lemma StepIndirect<W(!new), M(!new)>(x: Setup<W, M>, c: Cfg<W, M>, n: Node, u: Hw<W, M>)
    requires c.pc < |x.pr.sites| && x.pr.Op(c.pc).code == JMP && x.pr.Op(c.pc).mode != ImmForm
    requires u.block < |x.prog| && n.Core? && |n.r| == 3 && n.op == x.pr.Op(c.pc)
    requires HwVals(x.env, n, u) == VirtVals(x.env, n.op, c.regs)
    ensures match x.env.decode(VirtVals(x.env, n.op, c.regs)[0])
      case Some(t) =>
        if t in x.pr.targets then
          StepOf(x, c) == Running(c.(pc := t)) && StepCore(x.env, x.p, x.prog, x.pr.targets, n, u) == GoTo(x.prog, u, t)
        else StepOf(x, c) == Stuck
      case None => StepOf(x, c) == Stuck
  {
  }

  /** A jump through a register finds every live value in its slot, which is where
      the FULL_SPILL in front of each possible target leaves it. */
  lemma SimIndirect<W(!new), M(!new)>(x: Setup<W, M>, i: nat, c: Cfg<W, M>, s: Hw<W, M>) returns (m: nat)
    requires SetupOk(x) && Entry(x, i, c, s) && x.pr.Op(i).code == JMP && x.pr.Op(i).mode != ImmForm
    ensures m > 0 && StepMatches(x, StepOf(x, c), HwRunOf(x, s, m))
  {
    hide HwRunOf, JumpsOk, TargetsOk, EdgesOk, SpillsInUse, SpillsCover, NeedsOk, SitesOk, NeighboursOk, MapBefore, AssignAt, EntryAt, WalksCover, MachineOk, StepOf, StepCore, Located, GoTo, HwVals, VirtVals;
    IndirectReady(x, i, c, s);
    var n, u := CoreAt(x, i), BeforeCore(x, i, s);
    StepIndirect(x, c, n, u);
    RunSimple(x, i, s);
    m := |AssignAt(x.p, x.pr, i).pre| + 1;
    var target := x.env.decode(VirtVals(x.env, n.op, c.regs)[0]);
    if target.Some? && target.value in x.pr.targets {
      TargetLands(x, target.value);
      LandingBlock(x, target.value);
      IndirectArrival(x, i, target.value, c, u);
    }
  }

  lemma IndirectReady<W(!new), M(!new)>(x: Setup<W, M>, i: nat, c: Cfg<W, M>, s: Hw<W, M>)
    requires ProgramOk(x.p, x.pr) && LivenessOk(x) && Entry(x, i, c, s)
    requires x.pr.Op(i).code == JMP && x.pr.Op(i).mode != ImmForm
    ensures OperandsReady(x, i, c, BeforeCore(x, i, s)) && SlotsRight(x.needOut[i], c.regs, BeforeCore(x, i, s))
  {
    hide JumpsOk, TargetsOk, EdgesOk, HwVals, VirtVals, AssignAt, MapBefore, SitesOk;
    var site, prev := x.pr.sites[i], MapBefore(x.p, x.pr, i);
    IndirectMap(x, i);
    IndirectJumpStores(x.p, site, prev, x.needIn[i], c.regs, s);
    ValsAgree(x.env, x.p, CoreAt(x, i), site.op, x.needIn[i], c, BeforeCore(x, i, s));
  }

  lemma IndirectMap<W, M>(x: Setup<W, M>, i: nat)
    requires ProgramOk(x.p, x.pr) && LivenessOk(x) && i < |x.pr.sites| && i in x.reach
    requires x.pr.Op(i).code == JMP && x.pr.Op(i).mode != ImmForm
    ensures SiteOk(x.p, x.pr.sites[i]) && NeedAt(x.pr.sites[i], x.needIn[i], x.needOut[i]) && x.pr.Op(i).Defs() == {}
    ensures AssignAt(x.p, x.pr, i) == AssignOperands(x.p, x.pr.sites[i], SyncAll(x.p, x.pr.sites[i], Alloc(MapBefore(x.p, x.pr, i), []), |x.p.regs|))
  {
    hide JumpsOk, TargetsOk, EdgesOk, AssignAt, MapBefore;
    assert NeedAt(x.pr.sites[i], x.needIn[i], x.needOut[i]);
    AssignFollows(x.p, x.pr, i);
    DefsOfFirst(x.pr.Op(i));
  }

  lemma TargetLands<W, M>(x: Setup<W, M>, t: nat)
    requires ProgramOk(x.p, x.pr) && t in x.pr.targets
    ensures 0 < t && Lands(x.pr, t) && x.pr.Op(t - 1).code == FULL_SPILL
  {
    hide SitesOk, NeighboursOk, JumpsOk;
  }

  lemma IndirectArrival<W(!new), M(!new)>(x: Setup<W, M>, i: nat, t: nat, c: Cfg<W, M>, u: Hw<W, M>)
    requires ProgramOk(x.p, x.pr) && LivenessOk(x) && |x.prog| == |x.pr.sites|
    requires i < |x.pr.sites| && i in x.reach && x.pr.Op(i).code == JMP && x.pr.Op(i).mode != ImmForm
    requires t in x.pr.targets && Lands(x.pr, t) && CoreIndex(x.prog[t]) == 0
    requires OperandsReady(x, i, c, u) && SlotsRight(x.needOut[i], c.regs, u)
    ensures StepMatches(x, Running(c.(pc := t)), GoTo(x.prog, u, t))
  {
    hide JumpsOk, TargetsOk, NeedsOk, SitesOk, NeighboursOk, AssignAt, HwVals, VirtVals;
    assert Edge(x.pr, i, t);
    SpilledMap(x, t);
    JumpEntry(x, i, t, c.(pc := t), u);
  }

  /** Nothing that is live at a target of an indirect jump has a register there. */
  lemma SpilledMap<W(!new), M(!new)>(x: Setup<W, M>, t: nat)
    requires ProgramOk(x.p, x.pr) && LivenessOk(x) && t in x.pr.targets && t in x.reach
    ensures t < |x.pr.sites|
    ensures forall v :: v in AssignAt(x.p, x.pr, t).rm ==> v !in x.needIn[t]
  {
    hide SitesOk, JumpsOk, TargetsOk, AssignAt, NeedAt, SpillAll;
    TargetLands(x, t);
    LandingKeepsMap(x.p, x.pr, t);
    SpillMap(x, t - 1);
    FullSpillEmpties(x.p, x.pr.sites[t - 1], MapBefore(x.p, x.pr, t - 1));
  }

  lemma SpillMap<W, M>(x: Setup<W, M>, i: nat)
    requires ProgramOk(x.p, x.pr) && i < |x.pr.sites| && x.pr.Op(i).code == FULL_SPILL
    ensures AssignAt(x.p, x.pr, i).rm == SpillAll(x.p, x.pr.sites[i], Alloc(MapBefore(x.p, x.pr, i), []), |x.p.regs|).rm
  {
    hide SitesOk, JumpsOk, TargetsOk, AssignAt, MapBefore, SiteOk, Shaped;
    AssignFollows(x.p, x.pr, i);
  }

  // ---- Whole runs -----------------------------------------------------------------------

  /** Whatever the operation is. */
  lemma SimOp<W(!new), M(!new)>(x: Setup<W, M>, c: Cfg<W, M>, s: Hw<W, M>) returns (m: nat)
    requires SetupOk(x) && Entry(x, c.pc, c, s)
    ensures m > 0 && StepMatches(x, StepOf(x, c), HwRunOf(x, s, m))
  {
    hide HwRunOf, StepOf, StepMatches, AssignAt, MapBefore, EntryAt, MapsAgree, MachineOk, WalksCover, NeedsOk, EdgesOk, SpillsInUse, SpillsCover, SitesOk, NeighboursOk, JumpsOk, TargetsOk, TakesOver;
    var i, code := c.pc, x.pr.Op(c.pc).code;
    if code == NOP {
      m := SimNop(x, i, c, s);
    } else if code == RET {
      m := SimRet(x, i, c, s);
    } else if code == REF_CODE {
      m := SimRefCode(x, i, c, s);
    } else if code == PREPARE {
      m := SimPrepare(x, i, c, s);
    } else if code == PUTARG {
      m := SimPutarg(x, i, c, s);
    } else if code == CALL {
      m := SimCall(x, i, c, s);
    } else if code == RETVAL {
      m := SimRetval(x, i, c, s);
    } else if code == GETARG {
      if TakesOver(x.pr.sites[i], x.pr.InfoAt(i), MapBefore(x.p, x.pr, i)) {
        m := SimTakeOver(x, i, c, s);
      } else {
        m := SimGetarg(x, i, c, s);
      }
    } else if code == JMP {
      if x.pr.Op(i).mode == ImmForm {
        m := SimJump(x, i, c, s);
      } else {
        m := SimIndirect(x, i, c, s);
      }
    } else if IsCondBranch(code) && !MapsAgree(x.p, x.pr, i) {
      m := SimInverted(x, i, c, s);
    } else {
      m := SimCompute(x, i, c, s);
    }
  }

  /** One step of the function is some steps of its allocated form. */
  lemma SimStep<W(!new), M(!new)>(x: Setup<W, M>, c: Cfg<W, M>, s: Hw<W, M>) returns (m: nat)
    requires SetupOk(x) && Entry(x, c.pc, c, s)
    ensures m > 0 && Matches(x, StepOf(x, c), HwRunOf(x, s, m))
  {
    hide HwRunOf, StepOf, StepMatches, EntryAt, MachineOk, WalksCover, NeedsOk, SpillsInUse, SpillsCover, ProgramOk, Edge;
    m := SimOp(x, c, s);
    StepAlongEdge(x, c);
    var r := StepOf(x, c);
    if r.Running? && r.c.pc < |x.pr.sites| {
      assert x.pr.Op(r.c.pc).code != PROLOG;
      assert StepMatches(x, r, HwRunOf(x, s, m));
      ArrivedAt(x, r.c, HwRunOf(x, s, m));
    }
  }

  lemma ArrivedAt<W(!new), M(!new)>(x: Setup<W, M>, c: Cfg<W, M>, h: Result<Hw<W, M>, W, M>)
    requires ProgramOk(x.p, x.pr) && |x.needIn| == |x.needOut| == |x.pr.sites|
    requires StepMatches(x, Running(c), h) && c.pc < |x.pr.sites| && x.pr.Op(c.pc).code != PROLOG
    ensures h.Running? && Entry(x, c.pc, c, h.c)
  {
    hide ProgramOk;
  }

  ghost function RunOf<W(!new), M(!new)>(x: Setup<W, M>, c: Cfg<W, M>, n: nat): Result<Cfg<W, M>, W, M> {
    Run(x.env, x.pr.Ops(), x.pr.targets, c, n)
  }

  lemma RunOfSucc<W(!new), M(!new)>(x: Setup<W, M>, c: Cfg<W, M>, n: nat)
    ensures RunOf(x, c, n + 1) == match RunOf(x, c, n) case Running(d) => StepOf(x, d) case r => r
  {
  }

  lemma StepOffEnd<W(!new), M(!new)>(x: Setup<W, M>, c: Cfg<W, M>)
    requires c.pc >= |x.pr.sites|
    ensures StepOf(x, c) == Stuck
  {
  }

  lemma RunPersists<W(!new), M(!new)>(x: Setup<W, M>, c: Cfg<W, M>, n: nat, k: nat)
    requires !RunOf(x, c, n).Running?
    ensures RunOf(x, c, n + k) == RunOf(x, c, n)
  {
    if k > 0 {
      RunPersists(x, c, n, k - 1);
      RunOfSucc(x, c, n + k - 1);
    }
  }

  lemma HwRunPersists<W(!new), M(!new)>(x: Setup<W, M>, s: Hw<W, M>, n: nat, k: nat)
    requires ProgOk(x.prog) && !HwRunOf(x, s, n).Running?
    ensures HwRunOf(x, s, n + k) == HwRunOf(x, s, n)
  {
    if k > 0 {
      HwRunPersists(x, s, n, k - 1);
      assert n + k - 1 == n + (k - 1);
    }
  }

  /** Every run of the function is matched by a run of its allocated form: while it
      runs, each register that may still be needed is where the map of the
      operation reached says; when it returns, the same value and memory come back. */
  lemma {:induction false} AllocationPreservesMeaning<W(!new), M(!new)>(x: Setup<W, M>, c: Cfg<W, M>, s: Hw<W, M>, n: nat)
    returns (m: nat)
    requires SetupOk(x) && Entry(x, c.pc, c, s)
    ensures Matches(x, RunOf(x, c, n), HwRunOf(x, s, m))
    ensures RunOf(x, c, n).Running? ==> m >= n
  {
    hide SetupOk, Matches, RunOf, HwRunOf, Entry;
    if n == 0 {
      m := 0;
      MatchedAtFirst(x, c, s);
    } else {
      m := AllocationPreservesMeaning(x, c, s, n - 1);
      m := OneStepMore(x, c, s, n - 1, m);
    }
  }

  lemma MatchedAtFirst<W(!new), M(!new)>(x: Setup<W, M>, c: Cfg<W, M>, s: Hw<W, M>)
    requires SetupOk(x) && Entry(x, c.pc, c, s)
    ensures Matches(x, RunOf(x, c, 0), HwRunOf(x, s, 0))
  {
    hide EntryAt, MachineOk, WalksCover, NeedsOk, EdgesOk, SpillsInUse, SpillsCover, ProgramOk, ProgOk;
    RunNone(x, s);
  }

  /** One more step of the function. */
  lemma OneStepMore<W(!new), M(!new)>(x: Setup<W, M>, c: Cfg<W, M>, s: Hw<W, M>, n: nat, m: nat) returns (m': nat)
    requires SetupOk(x) && Matches(x, RunOf(x, c, n), HwRunOf(x, s, m)) && (RunOf(x, c, n).Running? ==> m >= n)
    ensures Matches(x, RunOf(x, c, n + 1), HwRunOf(x, s, m')) && (RunOf(x, c, n + 1).Running? ==> m' >= n + 1)
  {
    hide StepOf, RunOf, HwRunOf, Entry, MachineOk, WalksCover, NeedsOk, EdgesOk, SpillsInUse, SpillsCover, ProgramOk, ProgOk;
    m' := m;
    RunOfSucc(x, c, n);
    if RunOf(x, c, n).Running? {
      var d, t := RunOf(x, c, n).c, HwRunOf(x, s, m).c;
      if d.pc < |x.pr.sites| {
        var k := SimStep(x, d, t);
        RunAppend(x, s, m, t, k);
        m' := m + k;
      } else {
        StepOffEnd(x, d);
      }
    }
  }

  lemma RunNone<W(!new), M(!new)>(x: Setup<W, M>, s: Hw<W, M>)
    requires ProgOk(x.prog)
    ensures HwRunOf(x, s, 0) == Running(s)
  {
  }

  /** And the other way round: what the allocated form returns is what the function
      returns, as long as the function never gets stuck. */
  lemma AllocatedResultIsMeant<W(!new), M(!new)>(x: Setup<W, M>, c: Cfg<W, M>, s: Hw<W, M>, m: nat)
    requires SetupOk(x) && Entry(x, c.pc, c, s)
    requires forall n :: RunOf(x, c, n) != Stuck
    requires HwRunOf(x, s, m).Done?
    ensures RunOf(x, c, m) == Done(HwRunOf(x, s, m).value, HwRunOf(x, s, m).mem)
  {
    hide AssignAt, MapBefore, Entry, EntryAt, RunOf, HwRunOf, MachineOk, WalksCover, NeedsOk, EdgesOk, SpillsInUse, SpillsCover, SitesOk, NeighboursOk, JumpsOk, TargetsOk, ProgOk;
    var k := AllocationPreservesMeaning(x, c, s, m);
    assert RunOf(x, c, m) != Stuck;
    if k >= m {
      HwRunPersists(x, s, m, k - m);
    } else {
      HwRunPersists(x, s, k, m - k);
    }
  }
}
