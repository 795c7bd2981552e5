/** One operation of a function against its block of the allocated list: moves,
    the operation, and the repair of its edge. */
module AllocSim {
  import opened Ops
  import opened RegMap
  import opened RegAlloc
  import opened Machine
  import opened AllocMoves
  import opened EdgeRepair
  import opened Allocation
  import opened AllocSteps

  /** A function, its allocated form, and liveness: `needIn` and `needOut` are any
      sound liveness contained in the sets the allocator was given, and `reach`
      the operations that execution may come to. */
  datatype Setup<!W, !M> = Setup(env: Env<W, M>, p: Pool, pr: Program, prog: seq<seq<Node>>,
                                 needIn: seq<set<int>>, needOut: seq<set<int>>, reach: set<nat>)

  predicate Edge(pr: Program, i: nat, t: nat)
    requires i < |pr.sites|
  {
    var op := pr.Op(i);
    && t < |pr.sites|
    && ((FallsThrough(op) && t == i + 1) || (Jumps(op) && op.jmp == Some(t)) || (op.code == JMP && op.mode != ImmForm && t in pr.targets))
  }

  /** Sound liveness, as far as one operation is concerned. */
  ghost predicate NeedAt(s: Site, needIn: set<int>, needOut: set<int>) {
    && needIn <= s.liveIn && needOut <= s.liveOut
    && (s.op.code != PROLOG ==> LivenessAt(s.op, needIn, needOut))
    && (s.op.code == GETARG ==> ArgReg(s.op.a1) in needIn)
  }

  ghost predicate LivenessOk<W, M>(x: Setup<W, M>) {
    |x.needIn| == |x.needOut| == |x.pr.sites| && NeedsOk(x) && EdgesOk(x) && SpillsInUse(x) && SpillsCover(x)
  }

  /** A spill that execution can reach is marked as in use. */
  ghost predicate SpillsInUse<W, M>(x: Setup<W, M>) {
    forall i :: 0 <= i < |x.pr.sites| && i in x.reach && x.pr.Op(i).code == FULL_SPILL ==> x.pr.sites[i].inUse
  }

  /** A spill in front of a target sees all that is needed there. */
  ghost predicate SpillsCover<W, M>(x: Setup<W, M>)
    requires |x.needIn| == |x.pr.sites|
  {
    forall t: nat :: t in x.pr.targets && t in x.reach && 0 < t < |x.pr.sites| ==> x.needIn[t] <= x.pr.sites[t - 1].liveOut
  }

  ghost predicate NeedsOk<W, M>(x: Setup<W, M>)
    requires |x.needIn| == |x.needOut| == |x.pr.sites|
  {
    forall i: nat :: i in x.reach && i < |x.pr.sites| ==> NeedAt(x.pr.sites[i], x.needIn[i], x.needOut[i])
  }

  ghost predicate EdgesOk<W, M>(x: Setup<W, M>)
    requires |x.needIn| == |x.needOut| == |x.pr.sites|
  {
    forall i: nat, t: nat :: i in x.reach && i < |x.pr.sites| && Edge(x.pr, i, t) ==>
      t in x.reach && x.pr.Op(t).code != PROLOG && x.needIn[t] <= x.needOut[i]
  }

  /** Inverting a branch inverts its condition and changes nothing else. */
  ghost predicate Inverts<W(!new), M(!new)>(env: Env<W, M>, op: Op) {
    && SameComputation(env, op, Invert(op.code))
    && forall vals: seq<W>, m: M :: env.taken(SigOf(op.(code := Invert(op.code))), vals, m) == !env.taken(SigOf(op), vals, m)
  }

  /** A GETARG of an argument that fills a register. */
  predicate TakesWhole(pr: Program, i: nat)
    requires i < |pr.sites|
  {
    var op, info := pr.Op(i), pr.InfoAt(i);
    op.code == GETARG && 0 <= op.a1 < |info| && !info[op.a1].isFloat && info[op.a1].size == REG_SIZE
  }

  /** What is asked of the machine and of the branches.  BMS and BMC are not in
      `is_cond_branch_op`, so their edges are never repaired: the maps at their
      two ends must agree by themselves. */
  ghost predicate MachineOk<W(!new), M(!new)>(x: Setup<W, M>)
    requires ProgramOk(x.p, x.pr)
  {
    && (forall i :: 0 <= i < |x.pr.sites| && IsCondBranch(x.pr.Op(i).code) ==> Inverts(x.env, x.pr.Op(i)))
    && (forall i :: 0 <= i < |x.pr.sites| && x.pr.Op(i).code in {BMS, BMC} ==> MapsAgree(x.p, x.pr, i))
    && (forall i: nat, w: W :: i in x.reach && i < |x.pr.sites| && TakesWhole(x.pr, i) ==> x.env.extend(x.pr.Op(i).a1, w) == w)
  }

  ghost predicate SetupOk<W(!new), M(!new)>(x: Setup<W, M>) {
    && ProgramOk(x.p, x.pr) && WalksCover(x.p, x.pr) && LivenessOk(x) && MachineOk(x)
    && x.prog == Allocate(x.p, x.pr)
  }

  /** The hardware is about to start operation i, and so is the virtual machine. */
  ghost predicate Entry<W(!new), M(!new)>(x: Setup<W, M>, i: nat, c: Cfg<W, M>, s: Hw<W, M>)
    requires ProgramOk(x.p, x.pr) && |x.needIn| == |x.needOut| == |x.pr.sites|
  {
    && i < |x.pr.sites| && c.pc == i && s.block == i && s.index == 0 && i in x.reach
    && EntryAt(x.p, MapBefore(x.p, x.pr, i), x.pr.Op(i).code, if x.pr.Op(i).code == PROLOG then x.needOut[i] else x.needIn[i], c, s)
  }

  ghost predicate EntryAt<W, M>(p: Pool, rm: Rmap, code: Code, live: set<int>, c: Cfg<W, M>, s: Hw<W, M>) {
    && Located(p, rm, live, c, s)
    && (code in {PUTARG, CALL} ==> CallOpen(p, rm, live, c, s))
    && (code == RETVAL ==> s.hw(p.ret.id) == c.ret)
  }

  // ---- Running the allocated list -------------------------------------------------

  ghost function HwRunOf<W(!new), M(!new)>(x: Setup<W, M>, s: Hw<W, M>, n: nat): Result<Hw<W, M>, W, M>
    requires ProgOk(x.prog)
  {
    HwRun(x.env, x.p, x.prog, x.pr.targets, s, n)
  }

  lemma {:induction false} RunAppend<W(!new), M(!new)>(x: Setup<W, M>, s: Hw<W, M>, m: nat, t: Hw<W, M>, n: nat)
    requires ProgOk(x.prog) && HwRunOf(x, s, m) == Running(t)
    ensures HwRunOf(x, s, m + n) == HwRunOf(x, t, n)
  {
    if n > 0 {
      RunAppend(x, s, m, t, n - 1);
      assert m + n - 1 == m + (n - 1);
    }
  }

  lemma RunOneMove<W(!new), M(!new)>(x: Setup<W, M>, s: Hw<W, M>, init: seq<RegOp>, m: RegOp)
    requires ProgOk(x.prog) && s.block < |x.prog| && s.index + |init| < |x.prog[s.block]|
    requires x.prog[s.block][s.index + |init|] == Move(m)
    requires HwRunOf(x, s, |init|) == Running(ExecRegOps(init, s).(index := s.index + |init|)) && SameRest(s, ExecRegOps(init, s))
    ensures HwRunOf(x, s, |init| + 1) == Running(ExecRegOp(m, ExecRegOps(init, s)).(index := s.index + |init| + 1))
    ensures SameRest(s, ExecRegOp(m, ExecRegOps(init, s)))
  {
    hide ExecRegOps;
    var u := ExecRegOps(init, s);
    assert ExecRegOp(m, u.(index := s.index + |init|)).(index := s.index + |init| + 1) == ExecRegOp(m, u).(index := s.index + |init| + 1);
  }

  lemma {:induction false} RunMoves<W(!new), M(!new)>(x: Setup<W, M>, s: Hw<W, M>, ms: seq<RegOp>)
    requires ProgOk(x.prog) && s.block < |x.prog| && s.index + |ms| <= |x.prog[s.block]|
    requires forall k :: 0 <= k < |ms| ==> x.prog[s.block][s.index + k] == Move(ms[k])
    ensures HwRunOf(x, s, |ms|) == Running(ExecRegOps(ms, s).(index := s.index + |ms|))
    ensures SameRest(s, ExecRegOps(ms, s))
  {
    if ms != [] {
      var init, m := ms[..|ms| - 1], ms[|ms| - 1];
      RunMoves(x, s, init);
      RunOneMove(x, s, init, m);
    }
  }

  /** One step more. */
  lemma RunNode<W(!new), M(!new)>(x: Setup<W, M>, s: Hw<W, M>, k: nat, v: Hw<W, M>)
    requires ProgOk(x.prog) && HwRunOf(x, s, k) == Running(v) && v.block < |x.prog| && v.index < |x.prog[v.block]|
    ensures var n := x.prog[v.block][v.index];
      && (n.Jump? ==> HwRunOf(x, s, k + 1) == GoTo(x.prog, v, n.target))
      && (n.PatchHere? ==> HwRunOf(x, s, k + 1) == Running(v.(index := v.index + 1)))
      && (n.Core? ==> |n.r| == 3 && HwRunOf(x, s, k + 1) == StepCore(x.env, x.p, x.prog, x.pr.targets, n, v))
  {
    hide StepCore;
  }

  /** The moves in front of an operation, then the operation. */
  lemma RunToCore<W(!new), M(!new)>(x: Setup<W, M>, s: Hw<W, M>, ms: seq<RegOp>, core: Node, post: seq<Node>)
    requires ProgOk(x.prog) && s.block < |x.prog| && s.index == 0
    requires core.Core? && |core.r| == 3 && (forall k :: 0 <= k < |post| ==> !post[k].Core?)
    requires x.prog[s.block] == Framed(ms, core, post)
    ensures var u := ExecRegOps(ms, s).(index := |ms|);
      && SameRest(s, ExecRegOps(ms, s))
      && HwRunOf(x, s, |ms|) == Running(u)
      && HwRunOf(x, s, |ms| + 1) == StepCore(x.env, x.p, x.prog, x.pr.targets, core, u)
  {
    hide StepCore, HwRunOf, ProgOk, Framed;
    RunMoves(x, s, ms);
    RunNode(x, s, |ms|, ExecRegOps(ms, s).(index := |ms|));
  }

  lemma RunOffEnd<W(!new), M(!new)>(x: Setup<W, M>, s: Hw<W, M>)
    requires ProgOk(x.prog) && s.block < |x.prog| && s.index == |x.prog[s.block]|
    ensures HwRunOf(x, s, 1) == Running(s.(block := s.block + 1, index := 0))
  {
    assert HwRunOf(x, s, 0) == Running(s);
  }

  // ---- One operation at a time ------------------------------------------------------

  /** What the hardware has done when the virtual machine has done `r`. */
  ghost predicate Matches<W(!new), M(!new)>(x: Setup<W, M>, r: Result<Cfg<W, M>, W, M>, h: Result<Hw<W, M>, W, M>)
    requires ProgramOk(x.p, x.pr) && |x.needIn| == |x.needOut| == |x.pr.sites|
  {
    StepMatches(x, r, h) && (r.Running? && r.c.pc < |x.pr.sites| ==> h.Running? && Entry(x, r.c.pc, r.c, h.c))
  }

  /** The same, as long as control does not run into a PROLOG. */
  ghost predicate StepMatches<W(!new), M(!new)>(x: Setup<W, M>, r: Result<Cfg<W, M>, W, M>, h: Result<Hw<W, M>, W, M>)
    requires ProgramOk(x.p, x.pr) && |x.needIn| == |x.needOut| == |x.pr.sites|
  {
    match r
    case Running(c) => h.Running? && (c.pc < |x.pr.sites| && x.pr.Op(c.pc).code != PROLOG ==> Entry(x, c.pc, c, h.c))
    case Done(v, m) => h == Done(v, m)
    case Stuck => true
  }

  ghost function StepOf<W(!new), M(!new)>(x: Setup<W, M>, c: Cfg<W, M>): Result<Cfg<W, M>, W, M> {
    Step(x.env, x.pr.Ops(), x.pr.targets, c)
  }

  /** The two steps are what they are shown to be. */
  lemma Conclude<W(!new), M(!new)>(x: Setup<W, M>, c: Cfg<W, M>, s: Hw<W, M>, m: nat, c': Cfg<W, M>)
    requires ProgramOk(x.p, x.pr) && |x.needIn| == |x.needOut| == |x.pr.sites| && ProgOk(x.prog)
    requires StepOf(x, c) == Running(c') && StepMatches(x, Running(c'), HwRunOf(x, s, m))
    ensures StepMatches(x, StepOf(x, c), HwRunOf(x, s, m))
  {
  }

  /** A step goes along an edge. */
  lemma StepAlongEdge<W(!new), M(!new)>(x: Setup<W, M>, c: Cfg<W, M>)
    requires c.pc < |x.pr.sites|
    ensures var r := StepOf(x, c); r.Running? && r.c.pc < |x.pr.sites| ==> Edge(x.pr, c.pc, r.c.pc)
  {
    hide VirtVals, WriteBack, ArgValues, SigOf;
    assert x.pr.Ops()[c.pc] == x.pr.Op(c.pc);
  }

  /** The operation proper is about to run, its operands in place. */
  ghost predicate AtCore<W(!new), M(!new)>(x: Setup<W, M>, i: nat, live: set<int>, c: Cfg<W, M>, u: Hw<W, M>)
    requires ProgramOk(x.p, x.pr) && i < |x.pr.sites|
  {
    c.pc == i && u.block == i && Located(x.p, AssignAt(x.p, x.pr, i).rm, live, c, u)
  }

  /** Operations that only need registers for their operands. */
  predicate Ordinary(s: Site, info: seq<ArgInfo>, prev: Rmap) {
    && s.op.code !in {PROLOG, PREPARE, PUTARG, RETVAL, CALL, FULL_SPILL}
    && !(s.op.code == JMP && s.op.mode != ImmForm)
    && !(s.op.code == GETARG && TakesOver(s, info, prev))
  }

  lemma OrdinaryAtCore<W(!new), M(!new)>(x: Setup<W, M>, i: nat, c: Cfg<W, M>, s: Hw<W, M>)
    requires ProgramOk(x.p, x.pr) && LivenessOk(x) && Entry(x, i, c, s)
    requires Ordinary(x.pr.sites[i], x.pr.InfoAt(i), MapBefore(x.p, x.pr, i))
    ensures var a := AssignAt(x.p, x.pr, i);
      && OperandsPlaced(x.p, x.pr.Op(i), a.rm, a.r) && a.code == x.pr.Op(i).code
      && SameRest(s, ExecRegOps(a.pre, s))
      && AtCore(x, i, x.needIn[i], c, ExecRegOps(a.pre, s))
  {
    var site, prev := x.pr.sites[i], MapBefore(x.p, x.pr, i);
    assert SiteOk(x.p, site);
    assert AssignAt(x.p, x.pr, i) == AssignOperands(x.p, site, Alloc(prev, []));
    AssignOperandsTracks(x.p, site, Alloc(prev, []), x.needIn[i], c.regs, s);
  }

  /** PROLOG and FULL_SPILL keep what is live after them. */
  lemma QuietAtCore<W(!new), M(!new)>(x: Setup<W, M>, i: nat, c: Cfg<W, M>, s: Hw<W, M>)
    requires ProgramOk(x.p, x.pr) && LivenessOk(x) && Entry(x, i, c, s)
    requires x.pr.Op(i).code in {PROLOG, FULL_SPILL}
    ensures var a := AssignAt(x.p, x.pr, i);
      && a.code == x.pr.Op(i).code
      && SameRest(s, ExecRegOps(a.pre, s))
      && AtCore(x, i, x.needOut[i], c, ExecRegOps(a.pre, s))
  {
    var site, prev := x.pr.sites[i], MapBefore(x.p, x.pr, i);
    assert SiteOk(x.p, site) && Shaped(site.op, x.pr.InfoAt(i)) && NoRegisters(site.op);
    if site.op.code == PROLOG {
      LandingKeepsMap(x.p, x.pr, i);
    } else {
      assert site.op.Defs() == {} && NeedAt(site, x.needIn[i], x.needOut[i]);
      LocatedLess(x.p, prev, x.needIn[i], x.needOut[i], c, s);
      SpillAllTracks(x.p, site, Alloc(prev, []), |x.p.regs|, x.needOut[i], c.regs, s);
    }
  }

  /** Arrival at the next operation by falling through, when nothing special is
      known to hold there. */
  lemma FallEntry<W(!new), M(!new)>(x: Setup<W, M>, i: nat, c: Cfg<W, M>, s: Hw<W, M>)
    requires ProgramOk(x.p, x.pr) && LivenessOk(x) && i < |x.pr.sites| && FallsThrough(x.pr.Op(i)) && i in x.reach
    requires c.pc == i + 1 && s.block == i + 1 && s.index == 0
    requires Located(x.p, AssignAt(x.p, x.pr, i).rm, x.needOut[i], c, s)
    requires x.pr.Op(i).code in {PREPARE, PUTARG} ==> CallOpen(x.p, AssignAt(x.p, x.pr, i).rm, x.needOut[i], c, s)
    requires x.pr.Op(i).code == CALL ==> s.hw(x.p.ret.id) == c.ret
    ensures i + 1 < |x.pr.sites| && x.pr.Op(i + 1).code != PROLOG ==> Entry(x, i + 1, c, s)
  {
    hide AssignAt, SitesOk, JumpsOk, TargetsOk, NeedsOk, Located, CallOpen;
    if i + 1 < |x.pr.sites| && x.pr.Op(i + 1).code != PROLOG {
      assert Edge(x.pr, i, i + 1);
      var rm := AssignAt(x.p, x.pr, i).rm;
      LocatedLess(x.p, rm, x.needOut[i], x.needIn[i + 1], c, s);
      if x.pr.Op(i + 1).code in {PUTARG, CALL} {
        CallOpenLess(x.p, rm, x.needOut[i], x.needIn[i + 1], c, s);
      }
    }
  }

  lemma LandingBlock<W(!new), M(!new)>(x: Setup<W, M>, t: nat)
    requires SetupOk(x) && Lands(x.pr, t)
    ensures CoreIndex(x.prog[t]) == 0
  {
    LandingKeepsMap(x.p, x.pr, t);
    assert x.prog[t] == Block(x.p, x.pr, t);
    assert x.prog[t][0].Core?;
  }

  /** Arrival at a landing place by a jump whose edge is in order. */
  lemma JumpEntry<W(!new), M(!new)>(x: Setup<W, M>, i: nat, t: nat, c: Cfg<W, M>, s: Hw<W, M>)
    requires ProgramOk(x.p, x.pr) && LivenessOk(x) && |x.prog| == |x.pr.sites|
    requires i < |x.pr.sites| && Edge(x.pr, i, t) && Lands(x.pr, t) && i in x.reach
    requires CoreIndex(x.prog[t]) == 0
    requires c.pc == t && Located(x.p, AssignAt(x.p, x.pr, t).rm, x.needIn[t], c, s)
    ensures StepMatches(x, Running(c), GoTo(x.prog, s, t))
  {
    hide AssignAt, SitesOk, JumpsOk, TargetsOk, NeedsOk;
    LandingKeepsMap(x.p, x.pr, t);
    LandingCode(x.pr.Op(t).code);
    assert GoTo(x.prog, s, t) == Running(s.(block := t, index := 0));
  }

  lemma LandingCode(code: Code)
    requires IsLanding(code)
    ensures code !in {PUTARG, CALL, RETVAL, PROLOG}
  {
  }

  /** A block without repairs: moves, then the operation. */
  ghost predicate Simple(p: Pool, pr: Program, i: nat)
    requires ProgramOk(p, pr) && i < |pr.sites|
  {
    && !(pr.Op(i).code == JMP && pr.Op(i).mode == ImmForm)
    && (IsCondBranch(pr.Op(i).code) ==> MapsAgree(p, pr, i))
  }

  /** To the operation of a simple block and through it. */
  lemma RunSimple<W(!new), M(!new)>(x: Setup<W, M>, i: nat, s: Hw<W, M>)
    requires SetupOk(x) && i < |x.pr.sites| && Simple(x.p, x.pr, i) && s.block == i && s.index == 0
    ensures var a := AssignAt(x.p, x.pr, i);
      var core := CoreOf(x.p, x.pr, i, a.code, false);
      var u := ExecRegOps(a.pre, s).(index := |a.pre|);
      && SameRest(s, ExecRegOps(a.pre, s)) && u.block == i
      && |x.prog[i]| == |a.pre| + 1
      && HwRunOf(x, s, |a.pre| + 1) == StepCore(x.env, x.p, x.prog, x.pr.targets, core, u)
  {
    var a := AssignAt(x.p, x.pr, i);
    assert x.prog[i] == Block(x.p, x.pr, i);
    RunToCore(x, s, a.pre, CoreOf(x.p, x.pr, i, a.code, false), []);
  }

  /** After the operation of a simple block, on to the next block. */
  lemma FinishSimple<W(!new), M(!new)>(x: Setup<W, M>, i: nat, c: Cfg<W, M>, s: Hw<W, M>, m: nat, u: Hw<W, M>)
    requires ProgramOk(x.p, x.pr) && LivenessOk(x) && ProgOk(x.prog) && |x.prog| == |x.pr.sites|
    requires i < |x.pr.sites| && FallsThrough(x.pr.Op(i)) && i in x.reach
    requires HwRunOf(x, s, m) == Running(u) && u.block == i && u.index == |x.prog[i]|
    requires Located(x.p, AssignAt(x.p, x.pr, i).rm, x.needOut[i], c, u)
    requires x.pr.Op(i).code in {PREPARE, PUTARG} ==> CallOpen(x.p, AssignAt(x.p, x.pr, i).rm, x.needOut[i], c, u)
    requires x.pr.Op(i).code == CALL ==> u.hw(x.p.ret.id) == c.ret
    ensures StepMatches(x, Running(c.(pc := i + 1)), HwRunOf(x, s, m + 1))
  {
    hide HwRunOf, AssignAt, SitesOk, JumpsOk, NeighboursOk, TargetsOk, NeedsOk, EdgesOk, SpillsInUse, SpillsCover, ProgOk;
    RunOffEnd(x, u);
    RunAppend(x, s, m, u, 1);
    LocatedMoved(x.p, AssignAt(x.p, x.pr, i).rm, x.needOut[i], c, u, i + 1, i + 1, 0);
    FallEntry(x, i, c.(pc := i + 1), u.(block := i + 1, index := 0));
  }

  // ---- The kinds of operation ------------------------------------------------------

  /** Does the virtual machine take the branch it is at? */
  ghost predicate Taken<W(!new), M(!new)>(x: Setup<W, M>, c: Cfg<W, M>)
    requires c.pc < |x.pr.sites|
  {
    var op := x.pr.Op(c.pc);
    x.env.taken(SigOf(op), VirtVals(x.env, op, c.regs), c.mem)
  }

  /** The virtual machine at an operation that computes. */
  lemma StepComputes<W(!new), M(!new)>(x: Setup<W, M>, c: Cfg<W, M>)
    requires c.pc < |x.pr.sites| && var op := x.pr.Op(c.pc); Computes(op.code) && (MayBranch(op.code) ==> op.jmp.Some?)
    ensures var op := x.pr.Op(c.pc); var c2 := Computed(x.env, op, c);
      StepOf(x, c) == Running(c2.(pc := if MayBranch(op.code) && Taken(x, c) then op.jmp.value else c.pc + 1))
  {
  }

  /** The hardware at the same operation, left alone. */
  lemma HwStepComputes<W(!new), M(!new)>(x: Setup<W, M>, c: Cfg<W, M>, n: Node, u: Hw<W, M>)
    requires ProgOk(x.prog) && c.pc < |x.pr.sites| && u.block < |x.prog| && Computes(x.pr.Op(c.pc).code)
    requires n.Core? && |n.r| == 3 && n.op == x.pr.Op(c.pc) && !n.toPatch && (MayBranch(n.op.code) ==> n.op.jmp.Some?)
    requires HwVals(x.env, n, u) == VirtVals(x.env, n.op, c.regs) && u.mem == c.mem
    ensures var u2 := HwComputed(x.env, n, u).(index := u.index + 1);
      StepCore(x.env, x.p, x.prog, x.pr.targets, n, u) ==
      if MayBranch(n.op.code) && Taken(x, c) then GoTo(x.prog, u2, n.op.jmp.value) else Running(u2)
  {
  }

  lemma ComputesGoesOn(op: Op)
    requires Computes(op.code)
    ensures FallsThrough(op) && op.code !in {PREPARE, PUTARG, CALL}
  {
  }

  /** ALU operations, loads, stores, markers, and branches that were left alone. */
  lemma SimCompute<W(!new), M(!new)>(x: Setup<W, M>, i: nat, c: Cfg<W, M>, s: Hw<W, M>) returns (m: nat)
    requires SetupOk(x) && Entry(x, i, c, s) && Computes(x.pr.Op(i).code) && Simple(x.p, x.pr, i)
    ensures m > 0 && StepMatches(x, StepOf(x, c), HwRunOf(x, s, m))
  {
    hide HwRunOf, StepOf, StepMatches, AssignAt, Located, Computed, GoTo, Taken, EntryAt, MapBefore, Block, Allocate, IsCondBranch, MayBranch, MapsAgree;
    hide WalksCover, MachineOk, NeedsOk, EdgesOk, SpillsInUse, SpillsCover, SitesOk, JumpsOk, NeighboursOk, TargetsOk, CallOpen, ProgOk, Simple, Computes, FallsThrough;
    var op, k := x.pr.Op(i), |AssignAt(x.p, x.pr, i).pre| + 1;
    ComputesGoesOn(op);
    var v := ComputeRun(x, i, c, s);
    StepComputes(x, c);
    var c2 := Computed(x.env, op, c);
    if MayBranch(op.code) && Taken(x, c) {
      AgreeingEdge(x, i, c2, v);
      m := k;
    } else {
      FinishSimple(x, i, c2, s, k, v);
      m := k + 1;
    }
    Conclude(x, c, s, m, c2.(pc := if MayBranch(op.code) && Taken(x, c) then op.jmp.value else i + 1));
  }

  lemma ComputeRun<W(!new), M(!new)>(x: Setup<W, M>, i: nat, c: Cfg<W, M>, s: Hw<W, M>) returns (v: Hw<W, M>)
    requires SetupOk(x) && Entry(x, i, c, s) && Computes(x.pr.Op(i).code) && Simple(x.p, x.pr, i)
    ensures var op, a := x.pr.Op(i), AssignAt(x.p, x.pr, i);
      && v.block == i && v.index == |x.prog[i]| && Located(x.p, a.rm, x.needOut[i], Computed(x.env, op, c), v)
      && (MayBranch(op.code) ==> op.jmp.Some?)
      && HwRunOf(x, s, |a.pre| + 1) == if MayBranch(op.code) && Taken(x, c) then GoTo(x.prog, v, op.jmp.value) else Running(v)
  {
    hide HwRunOf, StepOf, StepCore, AssignAt, GoTo, MapBefore, EntryAt, Block, WriteBack, HwAssigned;
    hide WalksCover, MachineOk, NeedsOk, EdgesOk, SpillsInUse, SpillsCover, SitesOk, JumpsOk, NeighboursOk, TargetsOk, CallOpen, Taken, VirtVals, HwVals, ProgOk, Located;
    var op, a := x.pr.Op(i), AssignAt(x.p, x.pr, i);
    var u := ExecRegOps(a.pre, s).(index := |a.pre|);
    var core := CoreOf(x.p, x.pr, i, a.code, false);
    RunSimple(x, i, s);
    ComputeAtCore(x, i, c, s);
    assert core.op == op;
    HwStepComputes(x, c, core, u);
    v := HwComputed(x.env, core, u).(index := u.index + 1);
    LocatedMoved(x.p, a.rm, x.needOut[i], Computed(x.env, op, c), HwComputed(x.env, core, u), c.pc, i, u.index + 1);
  }

  /** A taken branch between agreeing maps. */
  lemma AgreeingEdge<W(!new), M(!new)>(x: Setup<W, M>, i: nat, c: Cfg<W, M>, u: Hw<W, M>)
    requires SetupOk(x) && i < |x.pr.sites| && MayBranch(x.pr.Op(i).code) && Simple(x.p, x.pr, i) && i in x.reach
    requires Located(x.p, AssignAt(x.p, x.pr, i).rm, x.needOut[i], c, u)
    ensures var t := x.pr.Op(i).jmp.value; StepMatches(x, Running(c.(pc := t)), GoTo(x.prog, u, t))
  {
    hide StepMatches, GoTo, SitesOk, NeighboursOk, TargetsOk, NeedsOk, EdgesOk, SpillsInUse, SpillsCover, AssignAt, Located, WalksCover, MapsAgree, PoolOk, Inverts;
    var t := x.pr.Op(i).jmp.value;
    assert Jumps(x.pr.Op(i));
    assert Lands(x.pr, t) && MapsAgree(x.p, x.pr, i);
    LandingBlock(x, t);
    AgreeingEntry(x, i, t, c, u);
  }

  lemma AgreeingEntry<W(!new), M(!new)>(x: Setup<W, M>, i: nat, t: nat, c: Cfg<W, M>, u: Hw<W, M>)
    requires ProgramOk(x.p, x.pr) && LivenessOk(x) && |x.prog| == |x.pr.sites|
    requires i < |x.pr.sites| && Edge(x.pr, i, t) && Jumps(x.pr.Op(i)) && Lands(x.pr, t) && i in x.reach
    requires t == x.pr.Op(i).jmp.value && MapsAgree(x.p, x.pr, i) && CoreIndex(x.prog[t]) == 0
    requires Located(x.p, AssignAt(x.p, x.pr, i).rm, x.needOut[i], c, u)
    ensures StepMatches(x, Running(c.(pc := t)), GoTo(x.prog, u, t))
  {
    var rm, rm' := AssignAt(x.p, x.pr, i).rm, AssignAt(x.p, x.pr, t).rm;
    assert x.needIn[t] <= x.needOut[i] && NeedAt(x.pr.sites[t], x.needIn[t], x.needOut[t]);
    EqualMapsNeedNoRepair(rm, rm', x.pr.sites[t].liveIn, x.needIn[t], c.regs, u);
    JumpEntry(x, i, t, c.(pc := t), u);
  }

  /** Operation i, perhaps with another code, computes on the hardware what it
      computes on the virtual machine. */
  ghost predicate ComputesAlike<W(!new), M(!new)>(x: Setup<W, M>, i: nat, core: Node, c: Cfg<W, M>, u: Hw<W, M>)
    requires ProgramOk(x.p, x.pr) && i < |x.pr.sites| && i < |x.needOut| && core.Core? && |core.r| == 3
  {
    && HwVals(x.env, core, u) == VirtVals(x.env, x.pr.Op(i), c.regs) && u.mem == c.mem && u.block == i
    && Located(x.p, AssignAt(x.p, x.pr, i).rm, x.needOut[i], Computed(x.env, x.pr.Op(i), c), HwComputed(x.env, core, u))
  }

  /** The computation proper of a simple block. */
  lemma ComputeAtCore<W(!new), M(!new)>(x: Setup<W, M>, i: nat, c: Cfg<W, M>, s: Hw<W, M>)
    requires ProgramOk(x.p, x.pr) && LivenessOk(x) && Entry(x, i, c, s) && Computes(x.pr.Op(i).code)
    ensures var op, a := x.pr.Op(i), AssignAt(x.p, x.pr, i);
      && a.code == op.code && (MayBranch(op.code) ==> op.jmp.Some?)
      && ComputesAlike(x, i, CoreOf(x.p, x.pr, i, a.code, false), c, ExecRegOps(a.pre, s).(index := |a.pre|))
  {
    hide AssignAt, JumpsOk, TargetsOk, EdgesOk, SpillsInUse, SpillsCover, NeedsOk, Located, ComputesAlike, EntryAt, NeighboursOk, MapBefore;
    assert Shaped(x.pr.Op(i), x.pr.InfoAt(i));
    if x.pr.Op(i).code in {PROLOG, FULL_SPILL} {
      QuietCompute(x, i, c, s);
    } else {
      OrdinaryCompute(x, i, c, s);
    }
  }

  lemma OrdinaryCompute<W(!new), M(!new)>(x: Setup<W, M>, i: nat, c: Cfg<W, M>, s: Hw<W, M>)
    requires ProgramOk(x.p, x.pr) && LivenessOk(x) && Entry(x, i, c, s)
    requires Computes(x.pr.Op(i).code) && x.pr.Op(i).code !in {PROLOG, FULL_SPILL}
    ensures var a := AssignAt(x.p, x.pr, i);
      && a.code == x.pr.Op(i).code
      && ComputesAlike(x, i, CoreOf(x.p, x.pr, i, a.code, false), c, ExecRegOps(a.pre, s).(index := |a.pre|))
  {
    hide AssignAt, Computed, HwComputed, HwVals, VirtVals, JumpsOk, TargetsOk, SitesOk, NeedsOk, EdgesOk, SpillsInUse, SpillsCover, NeighboursOk, MapBefore, HintsExact, EntryAt;
    var op, a := x.pr.Op(i), AssignAt(x.p, x.pr, i);
    OpFacts(x, i);
    OrdinaryAtCore(x, i, c, s);
    OrdinaryComputes(x.env, x.p, CoreOf(x.p, x.pr, i, a.code, false), op, x.needIn[i], x.needOut[i], c,
                     ExecRegOps(a.pre, s).(index := |a.pre|));
  }

  lemma QuietCompute<W(!new), M(!new)>(x: Setup<W, M>, i: nat, c: Cfg<W, M>, s: Hw<W, M>)
    requires ProgramOk(x.p, x.pr) && LivenessOk(x) && Entry(x, i, c, s)
    requires x.pr.Op(i).code in {PROLOG, FULL_SPILL}
    ensures var a := AssignAt(x.p, x.pr, i);
      && a.code == x.pr.Op(i).code
      && ComputesAlike(x, i, CoreOf(x.p, x.pr, i, a.code, false), c, ExecRegOps(a.pre, s).(index := |a.pre|))
  {
    hide AssignAt, Computed, HwComputed, HwVals, VirtVals, JumpsOk, TargetsOk, EdgesOk, NeighboursOk, MapBefore;
    var op, a := x.pr.Op(i), AssignAt(x.p, x.pr, i);
    assert Shaped(op, x.pr.InfoAt(i));
    QuietAtCore(x, i, c, s);
    QuietComputes(x.env, x.p, CoreOf(x.p, x.pr, i, a.code, false), op, x.needOut[i], c, ExecRegOps(a.pre, s).(index := |a.pre|));
  }

  lemma OrdinaryComputes<W(!new), M(!new)>(env: Env<W, M>, p: Pool, n: Node, op: Op,
                                           needIn: set<int>, needOut: set<int>, c: Cfg<W, M>, u: Hw<W, M>)
    requires PoolOk(p) && OperandsOk(op) && n.Core? && n.op == op && OperandsPlaced(p, op, n.rm, n.r)
    requires op.t1 == REG && DestPos(op) == Some(1) ==> !IsAlias(op.a1)
    requires LivenessAt(op, needIn, needOut) && Located(p, n.rm, needIn, c, u)
    ensures HwVals(env, n, u) == VirtVals(env, op, c.regs)
    ensures Located(p, n.rm, needOut, Computed(env, op, c), HwComputed(env, n, u))
  {
    hide Computed, HwComputed, HwVals, VirtVals, Located;
    assert op.(code := n.op.code) == op;
    ValsAgree(env, p, n, op, needIn, c, u);
    ComputeLocated(env, p, n, op, needIn, needOut, c, u);
  }

  lemma QuietComputes<W(!new), M(!new)>(env: Env<W, M>, p: Pool, n: Node, op: Op, live: set<int>, c: Cfg<W, M>, u: Hw<W, M>)
    requires n.Core? && |n.r| == 3 && n.op == op && NoRegisters(op) && op.code in {PROLOG, FULL_SPILL}
    requires Located(p, n.rm, live, c, u)
    ensures HwVals(env, n, u) == VirtVals(env, op, c.regs)
    ensures Located(p, n.rm, live, Computed(env, op, c), HwComputed(env, n, u))
  {
    assert op.T(0) == op.t0 && op.T(1) == op.t1 && op.T(2) == op.t2;
  }

  /** The repair of an edge establishes the map of its target. */
  lemma RepairedEdge<W(!new), M(!new)>(x: Setup<W, M>, i: nat, c: Cfg<W, M>, u: Hw<W, M>)
    requires ProgramOk(x.p, x.pr) && LivenessOk(x) && WalksCover(x.p, x.pr) && i < |x.pr.sites| && i in x.reach && Jumps(x.pr.Op(i))
    requires Located(x.p, AssignAt(x.p, x.pr, i).rm, x.needOut[i], c, u)
    ensures var t := x.pr.Op(i).jmp.value; var v := ExecRegOps(Repair(x.p, x.pr, i), u);
      Lands(x.pr, t) && Located(x.p, AssignAt(x.p, x.pr, t).rm, x.needIn[t], c, v) && SameRest(u, v)
  {
    var t := x.pr.Op(i).jmp.value;
    assert Lands(x.pr, t) && Edge(x.pr, i, t);
    assert NeedAt(x.pr.sites[t], x.needIn[t], x.needOut[t]) && NeedAt(x.pr.sites[i], x.needIn[i], x.needOut[i]);
    EdgeRepaired(x.p, x.pr.order(i).0, x.pr.order(i).1, AssignAt(x.p, x.pr, i).rm, AssignAt(x.p, x.pr, t).rm,
                 x.pr.sites[i].liveOut, x.pr.sites[t].liveIn, x.needIn[t], c.regs, u);
  }

  /** A direct jump. */
  lemma SimJump<W(!new), M(!new)>(x: Setup<W, M>, i: nat, c: Cfg<W, M>, s: Hw<W, M>) returns (m: nat)
    requires SetupOk(x) && Entry(x, i, c, s) && x.pr.Op(i).code == JMP && x.pr.Op(i).mode == ImmForm
    ensures m > 0 && StepMatches(x, StepOf(x, c), HwRunOf(x, s, m))
  {
    hide AssignAt, Repair, NeighboursOk, TargetsOk, NeedsOk, EdgesOk, SpillsInUse, SpillsCover, WalksCover, MachineOk, Located, MapBefore;
    var op, a, t := x.pr.Op(i), AssignAt(x.p, x.pr, i), x.pr.Op(i).jmp.value;
    var ms := a.pre + Repair(x.p, x.pr, i);
    var core := CoreOf(x.p, x.pr, i, JMP, false);
    assert x.prog[i] == Block(x.p, x.pr, i);
    RunToCore(x, s, ms, core, []);
    JumpAtCore(x, i, c, s);
    LandingBlock(x, t);
    LocatedMoved(x.p, AssignAt(x.p, x.pr, t).rm, x.needIn[t], c, ExecRegOps(ms, s), t, i, |ms|);
    JumpEntry(x, i, t, c.(pc := t), ExecRegOps(ms, s).(index := |ms|));
    m := |ms| + 1;
  }

  /** What is known of one operation. */
  lemma OpFacts<W(!new), M(!new)>(x: Setup<W, M>, i: nat)
    requires ProgramOk(x.p, x.pr) && LivenessOk(x) && i < |x.pr.sites| && i in x.reach
    ensures SiteOk(x.p, x.pr.sites[i]) && Shaped(x.pr.Op(i), x.pr.InfoAt(i)) && NeedAt(x.pr.sites[i], x.needIn[i], x.needOut[i])
  {
    hide SiteOk, Shaped, NeedAt;
  }

  lemma JumpNeeds<W(!new), M(!new)>(x: Setup<W, M>, i: nat)
    requires ProgramOk(x.p, x.pr) && LivenessOk(x) && i < |x.pr.sites| && i in x.reach
    requires x.pr.Op(i).code == JMP && x.pr.Op(i).mode == ImmForm
    ensures x.needOut[i] <= x.needIn[i] && Jumps(x.pr.Op(i)) && Lands(x.pr, x.pr.Op(i).jmp.value) && Edge(x.pr, i, x.pr.Op(i).jmp.value)
  {
    hide SitesOk, NeedsOk, EdgesOk, SpillsInUse, SpillsCover, SiteOk;
    OpFacts(x, i);
    assert NoRegisters(x.pr.Op(i)) && x.pr.Op(i).Defs() == {};
  }

  lemma JumpAtCore<W(!new), M(!new)>(x: Setup<W, M>, i: nat, c: Cfg<W, M>, s: Hw<W, M>)
    requires ProgramOk(x.p, x.pr) && LivenessOk(x) && WalksCover(x.p, x.pr)
    requires Entry(x, i, c, s) && x.pr.Op(i).code == JMP && x.pr.Op(i).mode == ImmForm
    ensures var t := x.pr.Op(i).jmp.value; var u := ExecRegOps(AssignAt(x.p, x.pr, i).pre + Repair(x.p, x.pr, i), s);
      Lands(x.pr, t) && Edge(x.pr, i, t) && Located(x.p, AssignAt(x.p, x.pr, t).rm, x.needIn[t], c, u) && SameRest(s, u)
  {
    hide AssignAt, Located, WalksCover, Repair, SitesOk, NeedsOk, EdgesOk, SpillsInUse, SpillsCover, NeighboursOk, JumpsOk, TargetsOk, MapBefore, Edge;
    var a := AssignAt(x.p, x.pr, i);
    JumpNeeds(x, i);
    OrdinaryAtCore(x, i, c, s);
    LocatedLess(x.p, a.rm, x.needIn[i], x.needOut[i], c, ExecRegOps(a.pre, s));
    ExecConcat(a.pre, Repair(x.p, x.pr, i), s);
    RepairedEdge(x, i, c, ExecRegOps(a.pre, s));
  }

  lemma InvertedCode(code: Code)
    requires IsCondBranch(code)
    ensures Invert(code) != CALL && code != CALL && IsCondBranch(Invert(code))
    ensures Invert(code) in {BOADD, BOSUB, BNOADD, BNOSUB} <==> code in {BOADD, BOSUB, BNOADD, BNOSUB}
  {
  }

  lemma InvertKeepsDest(op: Op)
    requires IsCondBranch(op.code)
    ensures Invert(op.code) != CALL && op.code != CALL
    ensures DestPos(op.(code := Invert(op.code))) == DestPos(op)
    ensures IsCondBranch(Invert(op.code))
  {
    hide Invert, IsCondBranch;
    InvertedCode(op.code);
  }

  /** The inverted branch computes what the branch computes. */
  lemma InvertedComputes<W(!new), M(!new)>(env: Env<W, M>, p: Pool, n: Node, op: Op,
                                           needIn: set<int>, needOut: set<int>, c: Cfg<W, M>, u: Hw<W, M>)
    requires PoolOk(p) && OperandsOk(op) && n.Core? && n.op == op.(code := Invert(op.code)) && OperandsPlaced(p, op, n.rm, n.r)
    requires IsCondBranch(op.code) && op.t0 == IMM && (op.t1 == REG ==> !IsAlias(op.a1)) && Inverts(env, op)
    requires LivenessAt(op, needIn, needOut) && Located(p, n.rm, needIn, c, u)
    ensures HwVals(env, n, u) == VirtVals(env, op, c.regs)
    ensures Located(p, n.rm, needOut, Computed(env, op, c), HwComputed(env, n, u))
  {
    InvertKeepsDest(op);
    ValsAgree(env, p, n, op, needIn, c, u);
    ComputeLocated(env, p, n, op, needIn, needOut, c, u);
  }

  lemma BranchShape(op: Op, info: seq<ArgInfo>)
    requires Shaped(op, info) && IsCondBranch(op.code)
    ensures op.t0 == IMM && op.jmp.Some? && (op.t1 == REG ==> !IsAlias(op.a1)) && op.code != PROLOG && op.code != GETARG
  {
  }

  lemma InvertedAtCore<W(!new), M(!new)>(x: Setup<W, M>, i: nat, c: Cfg<W, M>, s: Hw<W, M>)
    requires ProgramOk(x.p, x.pr) && LivenessOk(x) && Entry(x, i, c, s)
    requires IsCondBranch(x.pr.Op(i).code) && Inverts(x.env, x.pr.Op(i))
    ensures var a := AssignAt(x.p, x.pr, i);
      ComputesAlike(x, i, CoreOf(x.p, x.pr, i, Invert(x.pr.Op(i).code), true), c, ExecRegOps(a.pre, s).(index := |a.pre|))
  {
    hide AssignAt, Computed, HwComputed, HwVals, VirtVals, Inverts, SitesOk, NeedsOk, JumpsOk, TargetsOk, EdgesOk, SpillsInUse, SpillsCover, NeighboursOk, MapBefore, HintsExact, Shaped, OperandsOk, OperandsPlaced, LivenessAt;
    var op, a := x.pr.Op(i), AssignAt(x.p, x.pr, i);
    OpFacts(x, i);
    BranchShape(op, x.pr.InfoAt(i));
    OrdinaryAtCore(x, i, c, s);
    InvertedComputes(x.env, x.p, CoreOf(x.p, x.pr, i, Invert(op.code), true), op, x.needIn[i], x.needOut[i], c,
                     ExecRegOps(a.pre, s).(index := |a.pre|));
  }

  /** The virtual machine at a branch. */
  lemma StepBranch<W(!new), M(!new)>(x: Setup<W, M>, c: Cfg<W, M>)
    requires c.pc < |x.pr.sites| && var op := x.pr.Op(c.pc); MayBranch(op.code) && op.jmp.Some?
    ensures var op := x.pr.Op(c.pc); var c2 := Computed(x.env, op, c);
      StepOf(x, c) == Running(c2.(pc := if Taken(x, c) then op.jmp.value else c.pc + 1))
  {
  }

  /** The hardware at a branch around its repair. */
  lemma StepAround<W(!new), M(!new)>(x: Setup<W, M>, n: Node, u: Hw<W, M>)
    requires ProgOk(x.prog) && u.block < |x.prog|
    requires n.Core? && |n.r| == 3 && IsCondBranch(n.op.code) && n.toPatch
    ensures var u2 := HwComputed(x.env, n, u);
      StepCore(x.env, x.p, x.prog, x.pr.targets, n, u) ==
      Running(u2.(index := if x.env.taken(SigOf(n.op), HwVals(x.env, n, u), u.mem) then PatchIndex(x.prog[u.block]) else u.index + 1))
  {
    hide HwVals, HwAssigned, PatchIndex, GoTo;
  }

  /** A branch inverted around its repair.  When the original branch is taken the
      inverted one is not, so the repair runs and the jump goes to the original
      target; otherwise the inverted branch skips both. */
  lemma SimInverted<W(!new), M(!new)>(x: Setup<W, M>, i: nat, c: Cfg<W, M>, s: Hw<W, M>) returns (m: nat)
    requires SetupOk(x) && Entry(x, i, c, s) && IsCondBranch(x.pr.Op(i).code) && !MapsAgree(x.p, x.pr, i)
    ensures m > 0 && StepMatches(x, StepOf(x, c), HwRunOf(x, s, m))
  {
    hide StepOf, HwRunOf, StepMatches, Computed, Repair, AssignAt, GoTo, Located, CallOpen, WalksCover, MachineOk, ProgOk, SitesOk, JumpsOk, NeighboursOk, TargetsOk, EntryAt, MapBefore, Block;
    hide NeedsOk, EdgesOk, SpillsInUse, SpillsCover, PoolOk, CoreOf, Framed, BranchTail;
    var op, a := x.pr.Op(i), AssignAt(x.p, x.pr, i);
    InvertedBlock(x, i);
    StepBranch(x, c);
    var v := InvertedRun(x, i, c, s);
    var c' := Computed(x.env, op, c);
    if Taken(x, c) {
      LandingBlock(x, op.jmp.value);
      m := TakeRepair(x, i, c', s, |a.pre| + 1, v);
      Conclude(x, c, s, m, c'.(pc := op.jmp.value));
    } else {
      m := SkipRepair(x, i, c', s, |a.pre| + 1, v);
      Conclude(x, c, s, m, c'.(pc := i + 1));
    }
  }

  ghost predicate AroundRepair<W(!new), M(!new)>(x: Setup<W, M>, i: nat)
    requires ProgramOk(x.p, x.pr) && i < |x.pr.sites|
  {
    && IsCondBranch(x.pr.Op(i).code) && x.pr.Op(i).jmp.Some? && Lands(x.pr, x.pr.Op(i).jmp.value) && i < |x.prog|
    && x.prog[i] == Framed(AssignAt(x.p, x.pr, i).pre, CoreOf(x.p, x.pr, i, Invert(x.pr.Op(i).code), true),
                           BranchTail(Repair(x.p, x.pr, i), x.pr.Op(i).jmp.value))
  }

  lemma InvertedBlock<W(!new), M(!new)>(x: Setup<W, M>, i: nat)
    requires SetupOk(x) && i < |x.pr.sites| && IsCondBranch(x.pr.Op(i).code) && !MapsAgree(x.p, x.pr, i)
    ensures AroundRepair(x, i) && Inverts(x.env, x.pr.Op(i))
  {
    hide AssignAt, MapsAgree, Repair;
    assert x.prog[i] == Block(x.p, x.pr, i);
    assert Jumps(x.pr.Op(i));
  }

  lemma InvertedRun<W(!new), M(!new)>(x: Setup<W, M>, i: nat, c: Cfg<W, M>, s: Hw<W, M>) returns (v: Hw<W, M>)
    requires ProgramOk(x.p, x.pr) && LivenessOk(x) && ProgOk(x.prog) && Entry(x, i, c, s)
    requires AroundRepair(x, i) && Inverts(x.env, x.pr.Op(i))
    ensures var op, a := x.pr.Op(i), AssignAt(x.p, x.pr, i);
      && HwRunOf(x, s, |a.pre| + 1) == Running(v) && v.block == i
      && Located(x.p, a.rm, x.needOut[i], Computed(x.env, op, c), v)
      && if Taken(x, c) then v.index == |a.pre| + 1 else v.index + 1 == |x.prog[i]| && x.prog[i][v.index] == PatchHere
  {
    hide HwRunOf, StepCore, Repair, AssignAt;
    var op, a := x.pr.Op(i), AssignAt(x.p, x.pr, i);
    var core, moves := CoreOf(x.p, x.pr, i, Invert(op.code), true), Repair(x.p, x.pr, i);
    TailNodes(a.pre, core, moves, op.jmp.value);
    RunToCore(x, s, a.pre, core, BranchTail(moves, op.jmp.value));
    var u := ExecRegOps(a.pre, s).(index := |a.pre|);
    InvertedAtCore(x, i, c, s);
    InvertKeepsDest(op);
    StepAround(x, core, u);
    v := HwComputed(x.env, core, u).(index := if Taken(x, c) then |a.pre| + 1 else PatchIndex(x.prog[i]));
  }

  lemma RunRepair<W(!new), M(!new)>(x: Setup<W, M>, s: Hw<W, M>, k: nat, v: Hw<W, M>, moves: seq<RegOp>, t: nat)
    requires ProgOk(x.prog) && HwRunOf(x, s, k) == Running(v) && v.block < |x.prog| && TailAt(x.prog[v.block], v.index, moves, t)
    ensures var w := ExecRegOps(moves, v).(index := v.index + |moves|);
      HwRunOf(x, s, k + |moves| + 1) == GoTo(x.prog, w, t) && SameRest(v, ExecRegOps(moves, v))
  {
    hide HwRun, StepCore;
    RunMoves(x, v, moves);
    RunAppend(x, s, k, v, |moves|);
    RunNode(x, s, k + |moves|, ExecRegOps(moves, v).(index := v.index + |moves|));
  }

  lemma RepairedArrival<W(!new), M(!new)>(x: Setup<W, M>, i: nat, c: Cfg<W, M>, v: Hw<W, M>, index: nat)
    requires ProgramOk(x.p, x.pr) && LivenessOk(x) && WalksCover(x.p, x.pr) && |x.prog| == |x.pr.sites|
    requires i < |x.pr.sites| && Jumps(x.pr.Op(i)) && i in x.reach && Lands(x.pr, x.pr.Op(i).jmp.value)
    requires CoreIndex(x.prog[x.pr.Op(i).jmp.value]) == 0
    requires Located(x.p, AssignAt(x.p, x.pr, i).rm, x.needOut[i], c, v)
    ensures var t := x.pr.Op(i).jmp.value; var w := ExecRegOps(Repair(x.p, x.pr, i), v).(index := index);
      StepMatches(x, Running(c.(pc := t)), GoTo(x.prog, w, t))
  {
    hide SitesOk, NeedsOk, NeighboursOk, TargetsOk, AssignAt, Repair, WalksCover;
    var t := x.pr.Op(i).jmp.value;
    var c' := c.(pc := t);
    RepairedEdge(x, i, c', v);
    JumpEntry(x, i, t, c', ExecRegOps(Repair(x.p, x.pr, i), v).(index := index));
  }

  /** The branch was taken: through the repair to the target. */
  lemma TakeRepair<W(!new), M(!new)>(x: Setup<W, M>, i: nat, c: Cfg<W, M>, s: Hw<W, M>, k: nat, v: Hw<W, M>) returns (m: nat)
    requires ProgramOk(x.p, x.pr) && LivenessOk(x) && WalksCover(x.p, x.pr) && ProgOk(x.prog) && |x.prog| == |x.pr.sites|
    requires i < |x.pr.sites| && i in x.reach && AroundRepair(x, i) && CoreIndex(x.prog[x.pr.Op(i).jmp.value]) == 0
    requires k == |AssignAt(x.p, x.pr, i).pre| + 1 && v.index == k
    requires HwRunOf(x, s, k) == Running(v) && v.block == i
    requires Located(x.p, AssignAt(x.p, x.pr, i).rm, x.needOut[i], c, v)
    ensures m > 0 && StepMatches(x, Running(c.(pc := x.pr.Op(i).jmp.value)), HwRunOf(x, s, m))
  {
    hide HwRunOf, StepMatches, Repair, AssignAt, GoTo, SitesOk, NeedsOk, NeighboursOk, TargetsOk, JumpsOk, WalksCover, Located, TailAt;
    hide EdgesOk, SpillsInUse, SpillsCover, ExecRegOps, BranchTail, CoreIndex;
    var a, moves, t := AssignAt(x.p, x.pr, i), Repair(x.p, x.pr, i), x.pr.Op(i).jmp.value;
    TailNodes(a.pre, CoreOf(x.p, x.pr, i, Invert(x.pr.Op(i).code), true), moves, t);
    RepairedArrival(x, i, c, v, v.index + |moves|);
    RunRepair(x, s, k, v, moves, t);
    m := k + |moves| + 1;
  }

  lemma CondBranchCode(code: Code)
    requires IsCondBranch(code)
    ensures code !in {PREPARE, PUTARG, CALL}
  {
  }

  lemma SkipRepair<W(!new), M(!new)>(x: Setup<W, M>, i: nat, c: Cfg<W, M>, s: Hw<W, M>, k: nat, v: Hw<W, M>) returns (m: nat)
    requires ProgramOk(x.p, x.pr) && LivenessOk(x) && ProgOk(x.prog) && |x.prog| == |x.pr.sites|
    requires i < |x.pr.sites| && i in x.reach && FallsThrough(x.pr.Op(i)) && IsCondBranch(x.pr.Op(i).code)
    requires HwRunOf(x, s, k) == Running(v) && v.block == i && v.index + 1 == |x.prog[i]| && x.prog[i][v.index] == PatchHere
    requires Located(x.p, AssignAt(x.p, x.pr, i).rm, x.needOut[i], c, v)
    ensures m > 0 && StepMatches(x, Running(c.(pc := i + 1)), HwRunOf(x, s, m))
  {
    hide HwRunOf, StepMatches, AssignAt, Repair, GoTo, Located, ProgOk, SitesOk, JumpsOk, NeighboursOk, TargetsOk, NeedsOk, EdgesOk, SpillsInUse, SpillsCover, StepCore, FallsThrough, PoolOk, IsCondBranch;
    CondBranchCode(x.pr.Op(i).code);
    RunNode(x, s, k, v);
    LocatedMoved(x.p, AssignAt(x.p, x.pr, i).rm, x.needOut[i], c, v, c.pc, i, |x.prog[i]|);
    FinishSimple(x, i, c, s, k + 1, v.(index := |x.prog[i]|));
    m := k + 2;
  }

  /** From `index` on, the block is a repair and the jump it prepares. */
  predicate TailAt(b: seq<Node>, index: nat, moves: seq<RegOp>, t: nat) {
    && index + |moves| < |b| && b[index + |moves|] == Jump(t)
    && forall k :: 0 <= k < |moves| ==> b[index + k] == Move(moves[k])
  }

  lemma TailNodes(pre: seq<RegOp>, core: Node, moves: seq<RegOp>, t: nat)
    requires core.Core? && |core.r| == 3
    ensures var b := Framed(pre, core, BranchTail(moves, t));
      TailAt(b, |pre| + 1, moves, t) && PatchIndex(b) == |b| - 1 && b[|b| - 1] == PatchHere
  {
    var b := Framed(pre, core, BranchTail(moves, t));
    PatchIndexSkips(b, |b| - 1);
    forall k | 0 <= k < |moves| ensures b[|pre| + 1 + k] == Move(moves[k]) {
      assert b[|pre| + 1 + k] == BranchTail(moves, t)[k];
    }
    assert b[|pre| + 1 + |moves|] == BranchTail(moves, t)[|moves|];
  }

  lemma {:induction false} PatchIndexSkips(ns: seq<Node>, k: nat)
    requires k < |ns| && ns[k] == PatchHere && forall j :: 0 <= j < k ==> ns[j] != PatchHere
    ensures PatchIndex(ns) == k
  {
    if k > 0 {
      PatchIndexSkips(ns[1..], k - 1);
    }
  }
}
