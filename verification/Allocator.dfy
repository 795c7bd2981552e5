/** `myjit/reg-allocator.h` as it runs: passes over the operation list that update
    each operation's map, registers and code, and insert moves around it.  Every
    method is proved against the function of RegAlloc or Allocation it computes. */
module Allocator {
  import opened Ops
  import opened RegMap
  import opened RegAlloc
  import opened Machine
  import opened EdgeRepair
  import opened Allocation
  import Llrb

  /** A register map as the allocator keeps it: a search tree. */
  ghost predicate GoodMap(t: Llrb.Tree<int>) {
    Llrb.Valid(t) && Injective(Llrb.Contents(t))
  }

  function MapOf(t: Llrb.Tree<int>): Rmap
    requires GoodMap(t)
  {
    Llrb.Contents(t)
  }

  /** `rmap_assoc`. */
  function AssocTree(t: Llrb.Tree<int>, v: int, h: int): (r: Llrb.Tree<int>)
    requires GoodMap(t) && forall u :: u in MapOf(t) && MapOf(t)[u] == h ==> u == v
    ensures GoodMap(r) && MapOf(r) == Assoc(MapOf(t), v, h)
  {
    Llrb.InsertIsUpdate(t, v, h);
    assert Llrb.Contents(Llrb.Insert(t, v, h)) == Assoc(MapOf(t), v, h);
    Llrb.Insert(t, v, h)
  }

  /** `rmap_unassoc`. */
  function UnassocTree(t: Llrb.Tree<int>, v: int): (r: Llrb.Tree<int>)
    requires GoodMap(t)
    ensures GoodMap(r) && MapOf(r) == Unassoc(MapOf(t), v)
  {
    Llrb.DeleteIsRemoval(t, v);
    Llrb.Delete(t, v)
  }

  /** `rmap_is_associated`. */
  function Associated(t: Llrb.Tree<int>, h: int): (r: Option<int>)
    requires GoodMap(t)
    ensures r == IsAssociated(MapOf(t), h)
  {
    AssociatedTreeIsAssociated(t, h);
    AssociatedTree(t, h)
  }

  /** The operand loop after `n` rounds, starting from the operands `r`. */
  ghost function OperandRounds(p: Pool, s: Site, a: Alloc, r: seq<int>, n: nat): (b: (Alloc, seq<int>))
    requires SiteOk(p, s) && n <= 3 && |r| == 3
    ensures |b.1| == 3
  {
    if n == 0 then (a, r)
    else
      var (b, rs) := OperandRounds(p, s, a, r, n - 1);
      var (c, h) := AssignOperand(p, s, b, n - 1);
      (c, if s.op.T(n - 1) == NO then rs else rs[n - 1 := h])
  }

  lemma OperandRoundsAll(p: Pool, s: Site, a: Alloc)
    requires SiteOk(p, s)
    ensures var (b, r) := OperandRounds(p, s, a, [-1, -1, -1], 3);
      AssignOperands(p, s, a) == Assigned(b.rm, b.pre, s.op.code, r)
  {
    var r0 := [-1, -1, -1];
    var b1 := OperandRounds(p, s, a, r0, 1);
    var b2 := OperandRounds(p, s, a, r0, 2);
    assert OperandRounds(p, s, a, r0, 0) == (a, r0);
    assert b1.0 == AssignOperand(p, s, a, 0).0;
    assert b2.0 == AssignOperand(p, s, b1.0, 1).0;
    assert OperandRounds(p, s, a, r0, 3).1 == AssignOperands(p, s, a).r;
  }

  class JitOp {
    const site: Site
    var code: Code
    var rArg: seq<int>
    var regmap: Llrb.Tree<int>
    var before: seq<RegOp>
    var after: seq<Node>
    var toPatch: bool

    constructor (s: Site)
      ensures site == s && Untouched()
    {
      site := s;
      code := s.op.code;
      rArg := [-1, -1, -1];
      regmap := Llrb.Leaf;
      before, after, toPatch := [], [], false;
    }

    /** As built by the program, before any register is taken. */
    ghost predicate Untouched()
      reads this
    {
      code == site.op.code && rArg == [-1, -1, -1] && regmap.Leaf? && before == [] && after == [] && !toPatch
    }

    ghost function State(): Alloc
      requires GoodMap(regmap)
      reads this
    {
      Alloc(MapOf(regmap), before)
    }

    /** `make_free_reg`. */
    method MakeFreeReg(p: Pool, v: int) returns (hw: HwReg)
      requires GoodMap(regmap) && SiteOk(p, site) && site.op.Mentions(v) && v !in MapOf(regmap)
      modifies this`regmap, this`before
      ensures GoodMap(regmap) && (State(), hw) == RegAlloc.MakeFreeReg(p, site, old(State()), v)
    {
      SpillCandidateExists(p, site, MapOf(regmap), v);
      var candidate, spill := RmapSpillCandidate(p, site, MapOf(regmap), v, false);
      hw := candidate.value;
      if spill.Some? {
        if spill.value in site.liveIn {
          before := before + [UREG(spill.value, hw.id)];
        }
        regmap := UnassocTree(regmap, spill.value);
      }
    }

    /** `associate_register`. */
    method AssociateRegister(p: Pool, i: nat)
      requires GoodMap(regmap) && SiteOk(p, site) && i < 3 && IsRegOperand(site.op, i) && |rArg| == 3
      modifies this`regmap, this`before, this`rArg
      ensures GoodMap(regmap)
      ensures (State(), rArg) == var r := AssignOperand(p, site, old(State()), i); (r.0, old(rArg)[i := r.1])
    {
      var v := site.op.A(i);
      OperandMentioned(site.op, i);
      var found := Llrb.Search(regmap, v);
      if found.Node? {
        rArg := rArg[i := found.value];
      } else {
        var hw := MakeFreeReg(p, v);
        regmap := AssocTree(regmap, v, hw.id);
        rArg := rArg[i := hw.id];
        if v in site.liveIn {
          before := before + [LREG(hw.id, v)];
        }
      }
    }

    /** The operand loop of `assign_regs`. */
    method AssignOperands(p: Pool)
      requires GoodMap(regmap) && SiteOk(p, site) && rArg == [-1, -1, -1] && code == site.op.code
      modifies this`regmap, this`before, this`rArg
      ensures GoodMap(regmap) && Result() == RegAlloc.AssignOperands(p, site, old(State()))
    {
      for i := 0 to 3
        invariant GoodMap(regmap) && (State(), rArg) == OperandRounds(p, site, old(State()), [-1, -1, -1], i)
      {
        if site.op.T(i) == REG || site.op.T(i) == TREG {
          if IsAlias(site.op.A(i)) {
            rArg := rArg[i := p.fpReg];
          } else {
            AssociateRegister(p, i);
          }
        } else if site.op.T(i) == IMM {
          rArg := rArg[i := site.op.A(i)];
        }
      }
      OperandRoundsAll(p, site, old(State()));
    }

    ghost function Result(): Assigned
      requires GoodMap(regmap)
      reads this
    {
      Assigned(MapOf(regmap), before, code, rArg)
    }

    /** `assign_regs_for_args`. */
    method AssignRegsForArgs(p: Pool, info: seq<ArgInfo>)
      requires PoolOk(p) && regmap.Leaf?
      modifies this`regmap
      ensures GoodMap(regmap) && MapOf(regmap) == ArgMap(p, info, |info|).0
    {
      var taken := 0;
      for i := 0 to |info|
        invariant taken <= |p.args| && GoodMap(regmap) && (MapOf(regmap), taken) == ArgMap(p, info, i)
      {
        if !info[i].isFloat && taken < |p.args| {
          regmap := AssocTree(regmap, ArgReg(i), p.args[taken].id);
          taken := taken + 1;
        }
      }
    }

    /** The first part of `prepare_registers_for_call`. */
    method SaveReturnRegister(p: Pool)
      requires PoolOk(p) && GoodMap(regmap)
      modifies this`regmap, this`before
      ensures GoodMap(regmap) && State() == SaveReturnReg(p, site, old(State()))
    {
      var x := Associated(regmap, p.ret.id);
      if x.Some? && (x.value in site.liveOut || x.value in site.liveIn) {
        BestOfIsBest(p, site, MapOf(regmap), x.value, true, |p.regs|);
        var free, spill := RmapSpillCandidate(p, site, MapOf(regmap), x.value, true);
        if free.Some? && spill.None? {
          before := before + [RENAMEREG(free.value.id, p.ret.id)];
          regmap := UnassocTree(regmap, x.value);
          regmap := AssocTree(regmap, x.value, free.value.id);
        } else {
          before := before + [SYNCREG(x.value, p.ret.id)];
        }
      }
    }

    /** `prepare_registers_for_call`. */
    method PrepareRegistersForCall(p: Pool)
      requires PoolOk(p) && GoodMap(regmap)
      modifies this`regmap, this`before
      ensures GoodMap(regmap) && State() == RegAlloc.PrepareRegistersForCall(p, site, old(State()))
    {
      SaveReturnRegister(p);
      if site.op.a0 >= 0 {
        VacateRegisters(p, Min(site.op.a0, |p.args|));
      }
    }

    method VacateRegisters(p: Pool, n: nat)
      requires PoolOk(p) && n <= |p.args| && GoodMap(regmap)
      modifies this`regmap, this`before
      ensures GoodMap(regmap) && State() == VacateArgRegs(p, site, old(State()), n)
    {
      for q := 0 to n
        invariant GoodMap(regmap) && State() == VacateArgRegs(p, site, old(State()), q)
      {
        var r := Associated(regmap, p.args[q].id);
        if r.Some? {
          if r.value in site.liveOut {
            before := before + [UREG(r.value, p.args[q].id)];
          }
          regmap := UnassocTree(regmap, r.value);
        }
      }
    }

    /** `assign_jmp`, for a jump through a register. */
    method SyncRegisters(p: Pool)
      requires GoodMap(regmap)
      modifies this`before
      ensures State() == SyncAll(p, site, old(State()), |p.regs|)
    {
      for i := 0 to |p.regs|
        invariant State() == SyncAll(p, site, old(State()), i)
      {
        var r := Associated(regmap, p.regs[i].id);
        if r.Some? && r.value in site.liveOut {
          before := before + [SYNCREG(r.value, p.regs[i].id)];
        }
      }
    }

    /** `spill_all_registers`. */
    method SpillRegisters(p: Pool)
      requires GoodMap(regmap)
      modifies this`before, this`regmap
      ensures GoodMap(regmap) && State() == SpillAll(p, site, old(State()), |p.regs|)
    {
      hide GoodMap, MapOf, IsAssociated;
      for i := 0 to |p.regs|
        invariant GoodMap(regmap) && State() == SpillAll(p, site, old(State()), i)
      {
        var r := Associated(regmap, p.regs[i].id);
        if r.Some? && r.value in site.liveOut {
          if site.inUse {
            before := before + [UREG(r.value, p.regs[i].id)];
          }
          regmap := UnassocTree(regmap, r.value);
        }
      }
    }

    /** `assign_getarg`. */
    method AssignGetarg(info: seq<ArgInfo>) returns (done: bool)
      requires GoodMap(regmap) && 0 <= site.op.a1 < |info|
      modifies this`regmap, this`rArg, this`code
      ensures GoodMap(regmap) && done == TakesOver(site, info, old(MapOf(regmap)))
      ensures done ==> var prev := old(MapOf(regmap)); var g := ArgReg(site.op.a1);
        MapOf(regmap) == Assoc(Unassoc(prev, g), site.op.a0, prev[g]) && rArg == [prev[g], site.op.a1, -1] && code == NOP
      ensures !done ==> regmap == old(regmap) && rArg == old(rArg) && code == old(code)
    {
      hide ArgReg;
      var arg, g := info[site.op.a1], ArgReg(site.op.a1);
      if g !in site.liveOut && !arg.isFloat && arg.size == REG_SIZE {
        var found := Llrb.Search(regmap, g);
        if found.Node? {
          assert g in MapOf(regmap) && MapOf(regmap)[g] == found.value;
          regmap := UnassocTree(regmap, g);
          regmap := AssocTree(regmap, site.op.a0, found.value);
          rArg := [found.value, site.op.a1, -1];
          code := NOP;
          return true;
        }
      }
      return false;
    }
 
    /** The map an operation starts from: that of the operation before, or, at a
        PROLOG, the arguments in their registers. */
    method StartMap(p: Pool, info: seq<ArgInfo>, prev: JitOp?)
      requires PoolOk(p) && regmap.Leaf? && (prev != null ==> prev != this && GoodMap(prev.regmap))
      modifies this`regmap
      ensures GoodMap(regmap)
      ensures MapOf(regmap) == if site.op.code == PROLOG then ArgMap(p, info, |info|).0
        else if prev == null then map[] else old(MapOf(prev.regmap))
    {
      if site.op.code == PROLOG {
        AssignRegsForArgs(p, info);
      } else if prev != null {
        Llrb.CloneIsCopy(prev.regmap);
        regmap := Llrb.Clone(prev.regmap);
      }
    }

    /** The result of a call is where it came back. */
    method AssignRetReg(p: Pool)
      requires GoodMap(regmap) && IsFree(MapOf(regmap), p.ret.id)
      modifies this`regmap
      ensures GoodMap(regmap) && MapOf(regmap) == Assoc(old(MapOf(regmap)), site.op.a0, p.ret.id)
    {
      regmap := AssocTree(regmap, site.op.a0, p.ret.id);
    }

    /** `assign_call`. */
    method AssignCall(p: Pool)
      requires GoodMap(regmap)
      modifies this`regmap
      ensures GoodMap(regmap)
      ensures MapOf(regmap) == var m := old(MapOf(regmap)); var x := IsAssociated(m, p.ret.id); if x.Some? then Unassoc(m, x.value) else m
    {
      var r := Associated(regmap, p.ret.id);
      if r.Some? {
        regmap := UnassocTree(regmap, r.value);
      }
    }

    /** `assign_regs`. */
    method AssignRegs(p: Pool, info: seq<ArgInfo>, prev: JitOp?)
      requires SiteOk(p, site) && Shaped(site.op, info) && Untouched()
      requires prev != null ==> prev != this && GoodMap(prev.regmap)
      requires site.op.code == RETVAL ==> prev != null && IsFree(MapOf(prev.regmap), p.ret.id)
      modifies this`regmap, this`before, this`rArg, this`code
      ensures GoodMap(regmap)
      ensures Result() == RegAlloc.AssignRegs(p, site, info, if prev == null then map[] else old(MapOf(prev.regmap)))
    {
      StartMap(p, info, prev);
      var skip := false;
      match site.op.code {
        case PREPARE => PrepareRegistersForCall(p);
        case PUTARG => skip := true;
        case RETVAL =>
          AssignRetReg(p);
          skip := true;
        case CALL =>
          AssignCall(p);
          skip := true;
        case GETARG => skip := AssignGetarg(info);
        case JMP =>
          if site.op.mode != ImmForm {
            SyncRegisters(p);
          }
        case FULL_SPILL =>
          SpillRegisters(p);
          skip := true;
        case _ =>
      }
      if !skip {
        AssignOperands(p);
      }
    }

    /** `branch_adjustment`. */
    method BranchAdjustment(target: JitOp)
      requires IsCondBranch(site.op.code) && site.op.jmp.Some? && GoodMap(regmap) && GoodMap(target.regmap)
      requires code == site.op.code && after == [] && !toPatch
      modifies this`code, this`after, this`toPatch
      ensures if RmapEqual(MapOf(regmap), MapOf(target.regmap), target.site.liveIn)
        then code == old(code) && after == [] && !toPatch
        else code == Invert(old(code)) && after == [Jump(site.op.jmp.value), PatchHere] && toPatch
    {
      var live := target.site.liveIn;
      SubsetTreeDecides(regmap, target.regmap, live);
      SubsetTreeDecides(target.regmap, regmap, live);
      if !(SubsetTree(regmap, target.regmap, live) && SubsetTree(target.regmap, regmap, live)) {
        code := Invert(code);
        after := [Jump(site.op.jmp.value), PatchHere];
        toPatch := true;
      }
    }

    /** `jump_adjustment`, for the jump itself or for the one inserted behind a branch. */
    method JumpAdjustment(target: JitOp)
      requires GoodMap(regmap) && GoodMap(target.regmap)
      modifies this`before, this`after
      ensures var moves := RepairMoves(Preorder(regmap), Preorder(target.regmap), MapOf(regmap), MapOf(target.regmap),
                                       site.liveOut, target.site.liveIn);
        if site.op.code == JMP && site.op.mode == ImmForm then before == old(before) + moves && after == old(after)
        else if toPatch then before == old(before) && after == Moves(moves) + old(after)
        else before == old(before) && after == old(after)
    {
      var unloads := SyncTree(regmap, target.regmap, target.site.liveIn, true);
      var loads := SyncTree(target.regmap, regmap, site.liveOut, false);
      TreeWalksRepair(regmap, target.regmap, site.liveOut, target.site.liveIn);
      if site.op.code == JMP && site.op.mode == ImmForm {
        before := before + (unloads + loads);
      } else if toPatch {
        after := Moves(unloads + loads) + after;
      }
    }

    /** The operation with what now surrounds it. */
    ghost function Nodes(): seq<Node>
      requires GoodMap(regmap)
      reads this
    {
      Moves(before) + [Core(site.op.(code := code), rArg, MapOf(regmap), site.liveIn, toPatch)] + after
    }
  }

  // ---- The passes of `jit_assign_regs` ------------------------------------------------

  /** The program with the orders in which these trees are walked. */
  ghost function WithWalks(pr: Program, trees: seq<Llrb.Tree<int>>): Program {
    pr.(order := i =>
      if 0 <= i < |trees| && i < |pr.sites| && pr.Op(i).jmp.Some? && pr.Op(i).jmp.value < |trees|
      then (Preorder(trees[i]), Preorder(trees[pr.Op(i).jmp.value]))
      else ([], []))
  }

  lemma WalksKeepProgram(p: Pool, pr: Program, trees: seq<Llrb.Tree<int>>)
    requires ProgramOk(p, pr)
    ensures ProgramOk(p, WithWalks(pr, trees))
  {
    OrderKeepsProgram(p, pr, WithWalks(pr, trees).order);
  }

  lemma WalksDoNotMatter(p: Pool, pr: Program, trees: seq<Llrb.Tree<int>>, i: nat)
    requires ProgramOk(p, pr) && ProgramOk(p, WithWalks(pr, trees)) && i < |pr.sites|
    ensures AssignAt(p, WithWalks(pr, trees), i) == AssignAt(p, pr, i)
  {
    hide ProgramOk, AssignAt;
    OrderDoesNotMatter(p, pr, WithWalks(pr, trees).order, i);
  }

  /** The operation list of a function. */
  ghost predicate OpsOf(pr: Program, ops: seq<JitOp>) {
    && |ops| == |pr.sites|
    && (forall i :: 0 <= i < |ops| ==> ops[i].site == pr.sites[i])
    && (forall i, j :: 0 <= i < j < |ops| ==> ops[i] != ops[j])
  }

  ghost predicate HasRegs(p: Pool, pr: Program, op: JitOp, i: nat)
    requires ProgramOk(p, pr) && i < |pr.sites|
    reads op
  {
    GoodMap(op.regmap) && op.Result() == AssignAt(p, pr, i) && op.after == [] && !op.toPatch
  }

  /** The declared arguments known when the pass comes to operation i. */
  ghost predicate InfoKnown(pr: Program, i: nat, current: seq<ArgInfo>)
    requires i <= |pr.sites|
  {
    current == if i == 0 then [] else pr.InfoAt(i - 1)
  }

  method AssignOne(p: Pool, pr: Program, ops: seq<JitOp>, i: nat, current: seq<ArgInfo>) returns (info: seq<ArgInfo>)
    requires ProgramOk(p, pr) && OpsOf(pr, ops) && i < |ops| && InfoKnown(pr, i, current)
    requires ops[i].Untouched() && (i > 0 ==> HasRegs(p, pr, ops[i - 1], i - 1))
    modifies ops[i]
    ensures HasRegs(p, pr, ops[i], i) && InfoKnown(pr, i + 1, info)
  {
    hide JumpsOk, TargetsOk, SitesOk, NeighboursOk, Shaped, SiteOk, AssignAt, AssignRegs, GoodMap, MapOf, IsFree, NextInfo;
    info := NextInfo(pr.infos, ops[i].site.op, current);
    ghost var was: Rmap := if i == 0 then map[] else MapOf(ops[i - 1].regmap);
    if ops[i].site.op.code == PROLOG {
      AssignFirst(p, pr, i, was);
    } else {
      AssignFollows(p, pr, i);
    }
    var prev: JitOp? := null;
    if i > 0 {
      prev := ops[i - 1];
    }
    assert ops[i].site.op.code == RETVAL ==> i > 0 by { RetvalFollows(pr, i); }
    ops[i].AssignRegs(p, info, prev);
  }

  lemma RetvalFollows(pr: Program, i: nat)
    requires NeighboursOk(pr) && i < |pr.sites|
    ensures pr.Op(i).code == RETVAL ==> i > 0
  {
  }

  lemma NothingKnown(pr: Program)
    ensures InfoKnown(pr, 0, [])
  {
  }

  /** The second pass. */
  method AssignAllRegs(p: Pool, pr: Program, ops: seq<JitOp>)
    requires ProgramOk(p, pr) && OpsOf(pr, ops) && forall i :: 0 <= i < |ops| ==> ops[i].Untouched()
    modifies ops
    ensures forall i :: 0 <= i < |ops| ==> HasRegs(p, pr, ops[i], i)
  {
    hide HasRegs, ProgramOk, InfoKnown, JitOp.Untouched;
    assert InfoKnown(pr, 0, []) by { NothingKnown(pr); }
    var info := [];
    for i := 0 to |ops|
      invariant InfoKnown(pr, i, info)
      invariant forall k :: 0 <= k < i ==> HasRegs(p, pr, ops[k], k)
      invariant forall k :: i <= k < |ops| ==> ops[k].Untouched()
    {
      info := AssignOne(p, pr, ops, i, info);
    }
  }

  ghost predicate BranchDone(p: Pool, pr: Program, op: JitOp, i: nat)
    requires ProgramOk(p, pr) && i < |pr.sites|
    reads op
  {
    var a, code := AssignAt(p, pr, i), pr.Op(i).code;
    && GoodMap(op.regmap) && MapOf(op.regmap) == a.rm && op.before == a.pre && op.rArg == a.r
    && if IsCondBranch(code) && !MapsAgree(p, pr, i)
       then op.code == Invert(code) && op.toPatch && op.after == [Jump(pr.Op(i).jmp.value), PatchHere]
       else op.code == a.code && !op.toPatch && op.after == []
  }

  /** Every operation has its map. */
  ghost predicate MapsKnown(p: Pool, pr: Program, ops: seq<JitOp>)
    requires ProgramOk(p, pr) && |ops| == |pr.sites|
    reads ops
  {
    forall t :: 0 <= t < |ops| ==> GoodMap(ops[t].regmap) && MapOf(ops[t].regmap) == AssignAt(p, pr, t).rm
  }

  method AdjustBranch(p: Pool, pr: Program, ops: seq<JitOp>, i: nat)
    requires ProgramOk(p, pr) && OpsOf(pr, ops) && i < |ops|
    requires MapsKnown(p, pr, ops) && HasRegs(p, pr, ops[i], i)
    modifies ops[i]
    ensures BranchDone(p, pr, ops[i], i) && MapsKnown(p, pr, ops)
  {
    hide SitesOk, TargetsOk, NeighboursOk, AssignAt, RmapEqual, GoodMap, MapOf, Invert;
    if IsCondBranch(ops[i].code) {
      assert Lands(pr, pr.Op(i).jmp.value);
      ops[i].BranchAdjustment(ops[pr.Op(i).jmp.value]);
    }
  }

  lemma RegsAreMaps(p: Pool, pr: Program, ops: seq<JitOp>)
    requires ProgramOk(p, pr) && |ops| == |pr.sites| && forall i :: 0 <= i < |ops| ==> HasRegs(p, pr, ops[i], i)
    ensures MapsKnown(p, pr, ops)
  {
    hide SitesOk, JumpsOk, TargetsOk, NeighboursOk, AssignAt;
  }

  /** The third pass. */
  method AdjustBranches(p: Pool, pr: Program, ops: seq<JitOp>)
    requires ProgramOk(p, pr) && OpsOf(pr, ops) && forall i :: 0 <= i < |ops| ==> HasRegs(p, pr, ops[i], i)
    modifies ops
    ensures forall i :: 0 <= i < |ops| ==> BranchDone(p, pr, ops[i], i)
  {
    hide ProgramOk, AssignAt, BranchDone, MapsKnown, HasRegs;
    RegsAreMaps(p, pr, ops);
    for i := 0 to |ops|
      invariant MapsKnown(p, pr, ops)
      invariant forall k :: 0 <= k < i ==> BranchDone(p, pr, ops[k], k)
      invariant forall k :: i <= k < |ops| ==> HasRegs(p, pr, ops[k], k)
    {
      AdjustBranch(p, pr, ops, i);
    }
  }

  ghost function Trees(ops: seq<JitOp>): (ts: seq<Llrb.Tree<int>>)
    reads ops
    ensures |ts| == |ops| && forall i :: 0 <= i < |ops| ==> ts[i] == ops[i].regmap
  {
    seq(|ops|, i requires 0 <= i < |ops| reads ops => ops[i].regmap)
  }

  /** The moves of an edge, from the two trees at its ends. */
  lemma TreesRepair(p: Pool, pr: Program, ops: seq<JitOp>, i: nat)
    requires ProgramOk(p, pr) && OpsOf(pr, ops) && MapsKnown(p, pr, ops) && i < |ops| && Jumps(pr.Op(i))
    ensures var pr' := WithWalks(pr, Trees(ops)); var t := pr.Op(i).jmp.value;
      && ProgramOk(p, pr') && t < |ops|
      && Repair(p, pr', i) == RepairMoves(Preorder(ops[i].regmap), Preorder(ops[t].regmap), MapOf(ops[i].regmap), MapOf(ops[t].regmap),
                                          pr.sites[i].liveOut, pr.sites[t].liveIn)
      && (MapsAgree(p, pr', i) <==> MapsAgree(p, pr, i))
      && AssignAt(p, pr', i) == AssignAt(p, pr, i)
  {
    hide SitesOk, TargetsOk, NeighboursOk, AssignAt;
    var pr' := WithWalks(pr, Trees(ops));
    WalksKeepProgram(p, pr, Trees(ops));
    assert Lands(pr, pr.Op(i).jmp.value);
    WalksDoNotMatter(p, pr, Trees(ops), i);
    WalksDoNotMatter(p, pr, Trees(ops), pr.Op(i).jmp.value);
  }

  /** Block i of the allocated list, with the walks over these trees. */
  ghost function FinalBlock(p: Pool, pr: Program, trees: seq<Llrb.Tree<int>>, i: nat): seq<Node>
    requires ProgramOk(p, pr) && i < |pr.sites|
  {
    WalksKeepProgram(p, pr, trees);
    Block(p, WithWalks(pr, trees), i)
  }

  /** An operation no edge of which needs moves. */
  lemma QuietBlock(p: Pool, pr: Program, ops: seq<JitOp>, i: nat)
    requires ProgramOk(p, pr) && OpsOf(pr, ops) && MapsKnown(p, pr, ops) && i < |ops| && BranchDone(p, pr, ops[i], i)
    requires !(pr.Op(i).code == JMP && pr.Op(i).mode == ImmForm) && !ops[i].toPatch
    ensures ops[i].Nodes() == FinalBlock(p, pr, Trees(ops), i)
  {
    hide SitesOk, TargetsOk, NeighboursOk, AssignAt, MapsAgree;
    WalksKeepProgram(p, pr, Trees(ops));
    WalksDoNotMatter(p, pr, Trees(ops), i);
    if IsCondBranch(pr.Op(i).code) {
      TreesRepair(p, pr, ops, i);
    }
  }

  /** An operation whose edge is repaired. */
  lemma RepairedBlock(p: Pool, pr: Program, ops: seq<JitOp>, i: nat, moves: seq<RegOp>)
    requires ProgramOk(p, pr) && OpsOf(pr, ops) && MapsKnown(p, pr, ops) && i < |ops| && Jumps(pr.Op(i))
    requires var op, t := pr.Op(i), pr.Op(i).jmp.value;
      && t < |ops|
      && moves == RepairMoves(Preorder(ops[i].regmap), Preorder(ops[t].regmap), MapOf(ops[i].regmap), MapOf(ops[t].regmap),
                              pr.sites[i].liveOut, pr.sites[t].liveIn)
    ensures var op, a := pr.Op(i), AssignAt(p, pr, i);
      && (op.code == JMP ==>
            FinalBlock(p, pr, Trees(ops), i) == Moves(a.pre + moves) + [Core(op, a.r, a.rm, pr.sites[i].liveIn, false)] + [])
      && (IsCondBranch(op.code) && !MapsAgree(p, pr, i) ==>
            FinalBlock(p, pr, Trees(ops), i) ==
            Moves(a.pre) + [Core(op.(code := Invert(op.code)), a.r, a.rm, pr.sites[i].liveIn, true)] +
            (Moves(moves) + [Jump(op.jmp.value), PatchHere]))
  {
    hide SitesOk, TargetsOk, NeighboursOk, JumpsOk, AssignAt, MapsAgree, RepairMoves, Preorder, MapOf, GoodMap;
    TreesRepair(p, pr, ops, i);
  }

  /** The fourth pass, at one operation. */
  method AdjustJump(p: Pool, pr: Program, ops: seq<JitOp>, i: nat)
    requires ProgramOk(p, pr) && OpsOf(pr, ops) && MapsKnown(p, pr, ops) && i < |ops| && BranchDone(p, pr, ops[i], i)
    modifies ops[i]
    ensures ops[i].regmap == old(ops[i].regmap) && MapsKnown(p, pr, ops)
    ensures ops[i].Nodes() == FinalBlock(p, pr, Trees(ops), i)
  {
    hide SitesOk, TargetsOk, NeighboursOk, AssignAt, MapsAgree, FinalBlock, RepairMoves, Preorder, MapOf, GoodMap;
    if (ops[i].site.op.code == JMP && ops[i].site.op.mode == ImmForm) || ops[i].toPatch {
      assert Lands(pr, pr.Op(i).jmp.value);
      var t := ops[i].site.op.jmp.value;
      ghost var moves := RepairMoves(Preorder(ops[i].regmap), Preorder(ops[t].regmap), MapOf(ops[i].regmap), MapOf(ops[t].regmap),
                                     pr.sites[i].liveOut, pr.sites[t].liveIn);
      RepairedBlock(p, pr, ops, i, moves);
      ops[i].JumpAdjustment(ops[t]);
      assert Trees(ops) == old(Trees(ops));
    } else {
      QuietBlock(p, pr, ops, i);
    }
  }

  /** The fourth pass. */
  method AdjustJumps(p: Pool, pr: Program, ops: seq<JitOp>)
    requires ProgramOk(p, pr) && OpsOf(pr, ops) && MapsKnown(p, pr, ops)
    requires forall i :: 0 <= i < |ops| ==> BranchDone(p, pr, ops[i], i)
    modifies ops
    ensures MapsKnown(p, pr, ops)
    ensures forall i :: 0 <= i < |ops| ==> ops[i].Nodes() == FinalBlock(p, pr, Trees(ops), i)
  {
    hide SitesOk, TargetsOk, NeighboursOk, JumpsOk, AssignAt, BranchDone, FinalBlock;
    ghost var trees := Trees(ops);
    for i := 0 to |ops|
      invariant MapsKnown(p, pr, ops) && Trees(ops) == trees
      invariant forall k :: i <= k < |ops| ==> BranchDone(p, pr, ops[k], k)
      invariant forall k :: 0 <= k < i ==> ops[k].Nodes() == FinalBlock(p, pr, trees, k)
    {
      AdjustJump(p, pr, ops, i);
      assert Trees(ops) == trees;
    }
  }

  lemma TreesCover(p: Pool, pr: Program, ops: seq<JitOp>)
    requires ProgramOk(p, pr) && OpsOf(pr, ops) && MapsKnown(p, pr, ops)
    ensures var pr' := WithWalks(pr, Trees(ops)); ProgramOk(p, pr') && WalksCover(p, pr')
  {
    hide SitesOk, TargetsOk, NeighboursOk, AssignAt;
    var pr' := WithWalks(pr, Trees(ops));
    WalksKeepProgram(p, pr, Trees(ops));
    forall i | 0 <= i < |pr.sites| && Jumps(pr.Op(i))
      ensures var t := pr.Op(i).jmp.value;
        && t < |pr.sites|
        && (forall v :: v in AssignAt(p, pr', i).rm ==> v in pr'.order(i).0)
        && (forall v :: v in AssignAt(p, pr', t).rm ==> v in pr'.order(i).1)
    {
      var t := pr.Op(i).jmp.value;
      assert Lands(pr, t);
      WalksDoNotMatter(p, pr, Trees(ops), i);
      WalksDoNotMatter(p, pr, Trees(ops), t);
      PreorderCovers(ops[i].regmap);
      PreorderCovers(ops[t].regmap);
    }
  }

  /** `jit_assign_regs`: the list it leaves is the allocated list that meaning is
      preserved for, walked in the order of its own trees. */
  method JitAssignRegs(p: Pool, pr: Program, ops: seq<JitOp>)
    requires ProgramOk(p, pr) && OpsOf(pr, ops) && forall i :: 0 <= i < |ops| ==> ops[i].Untouched()
    modifies ops
    ensures var pr' := WithWalks(pr, Trees(ops));
      && MapsKnown(p, pr, ops) && ProgramOk(p, pr') && WalksCover(p, pr')
      && forall i :: 0 <= i < |ops| ==> ops[i].Nodes() == Allocate(p, pr')[i]
  {
    AssignAllRegs(p, pr, ops);
    assert MapsKnown(p, pr, ops);
    AdjustBranches(p, pr, ops);
    AdjustJumps(p, pr, ops);
    TreesCover(p, pr, ops);
  }
}
