/** What the register allocator does at a PREPARE, against what the code of the call
    relies on (`prepare_registers_for_call` in `myjit/reg-allocator.h`, the pool in
    `myjit/amd64-specific.h`). */
module Amd64Prepare {
  import opened Ops
  import opened Amd64Args
  import opened Amd64Call
  import RegMap
  import RegAlloc

  /** The registers of `jit_reg_allocator_create`. */
  const RAX_REG := RegMap.HwReg(0, false, 7)
  const RBX_REG := RegMap.HwReg(3, true, 8)
  const RCX_REG := RegMap.HwReg(1, false, 4)
  const RDX_REG := RegMap.HwReg(2, false, 3)
  const RSI_REG := RegMap.HwReg(6, false, 2)
  const RDI_REG := RegMap.HwReg(7, false, 1)
  const R8_REG := RegMap.HwReg(8, false, 5)
  const R9_REG := RegMap.HwReg(9, false, 6)
  const R10_REG := RegMap.HwReg(10, false, 9)
  const R11_REG := RegMap.HwReg(11, false, 10)
  const R12_REG := RegMap.HwReg(12, true, 11)
  const R14_REG := RegMap.HwReg(14, true, 13)
  const R15_REG := RegMap.HwReg(15, true, 14)
  const RBP := 5

  function Amd64Pool(): RegMap.Pool {
    RegMap.Pool(
      [RAX_REG, RBX_REG, RCX_REG, RDX_REG, RSI_REG, RDI_REG, R8_REG, R9_REG, R10_REG, R11_REG, R12_REG, R14_REG, R15_REG],
      RAX_REG, [RDI_REG, RSI_REG, RDX_REG, RCX_REG, R8_REG, R9_REG], RBP, 0)
  }

  const CALLEE_SAVED := {3, 12, 14, 15}

  /** What matters of the pool here. */
  predicate PoolFits(p: RegMap.Pool) {
    && RegMap.PoolOk(p) && p.ret.id == RAX && p.ax == RAX
    && |p.args| == |GP_ARG_REGS| && (forall q :: 0 <= q < |p.args| ==> p.args[q].id == GP_ARG_REGS[q])
    && (forall r :: r in p.regs && r.calleeSaved ==> r.id in CALLEE_SAVED)
    && (forall r :: r in p.regs ==> 0 <= r.id < 16 && 0 <= r.priority < 100)
  }

  /** The place of a register number in the pool. */
  function PlaceInPool(id: int): int {
    match id
    case 0 => 0 case 3 => 1 case 1 => 2 case 2 => 3 case 6 => 4 case 7 => 5 case 8 => 6
    case 9 => 7 case 10 => 8 case 11 => 9 case 12 => 10 case 14 => 11 case 15 => 12
    case _ => -1
  }

  lemma RegistersAre(i: nat)
    requires i < 13
    ensures var r := Amd64Pool().regs[i];
      && PlaceInPool(r.id) == i && 0 <= r.id < 16 && 0 <= r.priority < 100 && r.id != RBP && -0x8000 <= r.priority <= 0x7fff
      && (r.calleeSaved ==> r.id in CALLEE_SAVED)
  {
    assert i == 0 || i == 1 || i == 2 || i == 3 || i == 4 || i == 5 || i == 6 || i == 7 || i == 8 || i == 9 || i == 10 || i == 11 || i == 12;
  }

  lemma ArgumentsAre(q: nat)
    requires q < 6
    ensures var p := Amd64Pool();
      p.args[q].id == GP_ARG_REGS[q] && 0 <= PlaceInPool(p.args[q].id) < 13 && p.regs[PlaceInPool(p.args[q].id)] == p.args[q]
  {
    assert q == 0 || q == 1 || q == 2 || q == 3 || q == 4 || q == 5;
  }

  lemma PoolShape()
    ensures var p := Amd64Pool(); |p.regs| == 13 && |p.args| == 6 && p.ret == p.regs[0] && p.ret.id == RAX == p.ax && p.fpReg == RBP
    ensures |GP_ARG_REGS| == 6
  {
  }

  lemma Amd64PoolFits()
    ensures PoolFits(Amd64Pool())
  {
    hide Amd64Pool, PlaceInPool;
    PoolShape();
    var p := Amd64Pool();
    forall i: nat | i < 13
      ensures PlaceInPool(p.regs[i].id) == i && 0 <= p.regs[i].id < 16 && 0 <= p.regs[i].priority < 100 && p.regs[i].id != RBP && -0x8000 <= p.regs[i].priority <= 0x7fff
      ensures p.regs[i].calleeSaved ==> p.regs[i].id in CALLEE_SAVED
    {
      RegistersAre(i);
    }
    forall q: nat | q < 6
      ensures p.args[q].id == GP_ARG_REGS[q] && p.args[q] in p.regs
    {
      ArgumentsAre(q);
    }
    ArgumentsDiffer(p);
  }

  lemma ArgumentsDiffer(p: RegMap.Pool)
    requires |p.args| == 6 && forall q: nat :: q < 6 ==> p.args[q].id == GP_ARG_REGS[q]
    ensures forall i, j :: 0 <= i < j < 6 ==> p.args[i].id != p.args[j].id
  {
    assert forall i, j :: 0 <= i < j < 6 ==> GP_ARG_REGS[i] != GP_ARG_REGS[j];
  }

  /** The allocator's map, as the code of the call sees it. */
  function MapAtCall(m: RegMap.Rmap): PrepareMap {
    map v | v in m && m[v] >= 0 :: VReg(Gp, v) := m[v]
  }

  // ----- The argument registers are free -----

  /** After a PREPARE that counts the arguments, no integer argument comes from a
      register another one is passed in. */
  lemma PreparedIsSafe(p: RegMap.Pool, s: RegMap.Site, a: RegAlloc.Alloc, args: seq<OutArg>)
    requires PoolFits(p) && Numbered(args) && s.op.a0 == GpArgs(args)
    ensures SourcesSafe(args, MapAtCall(RegAlloc.PrepareRegistersForCall(p, s, a).rm))
  {
    hide PoolFits, RegAlloc.PrepareRegistersForCall, KindsOf;
    assert RegMap.PoolOk(p) by { FitsIsOk(p); }
    var m := RegAlloc.PrepareRegistersForCall(p, s, a).rm;
    forall j, v | 0 <= j < |args| && args[j].kind == Gp && ByRegister(args[j]) && v in m
      ensures m[v] != GP_ARG_REGS[args[j].argPos]
    {
      PassedIsFree(p, s, a, args, j);
    }
    SafeWhenFree(args, m);
  }

  /** The register an integer argument is passed in is free. */
  lemma PassedIsFree(p: RegMap.Pool, s: RegMap.Site, a: RegAlloc.Alloc, args: seq<OutArg>, j: nat)
    requires PoolFits(p) && Numbered(args) && s.op.a0 == GpArgs(args)
    requires j < |args| && args[j].kind == Gp && ByRegister(args[j])
    ensures RegMap.IsFree(RegAlloc.PrepareRegistersForCall(p, s, a).rm, GP_ARG_REGS[args[j].argPos])
  {
    hide PoolFits, RegAlloc.PrepareRegistersForCall, KindsOf;
    assert NumberedAt(args, j);
    EarlierGrows(KindsOf(args), j, |args|);
    PositionFree(p, s, a, args[j].argPos);
  }

  lemma FitsIsOk(p: RegMap.Pool)
    requires PoolFits(p)
    ensures RegMap.PoolOk(p) && p.ret.id == RAX
  {
  }

  lemma PositionFree(p: RegMap.Pool, s: RegMap.Site, a: RegAlloc.Alloc, q: nat)
    requires PoolFits(p) && q < s.op.a0 && q < |GP_ARG_REGS|
    ensures RegMap.IsFree(RegAlloc.PrepareRegistersForCall(p, s, a).rm, GP_ARG_REGS[q])
  {
    hide RegAlloc.SaveReturnReg, RegAlloc.VacateArgRegs;
    assert q < RegAlloc.Min(s.op.a0, |p.args|);
  }

  lemma SafeWhenFree(args: seq<OutArg>, m: RegMap.Rmap)
    requires Numbered(args)
    requires forall j, v :: 0 <= j < |args| && args[j].kind == Gp && ByRegister(args[j]) && v in m ==>
      m[v] != GP_ARG_REGS[args[j].argPos]
    ensures SourcesSafe(args, MapAtCall(m))
  {
    forall i | 0 <= i < |args| && args[i].source.Var? && args[i].source.reg in MapAtCall(m)
      ensures Untouched(args, args[i].kind, m[args[i].source.reg.id])
    {
      assert NumberedAt(args, i);
    }
  }

  /** Of the registers that still hold something at the CALL, none is written before it:
      a called address is read from its register or from its slot. */
  lemma CalleeIsSafe(p: RegMap.Pool, s: RegMap.Site, a: RegAlloc.Alloc, call: RegMap.Site, info: seq<ArgInfo>,
                     args: seq<OutArg>, callee: Callee)
    requires PoolFits(p) && Numbered(args) && s.op.a0 == GpArgs(args)
    requires RegAlloc.SiteOk(p, call) && call.op.code == CALL
    ensures var m := RegAlloc.PrepareRegistersForCall(p, s, a).rm;
      CalleeSafe(args, MapAtCall(RegAlloc.AssignRegs(p, call, info, m).rm), callee)
  {
    hide PoolFits, RegAlloc.PrepareRegistersForCall, RegAlloc.AssignRegs, Numbered, RegAlloc.SiteOk;
    FitsIsOk(p);
    var m := RegAlloc.PrepareRegistersForCall(p, s, a).rm;
    AtCallMap(p, call, info, m);
    forall j, v | 0 <= j < |args| && args[j].kind == Gp && ByRegister(args[j]) && v in m
      ensures m[v] != ArgRegs(Gp)[args[j].argPos]
    {
      PassedIsFree(p, s, a, args, j);
    }
    SafeCallee(args, m, RegAlloc.AssignRegs(p, call, info, m).rm, callee);
  }

  /** A CALL only forgets what the return register holds. */
  lemma AtCallMap(p: RegMap.Pool, call: RegMap.Site, info: seq<ArgInfo>, m: RegMap.Rmap)
    requires RegAlloc.SiteOk(p, call) && call.op.code == CALL
    ensures var m' := RegAlloc.AssignRegs(p, call, info, m).rm;
      RegMap.IsFree(m', p.ret.id) && forall v :: v in m' ==> v in m && m'[v] == m[v]
  {
  }

  lemma SafeCallee(args: seq<OutArg>, m: RegMap.Rmap, m': RegMap.Rmap, callee: Callee)
    requires RegMap.IsFree(m', RAX) && forall v :: v in m' ==> v in m && m'[v] == m[v]
    requires forall j, v :: 0 <= j < |args| && args[j].kind == Gp && ByRegister(args[j]) && v in m ==>
      m[v] != ArgRegs(Gp)[args[j].argPos]
    ensures CalleeSafe(args, MapAtCall(m'), callee)
  {
  }

  // ----- The return register may not be -----

  /** When no callee-saved register is free, a live value in the return register is
      stored but stays there. */
  lemma ReturnRegStays(p: RegMap.Pool, s: RegMap.Site, a: RegAlloc.Alloc, v: int)
    requires PoolFits(p) && v in a.rm && a.rm[v] == RAX && v in s.liveOut
    requires forall h :: h in CALLEE_SAVED ==> !RegMap.IsFree(a.rm, h)
    ensures var r := RegAlloc.PrepareRegistersForCall(p, s, a);
      v in r.rm && r.rm[v] == RAX && RegAlloc.SYNCREG(v, RAX) in r.pre
  {
    var b := RegAlloc.SaveReturnReg(p, s, a);
    OnlySynced(p, s, a, v);
    if s.op.a0 >= 0 {
      hide RegAlloc.SaveReturnReg, RegAlloc.VacateArgRegs;
      VacateKeeps(p, s, b, RegAlloc.Min(s.op.a0, |p.args|), v, RegAlloc.SYNCREG(v, RAX));
    }
  }

  lemma OnlySynced(p: RegMap.Pool, s: RegMap.Site, a: RegAlloc.Alloc, v: int)
    requires PoolFits(p) && v in a.rm && a.rm[v] == RAX && v in s.liveOut
    requires forall h :: h in CALLEE_SAVED ==> !RegMap.IsFree(a.rm, h)
    ensures var b := RegAlloc.SaveReturnReg(p, s, a); b.rm == a.rm && b.pre == a.pre + [RegAlloc.SYNCREG(v, RAX)]
  {
    hide RegMap.SpillCandidate, RegMap.PoolOk;
    NoFreeChoice(p, s, a.rm, v);
  }

  lemma NoFreeChoice(p: RegMap.Pool, s: RegMap.Site, m: RegMap.Rmap, v: int)
    requires PoolFits(p) && forall h :: h in CALLEE_SAVED ==> !RegMap.IsFree(m, h)
    ensures var c := RegMap.SpillCandidate(p, s, m, v, true); c.hw.None? || c.spill.Some?
  {
    hide RegMap.PoolOk, RegMap.CandidateScore;
    RegMap.BestOfIsBest(p, s, m, v, true, |p.regs|);
    assert p.regs[..|p.regs|] == p.regs;
  }

  /** Vacating argument registers touches no other, and undoes no move. */
  lemma {:induction false} VacateKeeps(p: RegMap.Pool, s: RegMap.Site, a: RegAlloc.Alloc, n: nat, v: int, m: RegAlloc.RegOp)
    requires RegMap.PoolOk(p) && n <= |p.args| && v in a.rm && (forall q :: 0 <= q < n ==> p.args[q].id != a.rm[v]) && m in a.pre
    ensures var r := RegAlloc.VacateArgRegs(p, s, a, n); v in r.rm && r.rm[v] == a.rm[v] && m in r.pre
  {
    hide RegMap.PoolOk;
    if n > 0 {
      VacateKeeps(p, s, a, n - 1, v, m);
    }
  }

  // ----- When it is -----

  /** Register i of the pool is free, calls keep it, and it beats all of the kind that
      are held. */
  predicate FreeWins(p: RegMap.Pool, s: RegMap.Site, m: RegMap.Rmap, i: nat)
    requires i < |p.regs|
  {
    && p.regs[i].calleeSaved && RegMap.IsFree(m, p.regs[i].id)
    && forall x, h :: x in m && h in p.regs && h.calleeSaved && m[x] == h.id ==>
         s.op.Mentions(x) || 5 * RegMap.StepsAhead(s, x) < 100000 + h.priority - p.regs[i].priority + AliveWeight(s, x)
  }

  /** Register i of the pool holds x, calls keep it, and it beats all of the kind that
      are free. */
  predicate HeldWins(p: RegMap.Pool, s: RegMap.Site, m: RegMap.Rmap, i: nat, x: int)
    requires i < |p.regs|
  {
    && p.regs[i].calleeSaved && x in m && m[x] == p.regs[i].id && !s.op.Mentions(x)
    && forall g :: g in p.regs && g.calleeSaved && RegMap.IsFree(m, g.id) ==>
         5 * RegMap.StepsAhead(s, x) > 100000 + p.regs[i].priority - g.priority + AliveWeight(s, x)
  }

  function AliveWeight(s: RegMap.Site, x: int): int {
    if RegMap.Alive(s, x) then 10000 else 0
  }

  /** If nothing held is needed only 19980 operations ahead, any free register wins. */
  lemma SoonIsEnough(p: RegMap.Pool, s: RegMap.Site, m: RegMap.Rmap, i: nat)
    requires PoolFits(p) && i < |p.regs| && p.regs[i].calleeSaved && RegMap.IsFree(m, p.regs[i].id)
    requires forall x :: x in m ==> RegMap.StepsAhead(s, x) < 19980
    ensures FreeWins(p, s, m, i)
  {
    hide RegMap.StepsAhead, RegMap.PoolOk;
  }

  lemma FreeIsChosen(p: RegMap.Pool, s: RegMap.Site, m: RegMap.Rmap, v: int, i: nat)
    requires PoolFits(p) && RegMap.HintsExact(s) && i < |p.regs| && FreeWins(p, s, m, i)
    ensures var c := RegMap.SpillCandidate(p, s, m, v, true);
      c.hw.Some? && c.spill.None? && c.hw.value in p.regs && c.hw.value.calleeSaved && RegMap.IsFree(m, c.hw.value.id)
  {
    hide RegMap.CandidateScore, RegMap.StepsAhead, RegMap.HintsExact, RegMap.PoolOk, RegMap.IsAssociated, RegMap.Alive;
    FitsIsOk(p);
    var c, g := RegMap.SpillCandidate(p, s, m, v, true), p.regs[i];
    RegMap.BestOfIsBest(p, s, m, v, true, |p.regs|);
    assert p.regs[..|p.regs|] == p.regs;
    FreeScores(p, s, m, v, g);
    if c.spill.Some? {
      SameKind(p, g, c.hw.value);
      RegMap.FreeAgainstHeld(p, s, m, v, g, c.hw.value, c.spill.value);
    }
  }

  lemma SameKind(p: RegMap.Pool, g: RegMap.HwReg, h: RegMap.HwReg)
    requires PoolFits(p) && g in p.regs && h in p.regs && g.calleeSaved && h.calleeSaved
    ensures RegMap.SameClass(p, g, h)
  {
  }

  lemma FreeScores(p: RegMap.Pool, s: RegMap.Site, m: RegMap.Rmap, v: int, g: RegMap.HwReg)
    requires RegMap.PoolOk(p) && RegMap.HintsExact(s) && g in p.regs && RegMap.IsFree(m, g.id)
    ensures RegMap.CandidateScore(p, s, m, v, g).0 > RegMap.INT_MIN
  {
    RegMap.ScoreAboveSentinel(p, s, m, v, g);
  }

  lemma HeldIsChosen(p: RegMap.Pool, s: RegMap.Site, m: RegMap.Rmap, v: int, i: nat, x: int)
    requires PoolFits(p) && RegMap.HintsExact(s) && i < |p.regs| && HeldWins(p, s, m, i, x)
    ensures var c := RegMap.SpillCandidate(p, s, m, v, true); c.hw.None? || c.spill.Some?
  {
    hide RegMap.CandidateScore, RegMap.StepsAhead, RegMap.HintsExact, RegMap.PoolOk, RegMap.IsAssociated, RegMap.Alive;
    FitsIsOk(p);
    var c, h := RegMap.SpillCandidate(p, s, m, v, true), p.regs[i];
    RegMap.BestOfIsBest(p, s, m, v, true, |p.regs|);
    assert p.regs[..|p.regs|] == p.regs;
    if c.hw.Some? && c.spill.None? {
      SameKind(p, c.hw.value, h);
      RegMap.FreeAgainstHeld(p, s, m, v, c.hw.value, h, x);
    }
  }

  /** A live value moves from the return register to a free register that calls keep, if
      one wins. */
  lemma ReturnRegMoves(p: RegMap.Pool, s: RegMap.Site, a: RegAlloc.Alloc, v: int, i: nat)
    requires PoolFits(p) && RegMap.HintsExact(s) && v in a.rm && a.rm[v] == RAX && RegMap.Alive(s, v)
    requires i < |p.regs| && FreeWins(p, s, a.rm, i)
    ensures var r := RegAlloc.PrepareRegistersForCall(p, s, a);
      && v in r.rm && r.rm[v] in CALLEE_SAVED && RegMap.IsFree(a.rm, r.rm[v])
      && RegAlloc.RENAMEREG(r.rm[v], RAX) in r.pre && RegMap.IsFree(r.rm, RAX)
  {
    hide RegMap.SpillCandidate, RegMap.HintsExact, RegMap.PoolOk, FreeWins;
    FitsIsOk(p);
    FreeIsChosen(p, s, a.rm, v, i);
    var g := RegMap.SpillCandidate(p, s, a.rm, v, true).hw.value;
    var b := RegAlloc.SaveReturnReg(p, s, a);
    RegMap.HeldBy(a.rm, p.ret, v);
    assert g.id in CALLEE_SAVED && b.rm[v] == g.id && RegAlloc.RENAMEREG(g.id, RAX) in b.pre;
    assert RegMap.IsFree(b.rm, RAX);
    if s.op.a0 >= 0 {
      var n := RegAlloc.Min(s.op.a0, |p.args|);
      assert forall q :: 0 <= q < n ==> p.args[q].id == GP_ARG_REGS[q] && GP_ARG_REGS[q] !in CALLEE_SAVED;
      VacateKeeps(p, s, b, n, v, RegAlloc.RENAMEREG(g.id, RAX));
      assert RegMap.IsFree(RegAlloc.VacateArgRegs(p, s, b, n).rm, RAX);
    }
  }

  /** Then no argument comes from the register pushed constants go through. */
  lemma NothingClobbered(p: RegMap.Pool, s: RegMap.Site, a: RegAlloc.Alloc, v: int, i: nat, args: seq<OutArg>)
    requires PoolFits(p) && RegMap.HintsExact(s) && v in a.rm && a.rm[v] == RAX && RegMap.Alive(s, v)
    requires i < |p.regs| && FreeWins(p, s, a.rm, i)
    ensures !Clobbered(args, MapAtCall(RegAlloc.PrepareRegistersForCall(p, s, a).rm))
  {
    hide RegAlloc.PrepareRegistersForCall, PoolFits, RegMap.HintsExact, FreeWins;
    ReturnRegMoves(p, s, a, v, i);
  }

  /** It is stored but stays there if a held register wins, though others may be free. */
  lemma ReturnRegOutbid(p: RegMap.Pool, s: RegMap.Site, a: RegAlloc.Alloc, v: int, i: nat, x: int)
    requires PoolFits(p) && RegMap.HintsExact(s) && v in a.rm && a.rm[v] == RAX && RegMap.Alive(s, v)
    requires i < |p.regs| && HeldWins(p, s, a.rm, i, x)
    ensures var r := RegAlloc.PrepareRegistersForCall(p, s, a);
      v in r.rm && r.rm[v] == RAX && RegAlloc.SYNCREG(v, RAX) in r.pre
  {
    hide RegMap.SpillCandidate, RegMap.HintsExact, RegMap.PoolOk, HeldWins;
    FitsIsOk(p);
    HeldIsChosen(p, s, a.rm, v, i, x);
    RegMap.HeldBy(a.rm, p.ret, v);
    var b := RegAlloc.SaveReturnReg(p, s, a);
    assert b.rm == a.rm && RegAlloc.SYNCREG(v, RAX) in b.pre;
    if s.op.a0 >= 0 {
      VacateKeeps(p, s, b, RegAlloc.Min(s.op.a0, |p.args|), v, RegAlloc.SYNCREG(v, RAX));
    }
  }

  // ----- A call that goes wrong -----

  /** A PREPARE for seven integer arguments, five registers live across it. */
  function BusySite(): RegMap.Site {
    RegMap.Site(Op(PREPARE, Bare, false, IMM, IMM, NO, 7, 0, 0, 8, None, 0), {16, 32, 48, 64, 80}, {16, 32, 48, 64, 80},
                map[16 := RegMap.Hint(1, 0, 0), 32 := RegMap.Hint(1, 0, 0), 48 := RegMap.Hint(1, 0, 0),
                    64 := RegMap.Hint(1, 0, 0), 80 := RegMap.Hint(1, 0, 0)], 9, true)
  }

  /** One of them in %rax, the others in the callee-saved registers. */
  function BusyMap(): map<int, int> {
    map[16 := 0, 32 := 3, 48 := 12, 64 := 14, 80 := 15]
  }

  lemma BusyMapIsMap()
    ensures RegMap.Injective(BusyMap()) && forall h :: h in CALLEE_SAVED ==> exists v :: v in BusyMap() && BusyMap()[v] == h
  {
    var m := BusyMap();
    assert m[32] == 3 && m[48] == 12 && m[64] == 14 && m[80] == 15 && 32 in m && 48 in m && 64 in m && 80 in m;
  }

  /** The register in %rax first, and constants for the rest; the last does not fit a register. */
  function BusyArgs(): seq<OutArg> {
    [OutArg(Gp, 0, Var(VReg(Gp, 16)), false), OutArg(Gp, 1, Imm(1), false), OutArg(Gp, 2, Imm(2), false),
     OutArg(Gp, 3, Imm(3), false), OutArg(Gp, 4, Imm(4), false), OutArg(Gp, 5, Imm(5), false), OutArg(Gp, 6, Imm(6), false)]
  }

  lemma {:induction false} CountAllGp(kinds: seq<Kind>, n: nat)
    requires n <= |kinds| && forall i :: 0 <= i < |kinds| ==> kinds[i] == Gp
    ensures Earlier(kinds, n, Gp) == n
  {
    if n > 0 {
      CountAllGp(kinds, n - 1);
    }
  }

  lemma BusyArgsNumbered()
    ensures Numbered(BusyArgs()) && |BusyArgs()| == 7 && forall i :: 0 <= i < 7 ==> BusyArgs()[i].kind == Gp
  {
    var args := BusyArgs();
    forall i | 0 <= i < |args|
      ensures NumberedAt(args, i)
    {
      CountAllGp(KindsOf(args), i);
    }
  }

  /** The allocator itself leaves a call whose first argument is lost: a register
      that is live and cannot be moved stays in %rax, through which the argument on
      the stack is passed. */
  lemma ReturnRegisterLost(f: Frame, correction: nat) returns (m: RegMap.Rmap)
    ensures RegMap.HintsExact(BusySite()) && RegMap.Injective(BusyMap()) && PoolFits(Amd64Pool())
    ensures RegMap.InPool(Amd64Pool(), BusyMap())
    ensures m == RegAlloc.PrepareRegistersForCall(Amd64Pool(), BusySite(), RegAlloc.Alloc(BusyMap(), [])).rm
    ensures Numbered(BusyArgs()) && SourcesSafe(BusyArgs(), MapAtCall(m)) && Clobbered(BusyArgs(), MapAtCall(m))
    ensures exists s :: Ready(s) && !AllArrive(BusyArgs(), MapAtCall(m), f, correction, s)
  {
    hide Amd64Pool, BusyMap, BusySite, BusyArgs, PoolFits, Numbered, SourcesSafe, Clobbered, AllArrive, RegAlloc.PrepareRegistersForCall;
    BusyHints();
    BusyMapInPool();
    Amd64PoolFits();
    FitsIsOk(Amd64Pool());
    m := BusyPrepared();
    BusyClobbered(m);
    BusyArgsNumbered();
    CallPasses(BusyArgs(), MapAtCall(m), f, correction);
  }

  lemma BusyHints()
    ensures RegMap.HintsExact(BusySite()) && BusySite().op.a0 == 7 && 16 in BusySite().liveOut
  {
    var op := BusySite().op;
    assert op.Uses() == {} && op.Defs() == {};
  }

  lemma BusyPrepared() returns (m: RegMap.Rmap)
    requires RegMap.Injective(BusyMap()) && RegMap.PoolOk(Amd64Pool())
    ensures m == RegAlloc.PrepareRegistersForCall(Amd64Pool(), BusySite(), RegAlloc.Alloc(BusyMap(), [])).rm
    ensures 16 in m && m[16] == RAX && SourcesSafe(BusyArgs(), MapAtCall(m))
  {
    hide Amd64Pool, PoolFits, BusySite, BusyArgs, RegAlloc.PrepareRegistersForCall, RegMap.PoolOk, Numbered, SourcesSafe;
    Amd64PoolFits();
    BusyHints();
    BusyArgsNumbered();
    BusyMapIsMap();
    m := RegAlloc.PrepareRegistersForCall(Amd64Pool(), BusySite(), RegAlloc.Alloc(BusyMap(), [])).rm;
    ReturnRegStays(Amd64Pool(), BusySite(), RegAlloc.Alloc(BusyMap(), []), 16);
    PreparedIsSafe(Amd64Pool(), BusySite(), RegAlloc.Alloc(BusyMap(), []), BusyArgs());
  }

  lemma BusyClobbered(m: RegMap.Rmap)
    requires 16 in m && m[16] == RAX
    ensures Clobbered(BusyArgs(), MapAtCall(m))
  {
    assert FromRax(BusyArgs()[0], MapAtCall(m)) && ThroughRax(BusyArgs()[6]);
  }

  // ----- A free register is passed over -----

  /** The same PREPARE with two registers live: one in %rax, one in %r12 that is needed
      only 25000 operations ahead.  %rbx is free. */
  function FarSite(): RegMap.Site {
    RegMap.Site(BusySite().op, {16, 32}, {16, 32}, map[16 := RegMap.Hint(25100, 0, 0), 32 := RegMap.Hint(200, 0, 0)], 25200, true)
  }

  function FarMap(): map<int, int> {
    map[16 := 0, 32 := 12]
  }

  /** The free register is passed over, and the first of seven arguments is lost. */
  lemma FreeRegisterPassedOver() returns (m: RegMap.Rmap)
    ensures RegMap.HintsExact(FarSite()) && RegMap.Injective(FarMap()) && PoolFits(Amd64Pool())
    ensures RegMap.IsFree(FarMap(), RBX_REG.id)
    ensures m == RegAlloc.PrepareRegistersForCall(Amd64Pool(), FarSite(), RegAlloc.Alloc(FarMap(), [])).rm
    ensures 16 in m && m[16] == RAX && Clobbered(BusyArgs(), MapAtCall(m))
  {
    hide Amd64Pool, RegAlloc.PrepareRegistersForCall, BusyArgs, PoolFits, HeldWins, RegMap.HintsExact;
    FarFacts();
    Amd64PoolFits();
    FitsIsOk(Amd64Pool());
    FarWins();
    ReturnRegOutbid(Amd64Pool(), FarSite(), RegAlloc.Alloc(FarMap(), []), 16, 10, 32);
    m := RegAlloc.PrepareRegistersForCall(Amd64Pool(), FarSite(), RegAlloc.Alloc(FarMap(), [])).rm;
    BusyClobbered(m);
  }

  lemma FarFacts()
    ensures RegMap.HintsExact(FarSite()) && RegMap.Injective(FarMap()) && RegMap.IsFree(FarMap(), RBX_REG.id)
    ensures RegMap.Alive(FarSite(), 16) && RegMap.Alive(FarSite(), 32) && RegMap.StepsAhead(FarSite(), 32) == 25000
    ensures !FarSite().op.Mentions(32) && FarMap()[32] == 12 && 32 in FarMap() && 16 in FarMap() && FarMap()[16] == RAX
  {
    var op := FarSite().op;
    assert op.Uses() == {} && op.Defs() == {};
  }

  lemma FarWins()
    requires RegMap.Injective(FarMap())
    ensures |Amd64Pool().regs| == 13 && HeldWins(Amd64Pool(), FarSite(), FarMap(), 10, 32)
  {
    FarFacts();
    Amd64PoolFits();
    var p := Amd64Pool();
    assert |p.regs| == 13 && p.regs[10] == R12_REG;
    hide Amd64Pool, FarSite, FarMap, RegMap.PoolOk, RegMap.StepsAhead, RegMap.Alive;
  }

  lemma BusyMapInPool()
    ensures RegMap.Injective(BusyMap()) && RegMap.InPool(Amd64Pool(), BusyMap())
  {
    BusyMapIsMap();
    var regs := Amd64Pool().regs;
    assert regs[0].id == 0 && regs[1].id == 3 && regs[10].id == 12 && regs[11].id == 14 && regs[12].id == 15;
  }
}
