/** The allocator moves nothing that is not needed: it stores and loads only what is
    live, and an edge moves only what the two maps have in different places. */
module NeededMoves {
  import opened Ops
  import opened RegMap
  import opened RegAlloc
  import opened EdgeRepair

  /** What an inserted operation moves is needed. */
  predicate IsNeeded(s: Site, m: RegOp) {
    match m
    case UREG(v, _) => v in s.liveIn || v in s.liveOut
    case SYNCREG(v, _) => v in s.liveIn || v in s.liveOut
    case LREG(_, v) => v in s.liveIn && s.op.Mentions(v)
    case RENAMEREG(_, _) => s.op.code == PREPARE
  }

  predicate AllNeeded(s: Site, pre: seq<RegOp>) {
    forall m :: m in pre ==> IsNeeded(s, m)
  }

  lemma OperandNeeds(p: Pool, s: Site, a: Alloc, i: int)
    requires SiteOk(p, s) && 0 <= i < 3 && AllNeeded(s, a.pre)
    ensures AllNeeded(s, AssignOperand(p, s, a, i).0.pre)
  {
    hide SiteOk, SpillCandidate, IsAlias, Op.Mentions;
    if s.op.T(i) == REG || s.op.T(i) == TREG {
      OperandMentioned(s.op, i);
      if !IsAlias(s.op.A(i)) {
        AssociateNeeds(p, s, a, s.op.A(i));
      }
    }
  }

  lemma AssociateNeeds(p: Pool, s: Site, a: Alloc, v: int)
    requires SiteOk(p, s) && s.op.Mentions(v) && AllNeeded(s, a.pre)
    ensures AllNeeded(s, AssociateRegister(p, s, a, v).0.pre)
  {
    hide SiteOk, SpillCandidate, Op.Mentions;
  }

  lemma OperandsNeed(p: Pool, s: Site, a: Alloc)
    requires SiteOk(p, s) && AllNeeded(s, a.pre)
    ensures AllNeeded(s, AssignOperands(p, s, a).pre)
  {
    hide SiteOk, AssignOperand, AllNeeded;
    var a0 := AssignOperand(p, s, a, 0).0;
    var a1 := AssignOperand(p, s, a0, 1).0;
    OperandNeeds(p, s, a, 0);
    OperandNeeds(p, s, a0, 1);
    OperandNeeds(p, s, a1, 2);
  }

  lemma {:induction false} VacateNeeds(p: Pool, s: Site, a: Alloc, n: nat)
    requires PoolOk(p) && n <= |p.args| && AllNeeded(s, a.pre)
    ensures AllNeeded(s, VacateArgRegs(p, s, a, n).pre)
  {
    hide PoolOk, IsAssociated;
    if n > 0 {
      VacateNeeds(p, s, a, n - 1);
    }
  }

  lemma {:induction false} SyncNeeds(p: Pool, s: Site, a: Alloc, n: nat)
    requires n <= |p.regs| && AllNeeded(s, a.pre)
    ensures AllNeeded(s, SyncAll(p, s, a, n).pre)
  {
    hide IsAssociated;
    if n > 0 {
      SyncNeeds(p, s, a, n - 1);
    }
  }

  lemma {:induction false} SpillNeeds(p: Pool, s: Site, a: Alloc, n: nat)
    requires n <= |p.regs| && AllNeeded(s, a.pre)
    ensures AllNeeded(s, SpillAll(p, s, a, n).pre) && (!s.inUse ==> SpillAll(p, s, a, n).pre == a.pre)
  {
    hide IsAssociated;
    if n > 0 {
      SpillNeeds(p, s, a, n - 1);
    }
  }

  lemma PrepareNeeds(p: Pool, s: Site, a: Alloc)
    requires PoolOk(p) && s.op.code == PREPARE && AllNeeded(s, a.pre)
    ensures AllNeeded(s, PrepareRegistersForCall(p, s, a).pre)
  {
    hide PoolOk, SpillCandidate, IsAssociated, VacateArgRegs;
    var b := SaveReturnReg(p, s, a);
    assert AllNeeded(s, b.pre);
    if s.op.a0 >= 0 {
      VacateNeeds(p, s, b, Min(s.op.a0, |p.args|));
    }
  }

  lemma NothingMoved(s: Site)
    ensures AllNeeded(s, [])
  {
  }

  /** In front of every operation. */
  lemma AssignNeeds(p: Pool, s: Site, info: seq<ArgInfo>, prev: Rmap)
    requires SiteOk(p, s) && (s.op.code == RETVAL ==> IsFree(prev, p.ret.id))
    ensures AllNeeded(s, AssignRegs(p, s, info, prev).pre)
    ensures s.op.code == FULL_SPILL && !s.inUse ==> AssignRegs(p, s, info, prev).pre == []
  {
    hide PrepareRegistersForCall, SyncAll, SpillAll, AssignOperands, ArgMap, HintsExact, OperandsOk, TakesOver, PoolOk, AllNeeded;
    var a := Alloc(prev, []);
    NothingMoved(s);
    match s.op.code
    case PROLOG => OperandsNeed(p, s, Alloc(ArgMap(p, info, |info|).0, []));
    case PREPARE =>
      PrepareNeeds(p, s, a);
      OperandsNeed(p, s, PrepareRegistersForCall(p, s, a));
    case JMP =>
      SyncNeeds(p, s, a, |p.regs|);
      OperandsNeed(p, s, a);
      OperandsNeed(p, s, SyncAll(p, s, a, |p.regs|));
    case FULL_SPILL => SpillNeeds(p, s, a, |p.regs|);
    case _ => OperandsNeed(p, s, a);
  }

  /** An argument that fills a register, is still in it and is not read again costs
      nothing: its register is handed over. */
  lemma GetargIsFree(p: Pool, s: Site, info: seq<ArgInfo>, prev: Rmap)
    requires SiteOk(p, s) && s.op.code == GETARG
    ensures var r, g := AssignRegs(p, s, info, prev), ArgReg(s.op.a1);
      && (r.code == NOP <==>
            0 <= s.op.a1 < |info| && !info[s.op.a1].isFloat && info[s.op.a1].size == 8 && g in prev && g !in s.liveOut)
      && (r.code == NOP ==> r.pre == [] && s.op.a0 in r.rm && r.rm[s.op.a0] == prev[g])
  {
    hide AssignOperands, SiteOk;
  }

  // ---- Edges -----------------------------------------------------------------------------

  /** A store of what the target wants elsewhere, or a load of what it wants in a register. */
  predicate EdgeNeeds(cur: Rmap, tgt: Rmap, liveOut: set<int>, tgtLiveIn: set<int>, m: RegOp) {
    match m
    case UREG(v, h) => v in tgtLiveIn && v in cur && cur[v] == h && (v in tgt ==> tgt[v] != h)
    case LREG(h, v) => v in liveOut && v in tgt && tgt[v] == h && (v in cur ==> cur[v] != h)
    case _ => false
  }

  lemma {:induction false} UnloadsNeed(keys: seq<int>, cur: Rmap, tgt: Rmap, liveOut: set<int>, tgtLiveIn: set<int>)
    ensures forall m :: m in Unloads(keys, cur, tgt, tgtLiveIn) ==> EdgeNeeds(cur, tgt, liveOut, tgtLiveIn, m)
  {
    if keys != [] {
      UnloadsNeed(keys[..|keys| - 1], cur, tgt, liveOut, tgtLiveIn);
    }
  }

  lemma {:induction false} LoadsNeed(keys: seq<int>, cur: Rmap, tgt: Rmap, liveOut: set<int>, tgtLiveIn: set<int>)
    ensures forall m :: m in Loads(keys, cur, tgt, liveOut) ==> EdgeNeeds(cur, tgt, liveOut, tgtLiveIn, m)
  {
    if keys != [] {
      LoadsNeed(keys[..|keys| - 1], cur, tgt, liveOut, tgtLiveIn);
    }
  }

  lemma RepairNeeds(curKeys: seq<int>, tgtKeys: seq<int>, cur: Rmap, tgt: Rmap, liveOut: set<int>, tgtLiveIn: set<int>)
    ensures forall m :: m in RepairMoves(curKeys, tgtKeys, cur, tgt, liveOut, tgtLiveIn) ==> EdgeNeeds(cur, tgt, liveOut, tgtLiveIn, m)
  {
    UnloadsNeed(curKeys, cur, tgt, liveOut, tgtLiveIn);
    LoadsNeed(tgtKeys, cur, tgt, liveOut, tgtLiveIn);
  }
}
