/** What the inserted operations do to the hardware: every rule of the allocator
    keeps each live virtual register in the place its map says. */
module AllocMoves {
  import opened Ops
  import opened RegMap
  import opened RegAlloc
  import opened Machine

  /** Each register of `live` is where `rm` says. */
  ghost predicate HoldsAll<W, M>(rm: Rmap, live: set<int>, regs: int -> W, s: Hw<W, M>) {
    forall v :: v in live && !IsAlias(v) ==> ValueOf(rm, s, v) == regs(v)
  }

  /** Only registers and slots differ. */
  ghost predicate SameRest<W, M>(s: Hw<W, M>, t: Hw<W, M>) {
    t.mem == s.mem && t.args == s.args && t.argMap == s.argMap && t.block == s.block && t.index == s.index
  }

  /** After the operations inserted so far, the map so far is right. */
  ghost predicate Tracks<W, M>(p: Pool, a: Alloc, live: set<int>, regs: int -> W, s0: Hw<W, M>) {
    var s := ExecRegOps(a.pre, s0);
    && InPool(p, a.rm)
    && HoldsAll(a.rm, live, regs, s)
    && s.hw(p.fpReg) == regs(R_FP)
    && SameRest(s0, s)
  }

  lemma ExecSnoc<W, M>(ms: seq<RegOp>, m: RegOp, s: Hw<W, M>)
    ensures ExecRegOps(ms + [m], s) == ExecRegOp(m, ExecRegOps(ms, s))
  {
    assert (ms + [m])[..|ms|] == ms;
  }

  // ---- The elementary moves --------------------------------------------------

  /** A store leaves every place as it was, and the slot up to date. */
  lemma StoreTracks<W, M>(p: Pool, a: Alloc, x: int, m: RegOp, live: set<int>, regs: int -> W, s0: Hw<W, M>)
    requires Tracks(p, a, live, regs, s0) && x in a.rm
    requires m == UREG(x, a.rm[x]) || m == SYNCREG(x, a.rm[x])
    ensures Tracks(p, a.(pre := a.pre + [m]), live, regs, s0)
    ensures ExecRegOps(a.pre + [m], s0) == var s := ExecRegOps(a.pre, s0); s.(slot := Set(s.slot, x, s.hw(a.rm[x])))
  {
    ExecSnoc(a.pre, m, s0);
  }

  /** Dropping a register that is not live, or whose slot is up to date. */
  lemma DropTracks<W, M>(p: Pool, a: Alloc, x: int, live: set<int>, regs: int -> W, s0: Hw<W, M>)
    requires Tracks(p, a, live, regs, s0) && x in a.rm
    requires x in live && !IsAlias(x) ==> ExecRegOps(a.pre, s0).slot(x) == regs(x)
    ensures Tracks(p, a.(rm := Unassoc(a.rm, x)), live, regs, s0)
  {
  }

  /** Evicting a register: stored if it is live, then dropped. */
  lemma EvictTracks<W, M>(p: Pool, a: Alloc, x: int, store: bool, live: set<int>, regs: int -> W, s0: Hw<W, M>)
    requires Tracks(p, a, live, regs, s0) && x in a.rm
    requires x in live ==> store
    ensures var b := Alloc(Unassoc(a.rm, x), if store then a.pre + [UREG(x, a.rm[x])] else a.pre);
      Tracks(p, b, live, regs, s0)
  {
    if store {
      StoreTracks(p, a, x, UREG(x, a.rm[x]), live, regs, s0);
      DropTracks(p, a.(pre := a.pre + [UREG(x, a.rm[x])]), x, live, regs, s0);
    } else {
      DropTracks(p, a, x, live, regs, s0);
    }
  }

  /** Placing a register in a free hardware register: loaded if it is live. */
  lemma PlaceTracks<W, M>(p: Pool, a: Alloc, v: int, h: HwReg, load: bool, live: set<int>, regs: int -> W, s0: Hw<W, M>)
    requires PoolOk(p) && Tracks(p, a, live, regs, s0) && v !in a.rm
    requires h in p.regs && IsFree(a.rm, h.id)
    requires v in live ==> load
    ensures var b := Alloc(Assoc(a.rm, v, h.id), if load then a.pre + [LREG(h.id, v)] else a.pre);
      Tracks(p, b, live, regs, s0)
  {
    var b := Alloc(Assoc(a.rm, v, h.id), if load then a.pre + [LREG(h.id, v)] else a.pre);
    ExecSnoc(a.pre, LREG(h.id, v), s0);
    assert h.id != p.fpReg;
    assert InPool(p, b.rm);
  }

  // ---- Operands ----------------------------------------------------------------

  lemma MakeFreeRegTracks<W, M>(p: Pool, s: Site, a: Alloc, v: int, live: set<int>, regs: int -> W, s0: Hw<W, M>)
    requires SiteOk(p, s) && s.op.Mentions(v) && v !in a.rm
    requires Tracks(p, a, live, regs, s0) && live <= s.liveIn
    ensures Tracks(p, MakeFreeReg(p, s, a, v).0, live, regs, s0)
  {
    SpillCandidateExists(p, s, a.rm, v);
    var c := SpillCandidate(p, s, a.rm, v, false);
    if c.spill.Some? {
      EvictTracks(p, a, c.spill.value, c.spill.value in s.liveIn, live, regs, s0);
    }
  }

  lemma OperandTracks<W, M>(p: Pool, s: Site, a: Alloc, i: int, live: set<int>, regs: int -> W, s0: Hw<W, M>)
    requires SiteOk(p, s) && 0 <= i < 3
    requires Tracks(p, a, live, regs, s0) && live <= s.liveIn
    ensures Tracks(p, AssignOperand(p, s, a, i).0, live, regs, s0)
  {
    var v := s.op.A(i);
    if IsRegOperand(s.op, i) {
      OperandMentioned(s.op, i);
      if v !in a.rm {
        var (b, hw) := MakeFreeReg(p, s, a, v);
        MakeFreeRegTracks(p, s, a, v, live, regs, s0);
        PlaceTracks(p, b, v, hw, v in s.liveIn, live, regs, s0);
      }
    }
  }

  /** Whatever is live in stays where the map says while the operands get their
      registers. */
  lemma AssignOperandsTracks<W, M>(p: Pool, s: Site, a: Alloc, live: set<int>, regs: int -> W, s0: Hw<W, M>)
    requires SiteOk(p, s)
    requires Tracks(p, a, live, regs, s0) && live <= s.liveIn
    ensures var r := AssignOperands(p, s, a); Tracks(p, Alloc(r.rm, r.pre), live, regs, s0)
  {
    var a0 := AssignOperand(p, s, a, 0).0;
    var a1 := AssignOperand(p, s, a0, 1).0;
    OperandTracks(p, s, a, 0, live, regs, s0);
    OperandTracks(p, s, a0, 1, live, regs, s0);
    OperandTracks(p, s, a1, 2, live, regs, s0);
  }

  // ---- Calls -------------------------------------------------------------------

  /** What the map still keeps in the return register is stored as well. */
  ghost predicate ReturnStored<W, M>(p: Pool, rm: Rmap, live: set<int>, regs: int -> W, s: Hw<W, M>) {
    forall v :: v in live && !IsAlias(v) && v in rm && rm[v] == p.ret.id ==> s.slot(v) == regs(v)
  }

  lemma SaveReturnRegTracks<W, M>(p: Pool, s: Site, a: Alloc, live: set<int>, regs: int -> W, s0: Hw<W, M>)
    requires PoolOk(p) && Tracks(p, a, live, regs, s0) && live <= s.liveIn + s.liveOut
    ensures var b := SaveReturnReg(p, s, a);
      Tracks(p, b, live, regs, s0) && ReturnStored(p, b.rm, live, regs, ExecRegOps(b.pre, s0))
  {
    var x := IsAssociated(a.rm, p.ret.id);
    if x.Some? && (x.value in s.liveOut || x.value in s.liveIn) {
      BestOfIsBest(p, s, a.rm, x.value, true, |p.regs|);
      var c := SpillCandidate(p, s, a.rm, x.value, true);
      if c.hw.Some? && c.spill.None? {
        RenameTracks(p, a, x.value, c.hw.value, live, regs, s0);
      } else {
        StoreTracks(p, a, x.value, SYNCREG(x.value, p.ret.id), live, regs, s0);
      }
    }
  }

  lemma RenameTracks<W, M>(p: Pool, a: Alloc, x: int, h: HwReg, live: set<int>, regs: int -> W, s0: Hw<W, M>)
    requires PoolOk(p) && Tracks(p, a, live, regs, s0) && x in a.rm && a.rm[x] == p.ret.id
    requires h in p.regs && IsFree(a.rm, h.id)
    ensures var b := Alloc(Assoc(Unassoc(a.rm, x), x, h.id), a.pre + [RENAMEREG(h.id, p.ret.id)]);
      Tracks(p, b, live, regs, s0) && IsFree(b.rm, p.ret.id)
  {
    ExecSnoc(a.pre, RENAMEREG(h.id, p.ret.id), s0);
    RenamedMap(p, a.rm, x, h);
  }

  lemma RenamedMap(p: Pool, rm: Rmap, x: int, h: HwReg)
    requires PoolOk(p) && InPool(p, rm) && x in rm && h in p.regs && IsFree(rm, h.id)
    ensures var b := Assoc(Unassoc(rm, x), x, h.id);
      && InPool(p, b) && IsFree(b, rm[x]) && h.id != p.fpReg && b.Keys == rm.Keys && b[x] == h.id
      && forall v :: v in rm && v != x ==> b[v] == rm[v] && b[v] != h.id
  {
  }

  /** Vacating argument registers loses no live value. */
  lemma {:induction false} VacateArgRegsTracks<W, M>(p: Pool, s: Site, a: Alloc, n: nat, live: set<int>, regs: int -> W, s0: Hw<W, M>)
    requires PoolOk(p) && n <= |p.args|
    requires Tracks(p, a, live, regs, s0) && live <= s.liveOut
    requires ReturnStored(p, a.rm, live, regs, ExecRegOps(a.pre, s0))
    ensures var b := VacateArgRegs(p, s, a, n);
      Tracks(p, b, live, regs, s0) && ReturnStored(p, b.rm, live, regs, ExecRegOps(b.pre, s0))
  {
    if n > 0 {
      hide Tracks, ReturnStored, ExecRegOps, IsAssociated;
      VacateArgRegsTracks(p, s, a, n - 1, live, regs, s0);
      var b := VacateArgRegs(p, s, a, n - 1);
      var x := IsAssociated(b.rm, p.args[n - 1].id);
      if x.Some? {
        EvictTracks(p, b, x.value, x.value in s.liveOut, live, regs, s0);
        EvictKeepsStored(p, b, x.value, x.value in s.liveOut, live, regs, s0);
      }
    }
  }

  /** What is stored for the return register stays so. */
  lemma EvictKeepsStored<W, M>(p: Pool, a: Alloc, x: int, store: bool, live: set<int>, regs: int -> W, s0: Hw<W, M>)
    requires x in a.rm && Tracks(p, a, live, regs, s0) && ReturnStored(p, a.rm, live, regs, ExecRegOps(a.pre, s0)) && (store || x !in live)
    ensures ReturnStored(p, Unassoc(a.rm, x), live, regs,
                         ExecRegOps(if store then a.pre + [UREG(x, a.rm[x])] else a.pre, s0))
  {
    ExecSnoc(a.pre, UREG(x, a.rm[x]), s0);
  }

  /** PREPARE: no value live afterwards is lost, what the return register still
      holds is stored, and the argument registers to be written are free. */
  lemma PrepareTracks<W, M>(p: Pool, s: Site, a: Alloc, live: set<int>, regs: int -> W, s0: Hw<W, M>)
    requires PoolOk(p) && Tracks(p, a, live, regs, s0) && live <= s.liveOut
    ensures var b := PrepareRegistersForCall(p, s, a);
      && Tracks(p, b, live, regs, s0) && ReturnStored(p, b.rm, live, regs, ExecRegOps(b.pre, s0))
      && forall q :: 0 <= q < |p.args| && q < s.op.a0 ==> IsFree(b.rm, p.args[q].id)
  {
    SaveReturnRegTracks(p, s, a, live, regs, s0);
    if s.op.a0 >= 0 {
      VacateArgRegsTracks(p, s, SaveReturnReg(p, s, a), Min(s.op.a0, |p.args|), live, regs, s0);
    }
  }

  // ---- Indirect jumps -------------------------------------------------------------

  /** Live registers held in the first `n` registers of the pool are stored. */
  ghost predicate Stored<W, M>(p: Pool, rm: Rmap, n: nat, live: set<int>, regs: int -> W, s: Hw<W, M>)
    requires n <= |p.regs|
  {
    forall v, i :: v in live && !IsAlias(v) && v in rm && 0 <= i < n && rm[v] == p.regs[i].id ==> s.slot(v) == regs(v)
  }

  lemma {:induction false} SyncAllTracks<W, M>(p: Pool, s: Site, a: Alloc, n: nat, live: set<int>, regs: int -> W, s0: Hw<W, M>)
    requires n <= |p.regs| && Tracks(p, a, live, regs, s0)
    ensures var b := SyncAll(p, s, a, n);
      Tracks(p, b, live, regs, s0) && Stored(p, a.rm, n, live * s.liveOut, regs, ExecRegOps(b.pre, s0))
  {
    hide Tracks, ExecRegOps, IsAssociated, IsAlias;
    if n > 0 {
      SyncAllTracks(p, s, a, n - 1, live, regs, s0);
      var b := SyncAll(p, s, a, n - 1);
      var x := IsAssociated(b.rm, p.regs[n - 1].id);
      if x.Some? && x.value in s.liveOut {
        StoreTracks(p, b, x.value, SYNCREG(x.value, p.regs[n - 1].id), live, regs, s0);
        HeldIsRight(p, b, x.value, live, regs, s0);
      }
    }
  }

  lemma HeldIsRight<W, M>(p: Pool, a: Alloc, x: int, live: set<int>, regs: int -> W, s0: Hw<W, M>)
    requires Tracks(p, a, live, regs, s0) && x in a.rm
    ensures x in live && !IsAlias(x) ==> ExecRegOps(a.pre, s0).hw(a.rm[x]) == regs(x)
  {
  }

  lemma {:induction false} SpillAllTracks<W, M>(p: Pool, s: Site, a: Alloc, n: nat, live: set<int>, regs: int -> W, s0: Hw<W, M>)
    requires n <= |p.regs| && Tracks(p, a, live, regs, s0) && live <= s.liveOut && s.inUse
    ensures Tracks(p, SpillAll(p, s, a, n), live, regs, s0)
  {
    hide Tracks, ExecRegOps, IsAssociated;
    if n > 0 {
      SpillAllTracks(p, s, a, n - 1, live, regs, s0);
      var b := SpillAll(p, s, a, n - 1);
      var x := IsAssociated(b.rm, p.regs[n - 1].id);
      if x.Some? && x.value in s.liveOut {
        EvictTracks(p, b, x.value, true, live, regs, s0);
      }
    }
  }
}
