/** One operation, before and after allocation: from registers that are where the
    map says to registers that are where the next map says. */
module AllocSteps {
  import opened Ops
  import opened RegMap
  import opened RegAlloc
  import opened Machine
  import opened AllocMoves
  import opened EdgeRepair
  import opened Allocation

  /** Registers of `live` are where `rm` says, and the rest of the state agrees. */
  ghost predicate Located<W, M>(p: Pool, rm: Rmap, live: set<int>, c: Cfg<W, M>, s: Hw<W, M>) {
    InPool(p, rm) && HoldsAll(rm, live, c.regs, s) && s.hw(p.fpReg) == c.regs(R_FP) && s.mem == c.mem
  }

  lemma LocatedLess<W, M>(p: Pool, rm: Rmap, live: set<int>, less: set<int>, c: Cfg<W, M>, s: Hw<W, M>)
    requires Located(p, rm, live, c, s) && less <= live
    ensures Located(p, rm, less, c, s)
  {
  }

  lemma LocatedMoved<W, M>(p: Pool, rm: Rmap, live: set<int>, c: Cfg<W, M>, s: Hw<W, M>, pc: nat, block: nat, index: nat)
    requires Located(p, rm, live, c, s)
    ensures Located(p, rm, live, c.(pc := pc), s.(block := block, index := index))
  {
  }

  /** The hardware registers chosen for the operands of an operation. */
  predicate OperandsPlaced(p: Pool, op: Op, rm: Rmap, r: seq<int>) {
    && |r| == 3
    && (forall i :: 0 <= i < 3 && IsRegOperand(op, i) ==> op.A(i) in rm && rm[op.A(i)] == r[i])
    && (forall i :: 0 <= i < 3 && op.T(i) == REG && IsAlias(op.A(i)) ==> r[i] == p.fpReg)
  }

  lemma OperandRead<W, M>(p: Pool, op: Op, i: int, rm: Rmap, r: seq<int>, live: set<int>, c: Cfg<W, M>, s: Hw<W, M>)
    requires OperandsOk(op) && OperandsPlaced(p, op, rm, r) && 0 <= i < 3 && op.T(i) == REG
    requires Located(p, rm, live, c, s) && op.Uses() <= live
    ensures s.hw(r[i]) == c.regs(op.A(i))
  {
    var v := op.A(i);
    assert v in op.Uses();
    if IsAlias(v) {
      assert v == R_FP;
    } else {
      assert ValueOf(rm, s, v) == c.regs(v);
    }
  }

  /** Both machines feed the operation the same values. */
  lemma ValsAgree<W, M>(env: Env<W, M>, p: Pool, n: Node, op: Op, live: set<int>, c: Cfg<W, M>, s: Hw<W, M>)
    requires n.Core? && n.op == op.(code := n.op.code) && (n.op.code == CALL <==> op.code == CALL) && OperandsPlaced(p, op, n.rm, n.r)
    requires OperandsOk(op) && op.Uses() <= live && Located(p, n.rm, live, c, s)
    ensures HwVals(env, n, s) == VirtVals(env, op, c.regs)
  {
    if op.t0 == REG { OperandRead(p, op, 0, n.rm, n.r, live, c, s); }
    if op.t1 == REG { OperandRead(p, op, 1, n.rm, n.r, live, c, s); }
    if op.t2 == REG { OperandRead(p, op, 2, n.rm, n.r, live, c, s); }
  }

  /** Writing a mapped register changes its own place and no other. */
  lemma WriteLocated<W, M>(p: Pool, rm: Rmap, live: set<int>, after: set<int>, v: int, w: W, c: Cfg<W, M>, s: Hw<W, M>)
    requires PoolOk(p) && Located(p, rm, live, c, s) && v in rm && !IsAlias(v)
    requires after - {v} <= live
    ensures Located(p, rm, after, c.(regs := Set(c.regs, v, w)), s.(hw := Set(s.hw, rm[v], w)))
  {
    assert rm[v] != p.fpReg;
    var c2, s2 := c.(regs := Set(c.regs, v, w)), s.(hw := Set(s.hw, rm[v], w));
    forall u | u in after && !IsAlias(u)
      ensures ValueOf(rm, s2, u) == c2.regs(u)
    {
      if u != v {
        assert ValueOf(rm, s, u) == c.regs(u);
      }
    }
  }

  // ---- Operations that compute -------------------------------------------------

  /** After the operation proper: result, memory and flags. */
  function Computed<W, M>(env: Env<W, M>, op: Op, c: Cfg<W, M>): Cfg<W, M> {
    var vals := VirtVals(env, op, c.regs);
    c.(regs := WriteBack(env, op, vals, c), mem := env.effect(SigOf(op), vals, c.mem))
  }

  function HwComputed<W, M>(env: Env<W, M>, n: Node, s: Hw<W, M>): Hw<W, M>
    requires n.Core? && |n.r| == 3
  {
    var vals := HwVals(env, n, s);
    s.(hw := HwAssigned(env, n, vals, s), mem := env.effect(SigOf(n.op), vals, s.mem))
  }

  /** The two codes mean the same but for the direction of the branch. */
  ghost predicate SameComputation<W(!new), M(!new)>(env: Env<W, M>, op: Op, code: Code) {
    forall vals: seq<W>, m: M ::
      && env.value(SigOf(op), vals, m) == env.value(SigOf(op.(code := code)), vals, m)
      && env.effect(SigOf(op), vals, m) == env.effect(SigOf(op.(code := code)), vals, m)
  }

  /** What is live after the operation and not assigned by it was live before. */
  predicate LivenessAt(op: Op, needIn: set<int>, needOut: set<int>) {
    op.Uses() <= needIn && needOut - op.Defs() <= needIn
  }

  lemma ComputeLocated<W(!new), M(!new)>(env: Env<W, M>, p: Pool, n: Node, op: Op,
                                         needIn: set<int>, needOut: set<int>, c: Cfg<W, M>, s: Hw<W, M>)
    requires PoolOk(p) && OperandsOk(op) && n.Core? && n.op == op.(code := n.op.code) && OperandsPlaced(p, op, n.rm, n.r)
    requires (n.op.code == CALL <==> op.code == CALL) && DestPos(n.op) == DestPos(op) && SameComputation(env, op, n.op.code)
    requires LivenessAt(op, needIn, needOut) && Located(p, n.rm, needIn, c, s)
    requires op.t1 == REG && DestPos(op) == Some(1) ==> !IsAlias(op.a1)
    ensures Located(p, n.rm, needOut, Computed(env, op, c), HwComputed(env, n, s))
  {
    ValsAgree(env, p, n, op, needIn, c, s);
    var vals := VirtVals(env, op, c.regs);
    var m := env.effect(SigOf(op), vals, c.mem);
    var w := env.value(SigOf(op), vals, c.mem);
    match DestPos(op) {
      case Some(i) =>
        var v := op.A(i);
        DestinationMapped(op, i);
        WriteLocated(p, n.rm, needIn, needOut, v, w, c, s);
        assert Computed(env, op, c) == c.(regs := Set(c.regs, v, w), mem := m);
        assert HwComputed(env, n, s) == s.(hw := Set(s.hw, n.rm[v], w), mem := m);
      case None =>
        assert op.Defs() == {};
        LocatedLess(p, n.rm, needIn, needOut, c, s);
    }
  }

  lemma DestinationMapped(op: Op, i: int)
    requires OperandsOk(op) && DestPos(op) == Some(i)
    requires op.t1 == REG && DestPos(op) == Some(1) ==> !IsAlias(op.a1)
    ensures 0 <= i < 3 && IsRegOperand(op, i)
    ensures op.Defs() <= {op.A(i)} && (op.A(i) in op.Uses() || op.A(i) in op.Defs())
  {
    assert op.T(i) == REG ==> op.A(i) in op.Uses();
    assert op.T(0) == op.t0 && op.T(1) == op.t1 && op.T(2) == op.t2;
    if op.t0 == TREG {
      assert op.A(0) in op.Defs();
    }
  }

  // ---- Arguments, calls and results ----------------------------------------------

  lemma ArgRegNotAlias(id: int)
    ensures !IsAlias(ArgReg(id))
  {
    assert ArgReg(id) == 6 + 16 * id;
    assert (6 + 16 * id) / 2 == 3 + 8 * id;
    assert (3 + 8 * id) % 4 == 3;
  }

  /** Taking an argument's register over needs no move. */
  lemma TakeOverLocated<W, M>(p: Pool, prev: Rmap, g: int, v: int, needIn: set<int>, needOut: set<int>, c: Cfg<W, M>, s: Hw<W, M>)
    requires Located(p, prev, needIn, c, s) && g in prev && g in needIn && !IsAlias(g)
    requires g !in needOut && needOut - {v} <= needIn && !IsAlias(v)
    ensures var rm := Assoc(Unassoc(prev, g), v, prev[g]);
      Located(p, rm, needOut, c.(regs := Set(c.regs, v, c.regs(g))), s)
  {
    var rm := Assoc(Unassoc(prev, g), v, prev[g]);
    assert forall u :: u in rm ==> rm[u] == if u == v then prev[g] else prev[u];
    assert ValueOf(prev, s, g) == c.regs(g);
    assert v != R_FP;
    forall u | u in needOut && !IsAlias(u)
      ensures ValueOf(rm, s, u) == Set(c.regs, v, c.regs(g))(u)
    {
      if u != v {
        assert ValueOf(prev, s, u) == c.regs(u);
      }
    }
  }

  /** The result of a call is already in the register RETVAL maps its target to. */
  lemma RetvalLocated<W, M>(p: Pool, prev: Rmap, v: int, needIn: set<int>, needOut: set<int>, c: Cfg<W, M>, s: Hw<W, M>, index: nat)
    requires PoolOk(p) && Located(p, prev, needIn, c, s) && IsFree(prev, p.ret.id) && !IsAlias(v)
    requires needOut - {v} <= needIn && s.hw(p.ret.id) == c.ret
    ensures Located(p, Assoc(prev, v, p.ret.id), needOut, c.(regs := Set(c.regs, v, c.ret)), s.(index := index))
  {
    var rm := Assoc(prev, v, p.ret.id);
    assert forall u :: u in rm ==> rm[u] == if u == v then p.ret.id else prev[u];
    assert v != R_FP;
    forall u | u in needOut && !IsAlias(u)
      ensures ValueOf(rm, s, u) == Set(c.regs, v, c.ret)(u)
    {
      if u != v {
        assert ValueOf(prev, s, u) == c.regs(u);
      }
    }
  }

  /** Between PREPARE and CALL: the arguments put so far can still be read under
      the map of the PREPARE, and what is in the return register is stored too. */
  ghost predicate CallOpen<W, M>(p: Pool, rm: Rmap, live: set<int>, c: Cfg<W, M>, s: Hw<W, M>) {
    && s.args == c.args && s.argMap == rm
    && (forall k :: 0 <= k < |c.args| && c.args[k].InReg? ==> ValueOf(rm, s, c.args[k].r) == c.regs(c.args[k].r))
    && ReturnStored(p, rm, live, c.regs, s)
  }

  lemma CallOpenLess<W, M>(p: Pool, rm: Rmap, live: set<int>, less: set<int>, c: Cfg<W, M>, s: Hw<W, M>)
    requires CallOpen(p, rm, live, c, s) && less <= live
    ensures CallOpen(p, rm, less, c, s)
  {
  }

  lemma PutargOpen<W, M>(p: Pool, op: Op, rm: Rmap, needIn: set<int>, needOut: set<int>, c: Cfg<W, M>, s: Hw<W, M>, index: nat)
    requires op.code == PUTARG && OperandsOk(op) && op.Uses() <= needIn && needOut <= needIn
    requires Located(p, rm, needIn, c, s) && CallOpen(p, rm, needIn, c, s)
    ensures var c', s' := c.(args := c.args + [PutargOperand(op)]), s.(index := index, args := s.args + [PutargOperand(op)]);
      Located(p, rm, needOut, c', s') && CallOpen(p, rm, needOut, c', s')
  {
    if op.t0 == REG {
      assert op.T(0) == REG && op.A(0) in op.Uses();
      assert ValueOf(rm, s, op.a0) == c.regs(op.a0);
    }
  }

  /** The map during a CALL: the return register belongs to nobody. */
  function CallMap(p: Pool, prev: Rmap): Rmap {
    match IsAssociated(prev, p.ret.id)
    case Some(x) => Unassoc(prev, x)
    case None => prev
  }

  lemma CallMapLocated<W, M>(p: Pool, prev: Rmap, live: set<int>, c: Cfg<W, M>, s: Hw<W, M>)
    requires PoolOk(p) && Located(p, prev, live, c, s) && ReturnStored(p, prev, live, c.regs, s)
    ensures Located(p, CallMap(p, prev), live, c, s) && IsFree(CallMap(p, prev), p.ret.id)
  {
    var rm := CallMap(p, prev);
    assert forall u :: u in rm ==> u in prev && rm[u] == prev[u];
    forall u | u in live && !IsAlias(u)
      ensures ValueOf(rm, s, u) == c.regs(u)
    {
      assert ValueOf(prev, s, u) == c.regs(u);
    }
  }

  lemma ArgsAgree<W, M>(env: Env<W, M>, p: Pool, rm: Rmap, live: set<int>, c: Cfg<W, M>, s: Hw<W, M>)
    requires CallOpen(p, rm, live, c, s)
    ensures HwArgValues(env, s) == ArgValues(env, c)
  {
    forall i | 0 <= i < |c.args|
      ensures HwArgValue(env, s, s.args[i]) == ArgValue(env, c.regs, c.args[i])
    {
    }
  }

  /** No live value is lost in a call, and the result is where RETVAL looks. */
  lemma CallLocated<W, M>(env: Env<W, M>, p: Pool, n: Node, needIn: set<int>, needOut: set<int>,
                          f: W, args: seq<W>, r: W, m: M, c: Cfg<W, M>, s: Hw<W, M>, index: nat)
    requires PoolOk(p) && n.Core? && Located(p, n.rm, needIn, c, s) && IsFree(n.rm, p.ret.id)
    requires needOut <= needIn <= n.liveIn
    ensures var hw := AfterCall(env, p, n, f, args, r, s);
      Located(p, n.rm, needOut, c.(mem := m, ret := r), s.(index := index, mem := m, hw := hw)) && hw(p.ret.id) == r
  {
    var hw := AfterCall(env, p, n, f, args, r, s);
    assert p.ret.id != p.fpReg;
    forall v | v in needOut && v in n.rm
      ensures hw(n.rm[v]) == s.hw(n.rm[v])
    {
      assert Survives(p, n, n.rm[v]);
    }
    forall v | v in needOut && !IsAlias(v)
      ensures ValueOf(n.rm, s.(mem := m, hw := hw), v) == c.regs(v)
    {
      assert ValueOf(n.rm, s, v) == c.regs(v);
    }
  }

  // ---- Indirect jumps ------------------------------------------------------------

  ghost predicate SlotsRight<W, M>(live: set<int>, regs: int -> W, s: Hw<W, M>) {
    forall v :: v in live && !IsAlias(v) ==> s.slot(v) == regs(v)
  }

  /** Storing a register whose value is right keeps the slots right, and a load
      touches none. */
  lemma StoreKeepsSlots<W, M>(stored: set<int>, regs: int -> W, v: int, h: int, s: Hw<W, M>)
    requires SlotsRight(stored, regs, s) && (v in stored && !IsAlias(v) ==> s.hw(h) == regs(v))
    ensures SlotsRight(stored, regs, ExecRegOp(UREG(v, h), s))
  {
  }

  lemma LoadKeepsSlots<W, M>(stored: set<int>, regs: int -> W, h: int, v: int, s: Hw<W, M>)
    requires SlotsRight(stored, regs, s)
    ensures SlotsRight(stored, regs, ExecRegOp(LREG(h, v), s))
  {
  }

  lemma MakeFreeKeepsSlots<W, M>(p: Pool, s: Site, a: Alloc, v: int, live: set<int>, stored: set<int>, regs: int -> W, s0: Hw<W, M>)
    requires SiteOk(p, s) && s.op.Mentions(v) && v !in a.rm && Tracks(p, a, live, regs, s0) && live <= s.liveIn
    requires stored <= live && SlotsRight(stored, regs, ExecRegOps(a.pre, s0))
    ensures SlotsRight(stored, regs, ExecRegOps(MakeFreeReg(p, s, a, v).0.pre, s0))
  {
    hide SlotsRight, ExecRegOp, ExecRegOps, SpillCandidate, HintsExact;
    SpillCandidateExists(p, s, a.rm, v);
    var c := SpillCandidate(p, s, a.rm, v, false);
    if c.spill.Some? {
      var x, h := c.spill.value, c.hw.value.id;
      ExecSnoc(a.pre, UREG(x, h), s0);
      assert x in a.rm && a.rm[x] == h;
      assert x in stored && !IsAlias(x) ==> ValueOf(a.rm, ExecRegOps(a.pre, s0), x) == regs(x);
      StoreKeepsSlots(stored, regs, x, h, ExecRegOps(a.pre, s0));
    }
  }

  lemma AssignOperandKeepsSlots<W, M>(p: Pool, s: Site, a: Alloc, i: int, live: set<int>, stored: set<int>, regs: int -> W, s0: Hw<W, M>)
    requires SiteOk(p, s) && 0 <= i < 3 && Tracks(p, a, live, regs, s0) && live <= s.liveIn
    requires stored <= live && SlotsRight(stored, regs, ExecRegOps(a.pre, s0))
    ensures SlotsRight(stored, regs, ExecRegOps(AssignOperand(p, s, a, i).0.pre, s0))
  {
    hide SlotsRight, ExecRegOp, ExecRegOps, SpillCandidate, SiteOk, Tracks, MakeFreeReg;
    var v := s.op.A(i);
    if IsRegOperand(s.op, i) {
      OperandMentioned(s.op, i);
      if v !in a.rm {
        MakeFreeKeepsSlots(p, s, a, v, live, stored, regs, s0);
        var (b, hw) := MakeFreeReg(p, s, a, v);
        ExecSnoc(b.pre, LREG(hw.id, v), s0);
        LoadKeepsSlots(stored, regs, hw.id, v, ExecRegOps(b.pre, s0));
      }
    }
  }

  /** Before a jump through a register, everything live after it is in its slot. */
  lemma IndirectJumpStores<W, M>(p: Pool, s: Site, prev: Rmap, live: set<int>, regs: int -> W, s0: Hw<W, M>)
    requires SiteOk(p, s) && live <= s.liveIn
    requires Tracks(p, Alloc(prev, []), live, regs, s0)
    ensures var r := AssignOperands(p, s, SyncAll(p, s, Alloc(prev, []), |p.regs|));
      Tracks(p, Alloc(r.rm, r.pre), live, regs, s0) && SlotsRight(live * s.liveOut, regs, ExecRegOps(r.pre, s0))
  {
    var a := Alloc(prev, []);
    var stored := live * s.liveOut;
    SyncAllTracks(p, s, a, |p.regs|, live, regs, s0);
    var b := SyncAll(p, s, a, |p.regs|);
    AllStored(p, prev, stored, regs, ExecRegOps(b.pre, s0));
    var b0 := AssignOperand(p, s, b, 0).0;
    var b1 := AssignOperand(p, s, b0, 1).0;
    AssignOperandKeepsSlots(p, s, b, 0, live, stored, regs, s0);
    OperandTracks(p, s, b, 0, live, regs, s0);
    AssignOperandKeepsSlots(p, s, b0, 1, live, stored, regs, s0);
    OperandTracks(p, s, b0, 1, live, regs, s0);
    AssignOperandKeepsSlots(p, s, b1, 2, live, stored, regs, s0);
    OperandTracks(p, s, b1, 2, live, regs, s0);
  }

  lemma AllStored<W, M>(p: Pool, rm: Rmap, live: set<int>, regs: int -> W, s: Hw<W, M>)
    requires InPool(p, rm) && HoldsAll(rm, live, regs, s) && Stored(p, rm, |p.regs|, live, regs, s)
    ensures SlotsRight(live, regs, s)
  {
    forall v | v in live && !IsAlias(v)
      ensures s.slot(v) == regs(v)
    {
      if v in rm {
        var r :| r in p.regs && r.id == rm[v];
        var i :| 0 <= i < |p.regs| && p.regs[i] == r;
      } else {
        assert ValueOf(rm, s, v) == regs(v);
      }
    }
  }

  /** A FULL_SPILL leaves no register mapped that is live after it. */
  lemma FullSpillEmpties(p: Pool, s: Site, prev: Rmap)
    requires InPool(p, prev)
    ensures var rm := SpillAll(p, s, Alloc(prev, []), |p.regs|).rm;
      forall v :: v in rm ==> v !in s.liveOut
  {
    var rm := SpillAll(p, s, Alloc(prev, []), |p.regs|).rm;
    forall v | v in rm
      ensures v !in s.liveOut
    {
      var r :| r in p.regs && r.id == rm[v];
      var i :| 0 <= i < |p.regs| && p.regs[i] == r;
    }
  }
}
