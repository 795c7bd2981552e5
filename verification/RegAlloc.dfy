/** The linear scan of `myjit/reg-allocator.h`: what each operation does to the
    register map, and which operations it puts in front of itself. */
module RegAlloc {
  import opened Ops
  import opened RegMap

  datatype RegOp =
    | UREG(v: int, h: int)       // store the virtual register and give the hardware one up
    | SYNCREG(v: int, h: int)    // store it and keep it
    | LREG(h: int, v: int)       // load it
    | RENAMEREG(to: int, from: int)

  /** The map so far, and the operations inserted so far. */
  datatype Alloc = Alloc(rm: Rmap, pre: seq<RegOp>)

  const REG_SIZE := 8

  predicate IsAlias(v: int) {
    RegClass(v) == CLASS_ALIAS
  }

  /** What the allocator asks of an operation: integer registers, and the frame
      pointer as the only alias, never assigned and never handed to a call. */
  predicate OperandsOk(op: Op) {
    && (forall v :: v in op.Uses() && IsAlias(v) ==> v == R_FP && op.code != PUTARG && op.code != CALL)
    && (forall v :: v in op.Defs() ==> !IsAlias(v))
    && op.t1 != TREG && op.t2 != TREG
  }

  predicate SiteOk(p: Pool, s: Site) {
    PoolOk(p) && HintsExact(s) && OperandsOk(s.op)
  }

  /** Operands that had a register still have the same one. */
  predicate KeepsOperands(s: Site, m: Rmap, m': Rmap) {
    forall v :: v in m && s.op.Mentions(v) ==> v in m' && m'[v] == m[v]
  }

  // ---- One operand ---------------------------------------------------------

  /** `make_free_reg`. */
  function MakeFreeReg(p: Pool, s: Site, a: Alloc, v: int): (r: (Alloc, HwReg))
    requires SiteOk(p, s) && s.op.Mentions(v) && v !in a.rm
    ensures r.1 in p.regs && IsFree(r.0.rm, r.1.id)
    ensures KeepsOperands(s, a.rm, r.0.rm) && v !in r.0.rm
    ensures r.0.rm.Keys <= a.rm.Keys && forall u :: u in r.0.rm ==> r.0.rm[u] == a.rm[u]
  {
    SpillCandidateExists(p, s, a.rm, v);
    var c := SpillCandidate(p, s, a.rm, v, false);
    var hw := c.hw.value;
    match c.spill
    case None => (a, hw)
    case Some(x) => (Alloc(Unassoc(a.rm, x), if x in s.liveIn then a.pre + [UREG(x, hw.id)] else a.pre), hw)
  }

  /** `associate_register`: the operand's register, with a load if its value is needed. */
  function AssociateRegister(p: Pool, s: Site, a: Alloc, v: int): (r: (Alloc, int))
    requires SiteOk(p, s) && s.op.Mentions(v)
    ensures v in r.0.rm && r.0.rm[v] == r.1
    ensures KeepsOperands(s, a.rm, r.0.rm)
    ensures InPool(p, a.rm) ==> InPool(p, r.0.rm)
    ensures r.0.rm.Keys <= a.rm.Keys + {v}
  {
    if v in a.rm then (a, a.rm[v])
    else
      var (b, hw) := MakeFreeReg(p, s, a, v);
      (Alloc(Assoc(b.rm, v, hw.id), if v in s.liveIn then b.pre + [LREG(hw.id, v)] else b.pre), hw.id)
  }

  /** One round of the operand loop of `assign_regs`. */
  function AssignOperand(p: Pool, s: Site, a: Alloc, i: int): (r: (Alloc, int))
    requires SiteOk(p, s) && 0 <= i < 3
    ensures KeepsOperands(s, a.rm, r.0.rm)
    ensures InPool(p, a.rm) ==> InPool(p, r.0.rm)
    ensures IsRegOperand(s.op, i) ==> s.op.A(i) in r.0.rm && r.0.rm[s.op.A(i)] == r.1
    ensures r.0.rm.Keys <= a.rm.Keys + if IsRegOperand(s.op, i) then {s.op.A(i)} else {}
  {
    if s.op.T(i) == REG || s.op.T(i) == TREG then
      OperandMentioned(s.op, i);
      if IsAlias(s.op.A(i)) then (a, p.fpReg) else AssociateRegister(p, s, a, s.op.A(i))
    else if s.op.T(i) == IMM then (a, s.op.A(i))
    else (a, -1)
  }

  predicate IsRegOperand(op: Op, i: int) {
    (op.T(i) == REG || op.T(i) == TREG) && !IsAlias(op.A(i))
  }

  lemma OperandMentioned(op: Op, i: int)
    requires 0 <= i < 3 && (op.T(i) == REG || op.T(i) == TREG)
    ensures op.Mentions(op.A(i))
  {
  }

  datatype Assigned = Assigned(rm: Rmap, pre: seq<RegOp>, code: Code, r: seq<int>)

  function AssignOperands(p: Pool, s: Site, a: Alloc): (r: Assigned)
    requires SiteOk(p, s)
    ensures |r.r| == 3 && r.code == s.op.code
    ensures InPool(p, a.rm) ==> InPool(p, r.rm)
    ensures forall i :: 0 <= i < 3 && IsRegOperand(s.op, i) ==> s.op.A(i) in r.rm && r.rm[s.op.A(i)] == r.r[i]
    ensures forall i :: 0 <= i < 3 && s.op.T(i) == REG && IsAlias(s.op.A(i)) ==> r.r[i] == p.fpReg
  {
    var (a0, r0) := AssignOperand(p, s, a, 0);
    var (a1, r1) := AssignOperand(p, s, a0, 1);
    var (a2, r2) := AssignOperand(p, s, a1, 2);
    assert forall i :: 0 <= i < 3 && IsRegOperand(s.op, i) ==> s.op.Mentions(s.op.A(i));
    Assigned(a2.rm, a2.pre, s.op.code, [r0, r1, r2])
  }

  // ---- Operations with a rule of their own -----------------------------------

  /** `assign_regs_for_args`, for integer arguments, up to the n-th; also how many
      argument registers are taken. */
  function ArgMap(p: Pool, info: seq<ArgInfo>, n: nat): (r: (Rmap, nat))
    requires PoolOk(p) && n <= |info|
    ensures InPool(p, r.0) && r.1 <= |p.args| && r.1 <= n
    ensures forall v :: v in r.0 ==> !IsAlias(v) && (exists i :: 0 <= i < n && v == ArgReg(i)) && (exists k :: 0 <= k < r.1 && r.0[v] == p.args[k].id)
  {
    if n == 0 then (map[], 0)
    else
      var (m, k) := ArgMap(p, info, n - 1);
      if !info[n - 1].isFloat && k < |p.args| then
        assert p.args[k] in p.regs;
        (Assoc(m, ArgReg(n - 1), p.args[k].id), k + 1)
      else
        (m, k)
  }

  /** First part of `prepare_registers_for_call`: the value in the return register
      moves to a free callee-saved register, or is stored. */
  function SaveReturnReg(p: Pool, s: Site, a: Alloc): (r: Alloc)
    requires PoolOk(p)
    ensures InPool(p, a.rm) ==> InPool(p, r.rm)
    ensures r.rm.Keys == a.rm.Keys
  {
    var x := IsAssociated(a.rm, p.ret.id);
    if x.None? || (x.value !in s.liveOut && x.value !in s.liveIn) then a
    else
      BestOfIsBest(p, s, a.rm, x.value, true, |p.regs|);
      var c := SpillCandidate(p, s, a.rm, x.value, true);
      if c.hw.Some? && c.spill.None? then
        Alloc(Assoc(Unassoc(a.rm, x.value), x.value, c.hw.value.id), a.pre + [RENAMEREG(c.hw.value.id, p.ret.id)])
      else
        Alloc(a.rm, a.pre + [SYNCREG(x.value, p.ret.id)])
  }

  /** Second part: the first `n` argument registers are vacated. */
  function VacateArgRegs(p: Pool, s: Site, a: Alloc, n: nat): (r: Alloc)
    requires PoolOk(p) && n <= |p.args|
    ensures forall q :: 0 <= q < n ==> IsFree(r.rm, p.args[q].id)
    ensures r.rm.Keys <= a.rm.Keys && forall v :: v in r.rm ==> r.rm[v] == a.rm[v]
  {
    if n == 0 then a
    else
      var b := VacateArgRegs(p, s, a, n - 1);
      var h := p.args[n - 1].id;
      match IsAssociated(b.rm, h)
      case None => b
      case Some(x) => Alloc(Unassoc(b.rm, x), if x in s.liveOut then b.pre + [UREG(x, h)] else b.pre)
  }

  function Min(a: int, b: int): int {
    if a < b then a else b
  }

  function PrepareRegistersForCall(p: Pool, s: Site, a: Alloc): (r: Alloc)
    requires PoolOk(p)
    ensures InPool(p, a.rm) ==> InPool(p, r.rm)
    ensures r.rm.Keys <= a.rm.Keys
  {
    var b := SaveReturnReg(p, s, a);
    if s.op.a0 < 0 then b else VacateArgRegs(p, s, b, Min(s.op.a0, |p.args|))
  }

  /** `assign_jmp` for a jump through a register: every live mapped register among
      the first `n` of the pool is stored. */
  function SyncAll(p: Pool, s: Site, a: Alloc, n: nat): (r: Alloc)
    requires n <= |p.regs|
    ensures r.rm == a.rm
  {
    if n == 0 then a
    else
      var b := SyncAll(p, s, a, n - 1);
      var h := p.regs[n - 1].id;
      match IsAssociated(b.rm, h)
      case Some(x) => if x in s.liveOut then b.(pre := b.pre + [SYNCREG(x, h)]) else b
      case None => b
  }

  /** `spill_all_registers`: every live mapped register loses its place. */
  function SpillAll(p: Pool, s: Site, a: Alloc, n: nat): (r: Alloc)
    requires n <= |p.regs|
    ensures r.rm.Keys <= a.rm.Keys && forall v :: v in r.rm ==> r.rm[v] == a.rm[v]
    ensures forall v, i :: v in r.rm && 0 <= i < n && r.rm[v] == p.regs[i].id ==> v !in s.liveOut
  {
    if n == 0 then a
    else
      var b := SpillAll(p, s, a, n - 1);
      var h := p.regs[n - 1].id;
      match IsAssociated(b.rm, h)
      case Some(x) =>
        if x in s.liveOut then Alloc(Unassoc(b.rm, x), if s.inUse then b.pre + [UREG(x, h)] else b.pre) else b
      case None => b
  }

  /** `assign_getarg`: the argument's register is taken over when the argument is
      not needed again. */
  predicate TakesOver(s: Site, info: seq<ArgInfo>, m: Rmap) {
    && 0 <= s.op.a1 < |info|
    && ArgReg(s.op.a1) !in s.liveOut
    && !info[s.op.a1].isFloat && info[s.op.a1].size == REG_SIZE
    && ArgReg(s.op.a1) in m
  }

  /** `assign_regs`: the map during the operation, from the map of the one before. */
  function AssignRegs(p: Pool, s: Site, info: seq<ArgInfo>, prev: Rmap): (r: Assigned)
    requires SiteOk(p, s)
    requires s.op.code == RETVAL ==> IsFree(prev, p.ret.id)
    ensures InPool(p, prev) ==> InPool(p, r.rm)
    ensures s.op.code == CALL ==> IsFree(r.rm, p.ret.id)
    ensures |r.r| == 3 && (r.code == s.op.code || (s.op.code == GETARG && r.code == NOP))
  {
    var a := Alloc(prev, []);
    match s.op.code
    case PROLOG => AssignOperands(p, s, Alloc(ArgMap(p, info, |info|).0, []))
    case PREPARE => AssignOperands(p, s, PrepareRegistersForCall(p, s, a))
    case PUTARG => Skip(s, a)
    case RETVAL => Skip(s, Alloc(Assoc(prev, s.op.a0, p.ret.id), []))
    case CALL =>
      (match IsAssociated(prev, p.ret.id)
       case Some(x) => Skip(s, Alloc(Unassoc(prev, x), []))
       case None => Skip(s, a))
    case GETARG =>
      if TakesOver(s, info, prev) then
        var g := ArgReg(s.op.a1);
        Assigned(Assoc(Unassoc(prev, g), s.op.a0, prev[g]), [], NOP, [prev[g], s.op.a1, -1])
      else AssignOperands(p, s, a)
    case JMP => AssignOperands(p, s, if s.op.mode == ImmForm then a else SyncAll(p, s, a, |p.regs|))
    case FULL_SPILL => Skip(s, SpillAll(p, s, a, |p.regs|))
    case _ => AssignOperands(p, s, a)
  }

  function Skip(s: Site, a: Alloc): (r: Assigned)
    ensures |r.r| == 3
  {
    Assigned(a.rm, a.pre, s.op.code, [-1, -1, -1])
  }
}
