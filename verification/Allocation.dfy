/** `jit_assign_regs`: the whole operation list, before and after allocation. */
module Allocation {
  import opened Ops
  import opened RegMap
  import opened RegAlloc
  import opened Machine
  import opened EdgeRepair

  /** An operation list.  `infos` gives the declared arguments a PROLOG points to,
      `targets` are the operations an indirect jump can lead to, and `order(i)` the
      two orders in which the trees of the maps at operation i and at its jump target
      happen to be walked. */
  datatype Program = Program(sites: seq<Site>, infos: map<int, seq<ArgInfo>>, targets: set<nat>, order: nat -> (seq<int>, seq<int>))
  {
    function Op(i: nat): Op
      requires i < |sites|
    {
      sites[i].op
    }

    function Ops(): (ops: seq<Op>)
      ensures |ops| == |sites| && forall i :: 0 <= i < |sites| ==> ops[i] == sites[i].op
    {
      seq(|sites|, i requires 0 <= i < |sites| => sites[i].op)
    }

    function InfoAt(i: nat): seq<ArgInfo>
      requires i < |sites|
    {
      DeclaredAt(Ops(), infos, i)
    }
  }

  predicate NoRegisters(op: Op) {
    forall i :: 0 <= i < 3 ==> op.T(i) != REG && op.T(i) != TREG
  }

  /** The operand specification each operation is created with. */
  predicate Shaped(op: Op, info: seq<ArgInfo>) {
    match op.code
    case NOP | PROLOG | PREPARE | FULL_SPILL | LABEL | PATCH => NoRegisters(op)
    case RET => op.t0 != TREG
    case FRET | FPUTARG | FRETVAL => false
    case PUTARG | CALL => op.t0 != TREG && op.t1 != REG && op.t2 != REG
    case RETVAL | REF_CODE => op.t0 == TREG && op.t1 != REG && op.t2 != REG
    case GETARG => op.t0 == TREG && op.t1 != REG && op.t2 != REG && 0 <= op.a1 < |info|
    case JMP => if op.mode == ImmForm then NoRegisters(op) && op.jmp.Some? else op.t0 == REG
    case _ => MayBranch(op.code) ==> op.t0 == IMM && op.jmp.Some? && (op.t1 == REG ==> !IsAlias(op.a1))
  }

  /** Operations that go to `jmp`. */
  predicate Jumps(op: Op) {
    (op.code == JMP && op.mode == ImmForm) || MayBranch(op.code)
  }

  predicate FallsThrough(op: Op) {
    op.code != JMP && op.code != RET
  }

  /** The list as the earlier passes hand it over. */
  ghost predicate ProgramOk(p: Pool, pr: Program) {
    PoolOk(p) && SitesOk(p, pr) && NeighboursOk(pr) && JumpsOk(pr) && TargetsOk(pr)
  }

  ghost predicate SitesOk(p: Pool, pr: Program) {
    forall i :: 0 <= i < |pr.sites| ==> SiteOk(p, pr.sites[i]) && Shaped(pr.Op(i), pr.InfoAt(i))
  }

  /** PREPARE, PUTARGs and CALL adjacent; RETVAL right after the CALL. */
  ghost predicate NeighboursOk(pr: Program) {
    && (forall i :: 0 <= i < |pr.sites| && pr.Op(i).code == RETVAL ==> 0 < i && pr.Op(i - 1).code == CALL)
    && (forall i :: 0 <= i < |pr.sites| && pr.Op(i).code in {PUTARG, CALL} ==>
          0 < i && pr.Op(i - 1).code in {PREPARE, PUTARG})
  }

  ghost predicate JumpsOk(pr: Program) {
    forall i :: 0 <= i < |pr.sites| && Jumps(pr.Op(i)) ==>
      pr.Op(i).jmp.Some? && Lands(pr, pr.Op(i).jmp.value)
  }

  predicate Lands(pr: Program, t: nat) {
    t < |pr.sites| && IsLanding(pr.Op(t).code)
  }

  /** `jit_prepare_spills_on_jmpr_targets` has put a FULL_SPILL before each target. */
  ghost predicate TargetsOk(pr: Program) {
    forall t :: t in pr.targets ==> 0 < t && Lands(pr, t) && pr.Op(t - 1).code == FULL_SPILL
  }

  /** The map during operation i, what was put in front of it, and its registers. */
  ghost function AssignAt(p: Pool, pr: Program, i: nat): (r: Assigned)
    requires PoolOk(p) && SitesOk(p, pr) && NeighboursOk(pr) && i < |pr.sites|
    ensures InPool(p, r.rm) && |r.r| == 3
    ensures r.code == pr.Op(i).code || (pr.Op(i).code == GETARG && r.code == NOP)
    ensures pr.Op(i).code == CALL ==> IsFree(r.rm, p.ret.id)
  {
    AssignRegs(p, pr.sites[i], pr.InfoAt(i), if i == 0 then map[] else AssignAt(p, pr, i - 1).rm)
  }

  /** The map on arrival at operation i.  At a PROLOG, arguments are in their
      registers already. */
  ghost function MapBefore(p: Pool, pr: Program, i: nat): (m: Rmap)
    requires PoolOk(p) && SitesOk(p, pr) && NeighboursOk(pr) && i < |pr.sites|
    ensures InPool(p, m)
  {
    if pr.Op(i).code == PROLOG then ArgMap(p, pr.InfoAt(i), |pr.InfoAt(i)|).0
    else if i == 0 then map[]
    else AssignAt(p, pr, i - 1).rm
  }

  lemma AssignFollows(p: Pool, pr: Program, i: nat)
    requires PoolOk(p) && SitesOk(p, pr) && NeighboursOk(pr) && i < |pr.sites| && pr.Op(i).code != PROLOG
    ensures SiteOk(p, pr.sites[i]) && Shaped(pr.Op(i), pr.InfoAt(i))
    ensures pr.Op(i).code == RETVAL ==> IsFree(MapBefore(p, pr, i), p.ret.id)
    ensures AssignAt(p, pr, i) == AssignRegs(p, pr.sites[i], pr.InfoAt(i), MapBefore(p, pr, i))
  {
    hide AssignRegs, Shaped, SiteOk;
  }

  /** A PROLOG takes no map over. */
  lemma AssignFirst(p: Pool, pr: Program, i: nat, prev: Rmap)
    requires PoolOk(p) && SitesOk(p, pr) && NeighboursOk(pr) && i < |pr.sites| && pr.Op(i).code == PROLOG
    ensures SiteOk(p, pr.sites[i]) && Shaped(pr.Op(i), pr.InfoAt(i))
    ensures AssignAt(p, pr, i) == AssignRegs(p, pr.sites[i], pr.InfoAt(i), prev)
  {
    hide Shaped, SiteOk, AssignOperands, ArgMap;
  }

  lemma NoOperandsKeepsMap(p: Pool, s: Site, a: Alloc)
    requires SiteOk(p, s) && NoRegisters(s.op)
    ensures AssignOperands(p, s, a).rm == a.rm && AssignOperands(p, s, a).pre == a.pre
  {
    assert s.op.T(0) == s.op.t0 && s.op.T(1) == s.op.t1 && s.op.T(2) == s.op.t2;
  }

  /** Landing places keep the map and insert nothing, so arriving at them by a jump
      or by falling through is the same. */
  lemma LandingKeepsMap(p: Pool, pr: Program, i: nat)
    requires PoolOk(p) && SitesOk(p, pr) && NeighboursOk(pr) && i < |pr.sites|
    requires IsLanding(pr.Op(i).code) || pr.Op(i).code == PROLOG
    ensures AssignAt(p, pr, i).rm == MapBefore(p, pr, i) && AssignAt(p, pr, i).pre == []
  {
    var s := pr.sites[i];
    assert Shaped(s.op, pr.InfoAt(i)) && SiteOk(p, s);
    NoOperandsKeepsMap(p, s, Alloc(MapBefore(p, pr, i), []));
  }

  function Moves(ms: seq<RegOp>): (ns: seq<Node>)
    ensures |ns| == |ms| && forall k :: 0 <= k < |ms| ==> ns[k] == Move(ms[k])
  {
    seq(|ms|, k requires 0 <= k < |ms| => Move(ms[k]))
  }

  /** The opposite condition (`branch_adjustment`). */
  function Invert(code: Code): Code {
    match code
    case BEQ => BNE case BGT => BLE case BGE => BLT case BNE => BEQ case BLT => BGE case BLE => BGT
    case BOADD => BNOADD case BOSUB => BNOSUB case BNOADD => BOADD case BNOSUB => BOSUB
    case FBEQ => FBNE case FBGT => FBLE case FBGE => FBLT case FBNE => FBEQ case FBLT => FBGE case FBLE => FBGT
    case c => c
  }

  ghost function Repair(p: Pool, pr: Program, i: nat): seq<RegOp>
    requires ProgramOk(p, pr) && i < |pr.sites| && Jumps(pr.Op(i))
  {
    var t := pr.Op(i).jmp.value;
    RepairMoves(pr.order(i).0, pr.order(i).1, AssignAt(p, pr, i).rm, AssignAt(p, pr, t).rm, pr.sites[i].liveOut, pr.sites[t].liveIn)
  }

  /** The two walks at every jump visit every key of the maps they walk. */
  ghost predicate WalksCover(p: Pool, pr: Program)
    requires ProgramOk(p, pr)
  {
    forall i :: 0 <= i < |pr.sites| && Jumps(pr.Op(i)) ==>
      var t := pr.Op(i).jmp.value;
      && (forall v :: v in AssignAt(p, pr, i).rm ==> v in pr.order(i).0)
      && (forall v :: v in AssignAt(p, pr, t).rm ==> v in pr.order(i).1)
  }

  lemma OrderKeepsInfo(pr: Program, order: nat -> (seq<int>, seq<int>), i: nat)
    requires i < |pr.sites|
    ensures pr.(order := order).InfoAt(i) == pr.InfoAt(i)
  {
    assert pr.(order := order).Ops() == pr.Ops();
  }

  lemma OrderKeepsProgram(p: Pool, pr: Program, order: nat -> (seq<int>, seq<int>))
    requires ProgramOk(p, pr)
    ensures ProgramOk(p, pr.(order := order))
  {
    hide DeclaredAt, SiteOk, Shaped;
    forall i: nat | i < |pr.sites|
      ensures pr.(order := order).InfoAt(i) == pr.InfoAt(i)
    {
      OrderKeepsInfo(pr, order, i);
    }
  }

  /** The orders of the walks change no map. */
  lemma {:induction false} OrderDoesNotMatter(p: Pool, pr: Program, order: nat -> (seq<int>, seq<int>), i: nat)
    requires ProgramOk(p, pr) && ProgramOk(p, pr.(order := order)) && i < |pr.sites|
    ensures AssignAt(p, pr.(order := order), i) == AssignAt(p, pr, i)
  {
    hide SitesOk, JumpsOk, TargetsOk, NeighboursOk, SiteOk, Shaped, AssignRegs;
    OrderKeepsInfo(pr, order, i);
    if i > 0 {
      OrderDoesNotMatter(p, pr, order, i - 1);
    }
  }

  /** `rmap_equal` at a branch. */
  ghost predicate MapsAgree(p: Pool, pr: Program, i: nat)
    requires ProgramOk(p, pr) && i < |pr.sites| && Jumps(pr.Op(i))
  {
    var t := pr.Op(i).jmp.value;
    RmapEqual(AssignAt(p, pr, i).rm, AssignAt(p, pr, t).rm, pr.sites[t].liveIn)
  }

  ghost function CoreOf(p: Pool, pr: Program, i: nat, code: Code, toPatch: bool): (n: Node)
    requires ProgramOk(p, pr) && i < |pr.sites|
    ensures n.Core? && |n.r| == 3
  {
    var a := AssignAt(p, pr, i);
    Core(pr.Op(i).(code := code), a.r, a.rm, pr.sites[i].liveIn, toPatch)
  }

  /** Moves, the operation, and what follows it. */
  function Framed(pre: seq<RegOp>, core: Node, post: seq<Node>): (b: seq<Node>)
    requires core.Core? && |core.r| == 3 && forall k :: 0 <= k < |post| ==> !post[k].Core?
    ensures |b| == |pre| + 1 + |post| && b[|pre|] == core
    ensures forall k :: 0 <= k < |pre| ==> b[k] == Move(pre[k])
    ensures forall k :: |pre| < k < |b| ==> b[k] == post[k - |pre| - 1]
    ensures forall k :: 0 <= k < |b| && b[k].Core? ==> |b[k].r| == 3
  {
    Moves(pre) + [core] + post
  }

  /** The repair of a branch that was inverted around it. */
  function BranchTail(moves: seq<RegOp>, t: nat): (ns: seq<Node>)
    ensures |ns| == |moves| + 2 && ns[|moves|] == Jump(t) && ns[|moves| + 1] == PatchHere
    ensures forall k :: 0 <= k < |moves| ==> ns[k] == Move(moves[k])
    ensures forall k :: 0 <= k < |ns| ==> !ns[k].Core?
  {
    Moves(moves) + [Jump(t), PatchHere]
  }

  /** Operation i and all that allocation puts around it. */
  ghost function Block(p: Pool, pr: Program, i: nat): (b: seq<Node>)
    requires ProgramOk(p, pr) && i < |pr.sites|
    ensures forall k :: 0 <= k < |b| && b[k].Core? ==> |b[k].r| == 3
  {
    var op := pr.Op(i);
    var a := AssignAt(p, pr, i);
    if op.code == JMP && op.mode == ImmForm then
      Framed(a.pre + Repair(p, pr, i), CoreOf(p, pr, i, JMP, false), [])
    else if IsCondBranch(op.code) && !MapsAgree(p, pr, i) then
      Framed(a.pre, CoreOf(p, pr, i, Invert(op.code), true), BranchTail(Repair(p, pr, i), op.jmp.value))
    else
      Framed(a.pre, CoreOf(p, pr, i, a.code, false), [])
  }

  ghost function Allocate(p: Pool, pr: Program): (prog: seq<seq<Node>>)
    requires ProgramOk(p, pr)
    ensures |prog| == |pr.sites| && (forall i :: 0 <= i < |prog| ==> prog[i] == Block(p, pr, i)) && ProgOk(prog)
  {
    seq(|pr.sites|, i requires 0 <= i < |pr.sites| => Block(p, pr, i))
  }
}
