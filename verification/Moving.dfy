/** The same operations at other positions: jump targets and addresses follow, and a
    step does the same. */
module Moving {
  import opened Ops
  import opened Machine

  /** `place[i]` is where a jump to operation i now leads, or, one past the last
      operation, where the list now ends. */
  function MovedOp(place: seq<nat>, op: Op): Op {
    match op.jmp
    case Some(t) => op.(jmp := Some(if t < |place| then place[t] else t))
    case None => op
  }

  function MovedTargets(place: seq<nat>, targets: set<nat>): set<nat>
    requires forall t :: t in targets ==> t < |place|
  {
    set t | t in targets :: place[t]
  }

  /** Jumps of an operation stay inside the list. */
  predicate JumpsInside(op: Op, n: nat) {
    op.jmp.Some? ==> op.jmp.value < n
  }

  /** The addresses of the kept operations are those of the operations where they
      are now, and nothing else about the machine differs. */
  ghost predicate AddressesMove<W(!new), M(!new)>(env: Env<W, M>, env': Env<W, M>, place: seq<nat>, targets: set<nat>, kept: set<nat>) {
    && (forall t :: t in targets ==> t < |place|) && (forall t :: t in kept ==> t < |place|)
    && env' == env.(address := env'.address, decode := env'.decode)
    && (forall t :: t in kept ==> env'.address(place[t]) == env.address(t))
    && (forall w :: DecodesMoved(env.decode(w), env'.decode(w), place, targets))
  }

  lemma TargetsPlaced<W(!new), M(!new)>(env: Env<W, M>, env': Env<W, M>, place: seq<nat>, targets: set<nat>, kept: set<nat>)
    requires AddressesMove(env, env', place, targets, kept)
    ensures forall t :: t in targets ==> t < |place|
  {
  }

  predicate DecodesMoved(t: Option<nat>, t': Option<nat>, place: seq<nat>, targets: set<nat>)
    requires forall t :: t in targets ==> t < |place|
  {
    if t.Some? && t.value in targets then t' == Some(place[t.value])
    else t'.Some? ==> t'.value !in MovedTargets(place, targets)
  }

  /** A result, its position moved. */
  function Moved<W, M>(place: seq<nat>, r: Result<Cfg<W, M>, W, M>): Result<Cfg<W, M>, W, M> {
    match r
    case Running(c) => if c.pc < |place| then Running(c.(pc := place[c.pc])) else Stuck
    case Done(_, _) => r
    case Stuck => r
  }

  /** The operation can jump to t. */
  predicate LeadsTo(op: Op, targets: set<nat>, t: nat) {
    (op.code == JMP || MayBranch(op.code)) && (op.jmp == Some(t) || (op.code == JMP && op.mode != ImmForm && t in targets))
  }

  /** The same step of the operation that was at `pc` and is now at `at`: it goes on
      to the next one where it did, and jumps where it jumped. */
  ghost predicate Follows<W(!new), M(!new)>(op: Op, targets: set<nat>, place: seq<nat>, pc: nat, at: nat,
                                            r: Result<Cfg<W, M>, W, M>, q: Result<Cfg<W, M>, W, M>) {
    match r
    case Running(d) =>
      || (d.pc == pc + 1 && q == Running(d.(pc := at + 1)))
      || (LeadsTo(op, targets, d.pc) && d.pc < |place| && q == Running(d.(pc := place[d.pc])))
    case Done(_, _) => q == r
    case Stuck => q == r
  }

  /** The address a call goes to, or a code reference takes. */
  predicate TakesAddress(op: Op) {
    (op.code == REF_CODE || op.code == CALL) && op.jmp.Some?
  }

  lemma SameValuesMoved<W(!new), M(!new)>(env: Env<W, M>, env': Env<W, M>, place: seq<nat>, op: Op, regs: int -> W)
    requires env' == env.(address := env'.address, decode := env'.decode)
    requires TakesAddress(op) ==> op.jmp.value < |place| && env'.address(place[op.jmp.value]) == env.address(op.jmp.value)
    ensures VirtVals(env', MovedOp(place, op), regs) == VirtVals(env, op, regs)
    ensures SigOf(MovedOp(place, op)) == SigOf(op)
  {
    var op' := MovedOp(place, op);
    assert op'.A(0) == op.A(0) && op'.A(1) == op.A(1) && op'.A(2) == op.A(2);
    var v, v' := VirtVals(env, op, regs), VirtVals(env', op', regs);
    assert v'[0] == v[0] && v'[1] == v[1] && v'[2] == v[2];
  }

  lemma MovedWriteBack<W(!new), M(!new)>(env: Env<W, M>, env': Env<W, M>, place: seq<nat>, op: Op, vals: seq<W>, c: Cfg<W, M>, at: nat)
    requires env' == env.(address := env'.address, decode := env'.decode)
    ensures WriteBack(env', MovedOp(place, op), vals, c.(pc := at)) == WriteBack(env, op, vals, c)
  {
    assert MovedOp(place, op).A(0) == op.A(0) && MovedOp(place, op).A(1) == op.A(1);
  }

  lemma MovedOpIs(place: seq<nat>, op: Op)
    ensures var op' := MovedOp(place, op);
      op' == op.(jmp := op'.jmp) && op'.jmp.Some? == op.jmp.Some?
      && (op.jmp.Some? && op.jmp.value < |place| ==> op'.jmp == Some(place[op.jmp.value]))
      && (Computes(op.code) ==> op.code != RET && !TakesAddress(op))
  {
  }

  lemma MovedCompute<W(!new), M(!new)>(env: Env<W, M>, env': Env<W, M>, ops: seq<Op>, ops': seq<Op>, targets: set<nat>, targets': set<nat>,
                                       place: seq<nat>, c: Cfg<W, M>, at: nat)
    requires env' == env.(address := env'.address, decode := env'.decode) && |place| == |ops| + 1
    requires c.pc < |ops| && at < |ops'| && ops'[at] == MovedOp(place, ops[c.pc])
    requires Computes(ops[c.pc].code) && JumpsInside(ops[c.pc], |ops|)
    ensures Follows(ops[c.pc], targets, place, c.pc, at, Step(env, ops, targets, c), Step(env', ops', targets', c.(pc := at)))
  {
    hide VirtVals, SigOf, WriteBack, Step, Computes, MayBranch, MovedOp, TakesAddress;
    var op := ops[c.pc];
    MovedOpIs(place, op);
    SameValuesMoved(env, env', place, op, c.regs);
    MovedWriteBack(env, env', place, op, VirtVals(env, op, c.regs), c, at);
    ComputeOrReturn(env, ops, targets, c);
    ComputeOrReturn(env', ops', targets', c.(pc := at));
  }

  lemma MovedJump<W(!new), M(!new)>(env: Env<W, M>, env': Env<W, M>, ops: seq<Op>, ops': seq<Op>, targets: set<nat>, place: seq<nat>,
                                    kept: set<nat>, c: Cfg<W, M>, at: nat)
    requires AddressesMove(env, env', place, targets, kept) && |place| == |ops| + 1
    requires c.pc < |ops| && at < |ops'| && ops'[at] == MovedOp(place, ops[c.pc])
    requires ops[c.pc].code == JMP && JumpsInside(ops[c.pc], |ops|)
    ensures Follows(ops[c.pc], targets, place, c.pc, at, Step(env, ops, targets, c),
                    Step(env', ops', MovedTargets(place, targets), c.(pc := at)))
  {
    var op := ops[c.pc];
    SameValuesMoved(env, env', place, op, c.regs);
    hide VirtVals, SigOf;
    var w := VirtVals(env, op, c.regs)[0];
    assert DecodesMoved(env.decode(w), env'.decode(w), place, targets);
  }

  lemma SameArgsMoved<W(!new), M(!new)>(env: Env<W, M>, env': Env<W, M>, c: Cfg<W, M>, at: nat)
    requires env' == env.(address := env'.address, decode := env'.decode)
    ensures ArgValues(env', c.(pc := at)) == ArgValues(env, c)
  {
  }

  lemma MovedAddress<W(!new), M(!new)>(env: Env<W, M>, env': Env<W, M>, ops: seq<Op>, ops': seq<Op>, targets: set<nat>, targets': set<nat>,
                                       place: seq<nat>, c: Cfg<W, M>, at: nat)
    requires env' == env.(address := env'.address, decode := env'.decode) && |place| == |ops| + 1
    requires c.pc < |ops| && at < |ops'| && ops'[at] == MovedOp(place, ops[c.pc])
    requires ops[c.pc].code == CALL || ops[c.pc].code == REF_CODE
    requires TakesAddress(ops[c.pc]) ==>
      ops[c.pc].jmp.value < |ops| && env'.address(place[ops[c.pc].jmp.value]) == env.address(ops[c.pc].jmp.value)
    ensures Follows(ops[c.pc], targets, place, c.pc, at, Step(env, ops, targets, c), Step(env', ops', targets', c.(pc := at)))
  {
    hide VirtVals, SigOf, ArgValues;
    SameValuesMoved(env, env', place, ops[c.pc], c.regs);
    SameArgsMoved(env, env', c, at);
  }

  lemma MovedControl<W(!new), M(!new)>(env: Env<W, M>, env': Env<W, M>, ops: seq<Op>, ops': seq<Op>, targets: set<nat>, targets': set<nat>,
                                       place: seq<nat>, c: Cfg<W, M>, at: nat)
    requires env' == env.(address := env'.address, decode := env'.decode) && |place| == |ops| + 1
    requires c.pc < |ops| && at < |ops'| && ops'[at] == MovedOp(place, ops[c.pc])
    requires !Computes(ops[c.pc].code) && ops[c.pc].code !in {JMP, CALL, REF_CODE}
    ensures Follows(ops[c.pc], targets, place, c.pc, at, Step(env, ops, targets, c), Step(env', ops', targets', c.(pc := at)))
  {
    hide VirtVals, SigOf, ArgValues, LeadsTo, MovedOp, JumpsInside;
    MovedOpIs(place, ops[c.pc]);
    SameValuesMoved(env, env', place, ops[c.pc], c.regs);
  }

  /** An operation at another place of the list does the same. */
  lemma MovedStep<W(!new), M(!new)>(env: Env<W, M>, env': Env<W, M>, ops: seq<Op>, ops': seq<Op>, targets: set<nat>, place: seq<nat>,
                                    kept: set<nat>, c: Cfg<W, M>, at: nat)
    requires AddressesMove(env, env', place, targets, kept) && |place| == |ops| + 1
    requires c.pc < |ops| && at < |ops'| && ops'[at] == MovedOp(place, ops[c.pc])
    requires JumpsInside(ops[c.pc], |ops|) && (TakesAddress(ops[c.pc]) ==> ops[c.pc].jmp.value in kept)
    ensures Follows(ops[c.pc], targets, place, c.pc, at, Step(env, ops, targets, c),
                    Step(env', ops', MovedTargets(place, targets), c.(pc := at)))
  {
    hide Step, Follows, MovedOp, Computes, MovedTargets;
    if ops[c.pc].code == JMP {
      MovedJump(env, env', ops, ops', targets, place, kept, c, at);
    } else if Computes(ops[c.pc].code) {
      MovedCompute(env, env', ops, ops', targets, MovedTargets(place, targets), place, c, at);
    } else if ops[c.pc].code == CALL || ops[c.pc].code == REF_CODE {
      MovedAddress(env, env', ops, ops', targets, MovedTargets(place, targets), place, c, at);
    } else {
      MovedControl(env, env', ops, ops', targets, MovedTargets(place, targets), place, c, at);
    }
  }

  // ---- Addresses ------------------------------------------------------------------------

  /** The machine as the list before sees it: an operation's address is that of the
      operation where it is now. */
  ghost function MovedBack<W, M>(env: Env<W, M>, place: seq<nat>, targets: set<nat>): Env<W, M> {
    env.(address := (t: nat) => if t < |place| then env.address(place[t]) else env.address(t),
         decode := w => Origin(env.decode(w), place, targets))
  }

  /** The target that is now at this place. */
  ghost function Origin(t: Option<nat>, place: seq<nat>, targets: set<nat>): Option<nat> {
    if t.Some? && exists o :: o in targets && o < |place| && place[o] == t.value
    then var o :| o in targets && o < |place| && place[o] == t.value; Some(o)
    else None
  }

  lemma MovesBack<W(!new), M(!new)>(env: Env<W, M>, place: seq<nat>, targets: set<nat>, kept: set<nat>)
    requires (forall t :: t in targets ==> t < |place|) && (forall t :: t in kept ==> t < |place|)
    requires forall t, u :: t in targets && u in targets && place[t] == place[u] ==> t == u
    ensures AddressesMove(MovedBack(env, place, targets), env, place, targets, kept)
  {
    var back := MovedBack(env, place, targets);
    forall w
      ensures DecodesMoved(back.decode(w), env.decode(w), place, targets)
    {
      assert back.decode(w) == Origin(env.decode(w), place, targets);
    }
  }
}
