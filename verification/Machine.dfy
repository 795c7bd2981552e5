/** Two machines: one runs operations over virtual registers, the other the
    operation list after register allocation, over hardware registers and one
    spill slot per virtual register.  What an operation computes is a parameter
    (`Env`), so results hold for every word type and every arithmetic. */
module Machine {
  import opened Ops
  import opened RegMap
  import opened RegAlloc

  /** All that the result of an operation depends on besides operand values. */
  datatype Sig = Sig(code: Code, mode: Mode, unsigned: bool, size: int, disp: int)

  function SigOf(op: Op): Sig {
    Sig(op.code, op.mode, op.unsigned, op.size, op.disp)
  }

  /** `W` is the word, `M` memory and flags.
      `value` is what is assigned to the destination, `effect` the new memory,
      `taken` the branch condition, `extend` the widening of an argument,
      `call` the called function, `clobber` what a call leaves in a register
      nobody preserves, `address` and `decode` code addresses. */
  datatype Env<!W, !M> = Env(
    imm: int -> W,
    value: (Sig, seq<W>, M) -> W,
    effect: (Sig, seq<W>, M) -> M,
    taken: (Sig, seq<W>, M) -> bool,
    extend: (int, W) -> W,
    call: (W, seq<W>, M) -> (W, M),
    clobber: (int, W, seq<W>, M) -> W,
    address: nat -> W,
    decode: W -> Option<nat>)

  datatype Operand = InReg(r: int) | Const(value: int)

  function PutargOperand(op: Op): Operand {
    if op.t0 == REG then InReg(op.a0) else Const(op.a0)
  }

  datatype Result<+C, +W, +M> = Running(c: C) | Done(value: W, mem: M) | Stuck

  function Set<W>(f: int -> W, k: int, w: W): int -> W {
    x => if x == k then w else f(x)
  }

  /** Operations that compute a value or touch memory, and nothing else. */
  predicate Computes(code: Code) {
    code !in {NOP, RET, JMP, PREPARE, PUTARG, CALL, RETVAL, GETARG, REF_CODE}
  }

  /** Position of the operand an operation assigns.  The overflow branches update
      their first operand in place. */
  function DestPos(op: Op): Option<int> {
    if op.t0 == TREG then Some(0)
    else if op.code in {BOADD, BOSUB, BNOADD, BNOSUB} && op.t1 == REG then Some(1)
    else None
  }

  /** Operand values; `regs(i)` is the register operand at position i.  The first
      operand of a call is the function, given by its address; that of a jump or
      branch names its target and has no value. */
  function Vals<W, M>(env: Env<W, M>, op: Op, regs: int -> W): (v: seq<W>)
    ensures |v| == 3
  {
    [if op.t0 == REG then regs(0)
     else if op.jmp.None? then env.imm(op.a0)
     else if op.code == CALL then env.address(op.jmp.value)
     else env.imm(0),
     if op.t1 == REG then regs(1) else env.imm(op.a1),
     if op.t2 == REG then regs(2) else env.imm(op.a2)]
  }

  // ---- Virtual registers -----------------------------------------------------

  /** `args` are the arguments put since PREPARE, `ret` what the last call returned. */
  datatype Cfg<!W, !M> = Cfg(pc: nat, regs: int -> W, mem: M, args: seq<Operand>, ret: W)

  function ArgValue<W, M>(env: Env<W, M>, regs: int -> W, o: Operand): W {
    match o
    case InReg(r) => regs(r)
    case Const(i) => env.imm(i)
  }

  function ArgValues<W, M>(env: Env<W, M>, c: Cfg<W, M>): seq<W> {
    seq(|c.args|, i requires 0 <= i < |c.args| => ArgValue(env, c.regs, c.args[i]))
  }

  function VirtVals<W, M>(env: Env<W, M>, op: Op, regs: int -> W): (v: seq<W>)
    ensures |v| == 3
  {
    Vals(env, op, i => regs(op.A(i)))
  }

  function WriteBack<W, M>(env: Env<W, M>, op: Op, vals: seq<W>, c: Cfg<W, M>): int -> W
  {
    match DestPos(op)
    case Some(i) => Set(c.regs, op.A(i), env.value(SigOf(op), vals, c.mem))
    case None => c.regs
  }

  /** One operation.  An indirect jump reaches only `targets`. */
  function Step<W, M>(env: Env<W, M>, ops: seq<Op>, targets: set<nat>, c: Cfg<W, M>): Result<Cfg<W, M>, W, M> {
    if c.pc >= |ops| then Stuck
    else
      var op := ops[c.pc];
      var vals := VirtVals(env, op, c.regs);
      match op.code
      case NOP => Running(c.(pc := c.pc + 1))
      case RET => Done(vals[0], c.mem)
      case JMP =>
        if op.mode == ImmForm then
          if op.jmp.Some? then Running(c.(pc := op.jmp.value)) else Stuck
        else
          (match env.decode(vals[0])
           case Some(t) => if t in targets then Running(c.(pc := t)) else Stuck
           case None => Stuck)
      case PREPARE => Running(c.(pc := c.pc + 1, args := []))
      case PUTARG => Running(c.(pc := c.pc + 1, args := c.args + [PutargOperand(op)]))
      case CALL =>
        var (r, m) := env.call(vals[0], ArgValues(env, c), c.mem);
        Running(c.(pc := c.pc + 1, mem := m, ret := r))
      case RETVAL => Running(c.(pc := c.pc + 1, regs := Set(c.regs, op.a0, c.ret)))
      case GETARG => Running(c.(pc := c.pc + 1, regs := Set(c.regs, op.a0, env.extend(op.a1, c.regs(ArgReg(op.a1))))))
      case REF_CODE =>
        if op.jmp.Some? then Running(c.(pc := c.pc + 1, regs := Set(c.regs, op.a0, env.address(op.jmp.value)))) else Stuck
      case _ =>
        var next := c.(regs := WriteBack(env, op, vals, c), mem := env.effect(SigOf(op), vals, c.mem));
        if MayBranch(op.code) && env.taken(SigOf(op), vals, c.mem) then
          if op.jmp.Some? then Running(next.(pc := op.jmp.value)) else Stuck
        else Running(next.(pc := c.pc + 1))
  }

  /** A step of an operation that computes or returns. */
  lemma ComputeOrReturn<W(!new), M(!new)>(env: Env<W, M>, ops: seq<Op>, targets: set<nat>, c: Cfg<W, M>)
    requires c.pc < |ops| && (Computes(ops[c.pc].code) || ops[c.pc].code == RET)
    ensures var op := ops[c.pc]; var v := VirtVals(env, op, c.regs);
      var next := c.(regs := WriteBack(env, op, v, c), mem := env.effect(SigOf(op), v, c.mem));
      Step(env, ops, targets, c) ==
      if op.code == RET then Done(v[0], c.mem)
      else if !(MayBranch(op.code) && env.taken(SigOf(op), v, c.mem)) then Running(next.(pc := c.pc + 1))
      else if op.jmp.Some? then Running(next.(pc := op.jmp.value)) else Stuck
  {
  }

  function Run<W, M>(env: Env<W, M>, ops: seq<Op>, targets: set<nat>, c: Cfg<W, M>, n: nat): Result<Cfg<W, M>, W, M> {
    if n == 0 then Running(c)
    else
      match Run(env, ops, targets, c, n - 1)
      case Running(d) => Step(env, ops, targets, d)
      case r => r
  }

  lemma RunOne<W(!new), M(!new)>(env: Env<W, M>, ops: seq<Op>, targets: set<nat>, c: Cfg<W, M>)
    ensures Run(env, ops, targets, c, 1) == Step(env, ops, targets, c)
  {
    hide Step;
    assert Run(env, ops, targets, c, 0) == Running(c);
  }

  /** A run that goes on from where it was. */
  lemma {:induction false} RunOn<W(!new), M(!new)>(env: Env<W, M>, ops: seq<Op>, targets: set<nat>, c: Cfg<W, M>, m: nat, d: Cfg<W, M>, k: nat)
    requires Run(env, ops, targets, c, m) == Running(d)
    ensures Run(env, ops, targets, c, m + k) == Run(env, ops, targets, d, k)
  {
    hide Step;
    if k > 0 {
      RunOn(env, ops, targets, c, m, d, k - 1);
      assert m + k - 1 == m + (k - 1);
    }
  }

  /** One run of n steps against another of m: it returned the same, or both go on and
      the second has come as far. */
  ghost predicate Upheld<C, D, W, M>(r: Result<C, W, M>, n: nat, q: Result<D, W, M>, m: nat) {
    match r
    case Running(_) => q.Running? && m >= n
    case Done(value, mem) => q == Done(value, mem)
    case Stuck => true
  }

  // ---- Hardware registers ----------------------------------------------------

  /** The allocated list, grouped: block i holds operation i with everything that
      was inserted before and after it. */
  datatype Node =
    | Move(m: RegOp)
    | Core(op: Op, r: seq<int>, rm: Rmap, liveIn: set<int>, toPatch: bool)
    | Jump(target: nat)
    | PatchHere

  datatype Hw<!W, !M> = Hw(block: nat, index: nat, hw: int -> W, slot: int -> W, mem: M, args: seq<Operand>, argMap: Rmap)

  function ExecRegOp<W, M>(m: RegOp, s: Hw<W, M>): Hw<W, M> {
    match m
    case UREG(v, h) => s.(slot := Set(s.slot, v, s.hw(h)))
    case SYNCREG(v, h) => s.(slot := Set(s.slot, v, s.hw(h)))
    case LREG(h, v) => s.(hw := Set(s.hw, h, s.slot(v)))
    case RENAMEREG(to, from) => s.(hw := Set(s.hw, to, s.hw(from)))
  }

  function ExecRegOps<W, M>(ms: seq<RegOp>, s: Hw<W, M>): (t: Hw<W, M>)
    ensures t.block == s.block && t.index == s.index
  {
    if ms == [] then s else ExecRegOp(ms[|ms| - 1], ExecRegOps(ms[..|ms| - 1], s))
  }

  /** Where the value of a virtual register is. */
  function ValueOf<W, M>(rm: Rmap, s: Hw<W, M>, v: int): W {
    if v in rm then s.hw(rm[v]) else s.slot(v)
  }

  function HwArgValue<W, M>(env: Env<W, M>, s: Hw<W, M>, o: Operand): W {
    match o
    case InReg(r) => ValueOf(s.argMap, s, r)
    case Const(i) => env.imm(i)
  }

  function HwArgValues<W, M>(env: Env<W, M>, s: Hw<W, M>): seq<W> {
    seq(|s.args|, i requires 0 <= i < |s.args| => HwArgValue(env, s, s.args[i]))
  }

  function HwVals<W, M>(env: Env<W, M>, n: Node, s: Hw<W, M>): (v: seq<W>)
    requires n.Core? && |n.r| == 3
    ensures |v| == 3
  {
    Vals(env, n.op, i => if 0 <= i < 3 then s.hw(n.r[i]) else s.hw(0))
  }

  /** A register survives a call when the callee saves it or, being live and
      mapped, it is pushed before the call and popped after it. */
  predicate Survives(p: Pool, n: Node, h: int)
    requires n.Core?
  {
    || h == p.fpReg
    || (exists r :: r in p.regs && r.id == h && r.calleeSaved)
    || (exists v :: v in n.liveIn && v in n.rm && n.rm[v] == h)
  }

  /** What the hardware registers hold after a call that returned `r`. */
  function AfterCall<W, M>(env: Env<W, M>, p: Pool, n: Node, f: W, args: seq<W>, r: W, s: Hw<W, M>): int -> W
    requires n.Core?
  {
    h => if h == p.ret.id then r else if Survives(p, n, h) then s.hw(h) else env.clobber(h, f, args, s.mem)
  }

  function HwAssigned<W, M>(env: Env<W, M>, n: Node, vals: seq<W>, s: Hw<W, M>): int -> W
    requires n.Core? && |n.r| == 3
  {
    match DestPos(n.op)
    case Some(i) => Set(s.hw, n.r[i], env.value(SigOf(n.op), vals, s.mem))
    case None => s.hw
  }

  /** Where control goes on arrival at operation t: to its own code, past what was
      inserted before it. */
  function CoreIndex(block: seq<Node>): nat {
    if block == [] || block[0].Core? then 0 else 1 + CoreIndex(block[1..])
  }

  function PatchIndex(block: seq<Node>): nat {
    if block == [] || block[0].PatchHere? then 0 else 1 + PatchIndex(block[1..])
  }

  function GoTo<W, M>(prog: seq<seq<Node>>, s: Hw<W, M>, t: nat): Result<Hw<W, M>, W, M> {
    if t < |prog| then Running(s.(block := t, index := CoreIndex(prog[t]))) else Stuck
  }

  predicate ProgOk(prog: seq<seq<Node>>) {
    forall b, k :: 0 <= b < |prog| && 0 <= k < |prog[b]| && prog[b][k].Core? ==> |prog[b][k].r| == 3
  }

  function StepCore<W, M>(env: Env<W, M>, p: Pool, prog: seq<seq<Node>>, targets: set<nat>, n: Node, s: Hw<W, M>)
    : Result<Hw<W, M>, W, M>
    requires n.Core? && |n.r| == 3 && s.block < |prog|
  {
    var op := n.op;
    var vals := HwVals(env, n, s);
    var next := s.(index := s.index + 1);
    match op.code
    case NOP => Running(next)
    case RET => Done(vals[0], s.mem)
    case JMP =>
      if op.mode == ImmForm then
        if op.jmp.Some? then GoTo(prog, s, op.jmp.value) else Stuck
      else
        (match env.decode(vals[0])
         case Some(t) => if t in targets then GoTo(prog, s, t) else Stuck
         case None => Stuck)
    case PREPARE => Running(next.(args := [], argMap := n.rm))
    case PUTARG => Running(next.(args := s.args + [PutargOperand(op)]))
    case CALL =>
      var f := if op.t0 == REG then ValueOf(n.rm, s, op.a0) else vals[0];
      var args := HwArgValues(env, s);
      var (r, m) := env.call(f, args, s.mem);
      Running(next.(mem := m, hw := AfterCall(env, p, n, f, args, r, s)))
    case RETVAL => Running(next)
    case GETARG => Running(next.(hw := Set(s.hw, n.r[0], env.extend(op.a1, ValueOf(n.rm, s, ArgReg(op.a1))))))
    case REF_CODE =>
      if op.jmp.Some? then Running(next.(hw := Set(s.hw, n.r[0], env.address(op.jmp.value)))) else Stuck
    case _ =>
      var after := next.(hw := HwAssigned(env, n, vals, s), mem := env.effect(SigOf(op), vals, s.mem));
      if MayBranch(op.code) && env.taken(SigOf(op), vals, s.mem) then
        if n.toPatch then Running(after.(index := PatchIndex(prog[s.block])))
        else if op.jmp.Some? then GoTo(prog, after, op.jmp.value)
        else Stuck
      else Running(after)
  }

  function HwStep<W, M>(env: Env<W, M>, p: Pool, prog: seq<seq<Node>>, targets: set<nat>, s: Hw<W, M>)
    : Result<Hw<W, M>, W, M>
    requires ProgOk(prog)
  {
    if s.block >= |prog| then Stuck
    else if s.index >= |prog[s.block]| then Running(s.(block := s.block + 1, index := 0))
    else
      match prog[s.block][s.index]
      case Move(m) => Running(ExecRegOp(m, s).(index := s.index + 1))
      case Jump(t) => GoTo(prog, s, t)
      case PatchHere => Running(s.(index := s.index + 1))
      case n => StepCore(env, p, prog, targets, n, s)
  }

  function HwRun<W, M>(env: Env<W, M>, p: Pool, prog: seq<seq<Node>>, targets: set<nat>, s: Hw<W, M>, n: nat)
    : Result<Hw<W, M>, W, M>
    requires ProgOk(prog)
  {
    if n == 0 then Running(s)
    else
      match HwRun(env, p, prog, targets, s, n - 1)
      case Running(t) => HwStep(env, p, prog, targets, t)
      case r => r
  }
}
