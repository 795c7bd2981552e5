/** The code of a call on AMD64 (`myjit/amd64-specific.h`), run on a machine with
    register files and a stack: every argument arrives where the called function
    looks for it. */
module Amd64Call {
  import opened Amd64Args

  // ----- The machine -----

  datatype Insn =
    | SubRsp
    | ImmGp(rd: nat, value: int)
    | MovGp(rd: nat, rs: nat)
    | LoadGp(rd: nat, reg: VReg)
    | MovFp(rd: nat, rs: nat, single: bool)
    | LoadFp(rd: nat, reg: VReg, single: bool)
    | MovdFp(rd: nat, rs: nat)
    | PushGp(rs: nat)
    | PushFp(rs: nat)
    | PushSlot(reg: VReg)

  /** The register files, and the words of the stack with the top first. */
  datatype State = State(gp: seq<int>, fp: seq<int>, stack: seq<int>)

  /** The slots of the caller's frame, and the conversion of a `double` to a `float`. */
  datatype Frame = Frame(slots: VReg -> int, narrow: int -> int)

  /** The registers that hold virtual registers at the PREPARE. */
  type PrepareMap = map<VReg, nat>

  function Get(regs: seq<int>, r: nat): int {
    if r < |regs| then regs[r] else 0
  }

  function Set(regs: seq<int>, r: nat, value: int): seq<int> {
    if r < |regs| then regs[r := value] else regs
  }

  function Sized(f: Frame, single: bool, value: int): int {
    if single then f.narrow(value) else value
  }

  /** One instruction; the word made room for by SubRsp has no meaning. */
  function Step(i: Insn, f: Frame, s: State): State {
    match i
    case SubRsp => s.(stack := [0] + s.stack)
    case ImmGp(rd, value) => s.(gp := Set(s.gp, rd, value))
    case MovGp(rd, rs) => s.(gp := Set(s.gp, rd, Get(s.gp, rs)))
    case LoadGp(rd, reg) => s.(gp := Set(s.gp, rd, f.slots(reg)))
    case MovFp(rd, rs, single) => s.(fp := Set(s.fp, rd, Sized(f, single, Get(s.fp, rs))))
    case LoadFp(rd, reg, single) => s.(fp := Set(s.fp, rd, Sized(f, single, f.slots(reg))))
    case MovdFp(rd, rs) => s.(fp := Set(s.fp, rd, Get(s.gp, rs)))
    case PushGp(rs) => s.(stack := [Get(s.gp, rs)] + s.stack)
    case PushFp(rs) => s.(stack := [Get(s.fp, rs)] + s.stack)
    case PushSlot(reg) => s.(stack := [f.slots(reg)] + s.stack)
  }

  function Run(code: seq<Insn>, f: Frame, s: State): State {
    if code == [] then s else Step(code[|code| - 1], f, Run(code[..|code| - 1], f, s))
  }

  lemma {:induction false} RunAppend(a: seq<Insn>, b: seq<Insn>, f: Frame, s: State)
    ensures Run(a + b, f, s) == Run(b, f, Run(a, f, s))
    decreases |b|
  {
    hide Step;
    if b == [] {
      assert a + b == a;
    } else {
      assert (a + b)[..|a + b| - 1] == a + b[..|b| - 1];
      RunAppend(a, b[..|b| - 1], f, s);
    }
  }

  // ----- One argument -----

  predicate ByRegister(arg: OutArg) {
    arg.argPos < |ArgRegs(arg.kind)|
  }

  /** `emit_set_arg`. */
  function EmitSetArg(arg: OutArg, regmap: PrepareMap): seq<Insn>
    requires arg.kind == Gp && ByRegister(arg)
  {
    var reg := GP_ARG_REGS[arg.argPos];
    match arg.source
    case Var(v) =>
      if v !in regmap then [LoadGp(reg, v)]
      else if reg != regmap[v] then [MovGp(reg, regmap[v])]
      else []
    case Imm(value) => [ImmGp(reg, value)]
  }

  /** `emit_set_fparg`. */
  function EmitSetFparg(arg: OutArg, regmap: PrepareMap, f: Frame): seq<Insn>
    requires arg.kind == Fp && ByRegister(arg)
  {
    var reg := FP_ARG_REGS[arg.argPos];
    match arg.source
    case Var(v) =>
      if v !in regmap then [LoadFp(reg, v, arg.single)]
      else if arg.single || reg != regmap[v] then [MovFp(reg, regmap[v], arg.single)]
      else []
    case Imm(value) => [ImmGp(RAX, Sized(f, arg.single, value)), MovdFp(reg, RAX)]
  }

  /** `emit_push_arg`. */
  function EmitPushArg(arg: OutArg, regmap: PrepareMap): seq<Insn> {
    match arg.source
    case Var(v) => if v !in regmap then [PushSlot(v)] else [PushGp(regmap[v])]
    case Imm(value) => [ImmGp(RAX, value), PushGp(RAX)]
  }

  /** `emit_fppush_arg`. */
  function EmitFppushArg(arg: OutArg, regmap: PrepareMap, f: Frame): seq<Insn> {
    match arg.source
    case Var(v) =>
      if !arg.single then (if v !in regmap then [PushSlot(v)] else [PushFp(regmap[v])])
      else [if v !in regmap then LoadFp(0, v, true) else MovFp(0, regmap[v], true), PushFp(0)]
    case Imm(value) => [ImmGp(RAX, Sized(f, arg.single, value)), PushGp(RAX)]
  }

  function EmitArg(arg: OutArg, regmap: PrepareMap, f: Frame): seq<Insn> {
    if arg.kind == Gp then (if ByRegister(arg) then EmitSetArg(arg, regmap) else EmitPushArg(arg, regmap))
    else (if ByRegister(arg) then EmitSetFparg(arg, regmap, f) else EmitFppushArg(arg, regmap, f))
  }

  function Regs(s: State, kind: Kind): seq<int> {
    if kind == Gp then s.gp else s.fp
  }

  /** What an argument is worth in a state. */
  function ValueOf(arg: OutArg, regmap: PrepareMap, f: Frame, s: State): int {
    Sized(f, arg.single,
          match arg.source
          case Var(v) => if v in regmap then Get(Regs(s, arg.kind), regmap[v]) else f.slots(v)
          case Imm(value) => value)
  }

  /** An immediate goes through %rax unless it is moved to an integer register. */
  predicate ThroughRax(arg: OutArg) {
    arg.source.Imm? && !(arg.kind == Gp && ByRegister(arg))
  }

  /** A narrowed number goes through %xmm0 on its way to the stack. */
  predicate ThroughXmm0(arg: OutArg) {
    arg.kind == Fp && !ByRegister(arg) && arg.source.Var? && arg.single
  }

  /** A state with an argument of value `value` passed. */
  function Passed(arg: OutArg, value: int, s: State): State {
    var gp := if ThroughRax(arg) then Set(s.gp, RAX, value) else s.gp;
    var fp := if ThroughXmm0(arg) then Set(s.fp, 0, value) else s.fp;
    if !ByRegister(arg) then State(gp, fp, [value] + s.stack)
    else if arg.kind == Gp then State(Set(gp, GP_ARG_REGS[arg.argPos], value), fp, s.stack)
    else State(gp, Set(fp, FP_ARG_REGS[arg.argPos], value), s.stack)
  }

  predicate Ready(s: State) {
    |s.gp| == 16 && |s.fp| == 16
  }

  lemma RunOne(i: Insn, f: Frame, s: State)
    ensures Run([i], f, s) == Step(i, f, s)
  {
    assert [i][..0] == [];
  }

  lemma RunTwo(i: Insn, j: Insn, f: Frame, s: State)
    ensures Run([i, j], f, s) == Step(j, f, Step(i, f, s))
  {
    assert [i, j][..1] == [i];
    RunOne(i, f, s);
  }

  lemma SetSame(regs: seq<int>, r: nat)
    ensures Set(regs, r, Get(regs, r)) == regs
  {
  }

  /** The code of an argument passes its value. */
  lemma EmitPasses(arg: OutArg, regmap: PrepareMap, f: Frame, s: State)
    requires Ready(s) && (arg.single ==> arg.kind == Fp)
    ensures Run(EmitArg(arg, regmap, f), f, s) == Passed(arg, ValueOf(arg, regmap, f, s), s)
  {
    hide Run;
    var code := EmitArg(arg, regmap, f);
    if |code| == 0 {
      SetSame(Regs(s, arg.kind), ArgRegs(arg.kind)[arg.argPos]);
      RunNone(f, s);
    } else if |code| == 1 {
      RunOne(code[0], f, s);
      assert code == [code[0]];
    } else {
      RunTwo(code[0], code[1], f, s);
      assert code == [code[0], code[1]];
    }
  }

  lemma RunNone(f: Frame, s: State)
    ensures Run([], f, s) == s
  {
  }

  // ----- All arguments, the last one first -----

  function CodeFrom(args: seq<OutArg>, k: nat, regmap: PrepareMap, f: Frame): seq<Insn>
    requires k <= |args|
    decreases |args| - k
  {
    if k == |args| then [] else CodeFrom(args, k + 1, regmap, f) + EmitArg(args[k], regmap, f)
  }

  /** The state once the arguments from `k` on are passed. */
  function After(args: seq<OutArg>, k: nat, regmap: PrepareMap, f: Frame, s: State): State
    requires k <= |args|
    decreases |args| - k, 1
  {
    if k == |args| then s else Passed(args[k], Read(args, k, regmap, f, s), After(args, k + 1, regmap, f, s))
  }

  /** The value read for argument `k`. */
  function Read(args: seq<OutArg>, k: nat, regmap: PrepareMap, f: Frame, s: State): int
    requires k < |args|
    decreases |args| - k, 0
  {
    ValueOf(args[k], regmap, f, After(args, k + 1, regmap, f, s))
  }

  lemma {:induction false} AfterReady(args: seq<OutArg>, k: nat, regmap: PrepareMap, f: Frame, s: State)
    requires k <= |args| && Ready(s)
    ensures Ready(After(args, k, regmap, f, s))
    decreases |args| - k
  {
    if k < |args| {
      AfterReady(args, k + 1, regmap, f, s);
    }
  }

  lemma {:induction false} CodeRuns(args: seq<OutArg>, k: nat, regmap: PrepareMap, f: Frame, s: State)
    requires k <= |args| && Ready(s) && Numbered(args)
    ensures Run(CodeFrom(args, k, regmap, f), f, s) == After(args, k, regmap, f, s)
    decreases |args| - k
  {
    hide Passed, ValueOf, EmitArg;
    if k < |args| {
      CodeRuns(args, k + 1, regmap, f, s);
      AfterReady(args, k + 1, regmap, f, s);
      assert NumberedAt(args, k);
      EmitPasses(args[k], regmap, f, After(args, k + 1, regmap, f, s));
      RunAppend(CodeFrom(args, k + 1, regmap, f), EmitArg(args[k], regmap, f), f, s);
    }
  }

  lemma {:induction false} EarlierGrows(kinds: seq<Kind>, k: nat, i: nat)
    requires k < i <= |kinds|
    ensures Earlier(kinds, k, kinds[k]) < Earlier(kinds, i, kinds[k])
    decreases i
  {
    if k < i - 1 {
      EarlierGrows(kinds, k, i - 1);
    }
  }

  lemma {:induction false} StackGrows(kinds: seq<Kind>, k: nat, i: nat)
    requires k <= i <= |kinds|
    ensures EarlierOnStack(kinds, k) <= EarlierOnStack(kinds, i)
    decreases i
  {
    if k < i {
      StackGrows(kinds, k, i - 1);
    }
  }

  lemma {:induction false} OverflowsByNumber(args: seq<OutArg>, i: nat)
    requires i < |args| && Numbered(args)
    ensures Overflows(KindsOf(args), i) <==> !ByRegister(args[i])
  {
    assert NumberedAt(args, i);
  }

  /** An argument's value in its register, or `depth` words below the top of the stack. */
  predicate Holds(s: State, arg: OutArg, depth: nat, value: int) {
    if ByRegister(arg) then Get(Regs(s, arg.kind), ArgRegs(arg.kind)[arg.argPos]) == value
    else depth < |s.stack| && s.stack[depth] == value
  }

  lemma PassedHolds(arg: OutArg, value: int, s: State)
    requires Ready(s)
    ensures Holds(Passed(arg, value, s), arg, 0, value)
  {
  }

  /** Passing an earlier argument leaves a later one where it is. */
  lemma PassedKeeps(arg: OutArg, value: int, s: State, later: OutArg, depth: nat, held: int)
    requires Ready(s) && Holds(s, later, depth, held)
    requires arg.kind == later.kind ==> arg.argPos < later.argPos
    ensures Holds(Passed(arg, value, s), later, if ByRegister(arg) then depth else depth + 1, held)
  {
  }

  /** Every argument stays where its value was put. */
  lemma {:induction false} Lands(args: seq<OutArg>, k: nat, i: nat, regmap: PrepareMap, f: Frame, s: State)
    requires k <= i < |args| && Numbered(args) && Ready(s)
    ensures EarlierOnStack(KindsOf(args), k) <= EarlierOnStack(KindsOf(args), i)
    ensures Holds(After(args, k, regmap, f, s), args[i],
                  EarlierOnStack(KindsOf(args), i) - EarlierOnStack(KindsOf(args), k), Read(args, i, regmap, f, s))
    decreases i - k
  {
    hide Passed, ValueOf, Holds, ByRegister, Ready, KindsOf, Overflows, Earlier;
    var kinds := KindsOf(args);
    StackGrows(kinds, k, i);
    AfterReady(args, k + 1, regmap, f, s);
    if k == i {
      PassedHolds(args[k], Read(args, k, regmap, f, s), After(args, k + 1, regmap, f, s));
    } else {
      Lands(args, k + 1, i, regmap, f, s);
      OverflowsByNumber(args, k);
      EarlierGrows(kinds, k, i);
      assert NumberedAt(args, k) && NumberedAt(args, i);
      PassedKeeps(args[k], Read(args, k, regmap, f, s), After(args, k + 1, regmap, f, s), args[i],
                  EarlierOnStack(kinds, i) - EarlierOnStack(kinds, k + 1), Read(args, i, regmap, f, s));
    }
  }

  /** Below the passed arguments the stack is as it was. */
  lemma {:induction false} StackBelow(args: seq<OutArg>, k: nat, regmap: PrepareMap, f: Frame, s: State)
    requires k <= |args| && Numbered(args)
    ensures EarlierOnStack(KindsOf(args), k) <= EarlierOnStack(KindsOf(args), |args|)
    ensures var n := EarlierOnStack(KindsOf(args), |args|) - EarlierOnStack(KindsOf(args), k);
            OnTopOf(After(args, k, regmap, f, s).stack, n, s.stack)
    decreases |args| - k
  {
    hide ValueOf, Numbered, Passed, ByRegister, Overflows;
    if k < |args| {
      StackBelow(args, k + 1, regmap, f, s);
      OverflowsByNumber(args, k);
      PassedStack(args[k], Read(args, k, regmap, f, s), After(args, k + 1, regmap, f, s));
      assert EarlierOnStack(KindsOf(args), k + 1) == EarlierOnStack(KindsOf(args), k) + if ByRegister(args[k]) then 0 else 1;
    }
  }

  /** A stack with `n` more words. */
  predicate OnTopOf(stack: seq<int>, n: nat, was: seq<int>) {
    |stack| == n + |was| && stack[n..] == was
  }

  lemma PassedStack(arg: OutArg, value: int, s: State)
    ensures Passed(arg, value, s).stack == (if ByRegister(arg) then [] else [value]) + s.stack
  {
  }

  // ----- What passing leaves alone -----

  /** No argument of this kind is passed in register `r`. */
  predicate Untouched(args: seq<OutArg>, kind: Kind, r: nat) {
    forall j :: 0 <= j < |args| && args[j].kind == kind && ByRegister(args[j]) ==> ArgRegs(kind)[args[j].argPos] != r
  }

  /** No argument comes from a register another one is passed in: what `PREPARE` sees to. */
  predicate SourcesSafe(args: seq<OutArg>, regmap: PrepareMap) {
    forall i :: 0 <= i < |args| && args[i].source.Var? && args[i].source.reg in regmap ==>
                  Untouched(args, args[i].kind, regmap[args[i].source.reg])
  }

  predicate FromRax(arg: OutArg, regmap: PrepareMap) {
    arg.kind == Gp && arg.source.Var? && arg.source.reg in regmap && regmap[arg.source.reg] == RAX
  }

  /** An argument in %rax comes before one that is moved through %rax. */
  predicate Clobbered(args: seq<OutArg>, regmap: PrepareMap) {
    exists k, j :: 0 <= k < j < |args| && FromRax(args[k], regmap) && ThroughRax(args[j])
  }

  lemma {:induction false} FirstOfKind(args: seq<OutArg>, n: nat, kind: Kind) returns (i: nat)
    requires n <= |args| && Numbered(args) && Earlier(KindsOf(args), n, kind) > 0
    ensures i < |args| && args[i].kind == kind && args[i].argPos == 0
  {
    assert NumberedAt(args, n - 1);
    if Earlier(KindsOf(args), n - 1, kind) > 0 {
      i := FirstOfKind(args, n - 1, kind);
    } else {
      i := n - 1;
    }
  }

  /** A register no argument is passed in is not the scratch register either. */
  lemma NotScratch(args: seq<OutArg>, r: nat, j: nat)
    requires Numbered(args) && j < |args| && ThroughXmm0(args[j]) && Untouched(args, Fp, r)
    ensures r != 0
  {
    assert NumberedAt(args, j);
    var i := FirstOfKind(args, j, Fp);
    assert ByRegister(args[i]);
  }

  lemma {:induction false} RegisterKept(args: seq<OutArg>, k: nat, regmap: PrepareMap, f: Frame, s: State, kind: Kind, r: nat)
    requires k <= |args| && Numbered(args) && Untouched(args, kind, r)
    requires kind == Gp && r == RAX ==> forall j :: k <= j < |args| ==> !ThroughRax(args[j])
    ensures Get(Regs(After(args, k, regmap, f, s), kind), r) == Get(Regs(s, kind), r)
    decreases |args| - k
  {
    hide ValueOf;
    if k < |args| {
      RegisterKept(args, k + 1, regmap, f, s, kind, r);
      if kind == Fp && ThroughXmm0(args[k]) {
        NotScratch(args, r, k);
      }
    }
  }

  /** The value read for an argument is its value, unless %rax was used in between. */
  lemma ReadIsValue(args: seq<OutArg>, k: nat, regmap: PrepareMap, f: Frame, s: State)
    requires k < |args| && Numbered(args) && SourcesSafe(args, regmap)
    requires FromRax(args[k], regmap) ==> forall j :: k < j < |args| ==> !ThroughRax(args[j])
    ensures Read(args, k, regmap, f, s) == ValueOf(args[k], regmap, f, s)
  {
    hide After, Untouched;
    var arg := args[k];
    if arg.source.Var? && arg.source.reg in regmap {
      RegisterKept(args, k + 1, regmap, f, s, arg.kind, regmap[arg.source.reg]);
    }
  }

  // ----- The whole call -----

  function GpArgs(args: seq<OutArg>): nat {
    Earlier(KindsOf(args), |args|, Gp)
  }

  function FpArgs(args: seq<OutArg>): nat {
    Earlier(KindsOf(args), |args|, Fp)
  }

  /** The padding that aligns the stack to 16 bytes at the call. */
  function Correction(args: seq<OutArg>, pushCount: nat, hasProlog: bool): nat {
    var pushed := pushCount + Excess(GpArgs(args), |GP_ARG_REGS|) + Excess(FpArgs(args), |FP_ARG_REGS|);
    if pushed % 2 == (if hasProlog then 1 else 0) then WORD else 0
  }

  function InXmm(args: seq<OutArg>): nat {
    if FpArgs(args) < |FP_ARG_REGS| then FpArgs(args) else |FP_ARG_REGS|
  }

  function Arguments(args: seq<OutArg>, regmap: PrepareMap, f: Frame, correction: nat): seq<Insn> {
    (if correction > 0 then [SubRsp] else []) + CodeFrom(args, 0, regmap, f) + [ImmGp(RAX, InXmm(args))]
  }

  /** The state at the call instruction. */
  function AtCall(args: seq<OutArg>, regmap: PrepareMap, f: Frame, correction: nat, s: State): State {
    Run(Arguments(args, regmap, f, correction), f, s)
  }

  /** How many arguments are in floating-point registers, which the called function is
      told in %al (System V AMD64 ABI, section 3.5.7). */
  function InFpRegs(args: seq<OutArg>, n: nat): nat
    requires n <= |args|
  {
    if n == 0 then 0 else InFpRegs(args, n - 1) + if args[n - 1].kind == Fp && ByRegister(args[n - 1]) then 1 else 0
  }

  lemma {:induction false} FpRegsCounted(args: seq<OutArg>, n: nat)
    requires n <= |args| && Numbered(args)
    ensures InFpRegs(args, n) == var fp := Earlier(KindsOf(args), n, Fp); if fp < 8 then fp else 8
  {
    hide KindsOf;
    if n > 0 {
      FpRegsCounted(args, n - 1);
      assert NumberedAt(args, n - 1);
    }
  }

  lemma RaxTells(args: seq<OutArg>, regmap: PrepareMap, f: Frame, correction: nat, s: State)
    requires Numbered(args) && Ready(s)
    ensures Get(AtCall(args, regmap, f, correction, s).gp, RAX) == InFpRegs(args, |args|)
  {
    hide After, KindsOf, Numbered, AtCall;
    AtCallIs(args, regmap, f, correction, s);
    AfterReady(args, 0, regmap, f, Padded(s, correction));
    FpRegsCounted(args, |args|);
  }

  function Padded(s: State, correction: nat): State {
    if correction > 0 then s.(stack := [0] + s.stack) else s
  }

  lemma AtCallIs(args: seq<OutArg>, regmap: PrepareMap, f: Frame, correction: nat, s: State)
    requires Numbered(args) && Ready(s)
    ensures var t := After(args, 0, regmap, f, Padded(s, correction));
            AtCall(args, regmap, f, correction, s) == t.(gp := Set(t.gp, RAX, InXmm(args)))
  {
    hide After, CodeFrom, Run;
    var pad: seq<Insn> := if correction > 0 then [SubRsp] else [];
    var last := ImmGp(RAX, InXmm(args));
    RunNone(f, s);
    RunOne(SubRsp, f, s);
    RunAppend(pad, CodeFrom(args, 0, regmap, f), f, s);
    CodeRuns(args, 0, regmap, f, Padded(s, correction));
    RunAppend(pad + CodeFrom(args, 0, regmap, f), [last], f, s);
    RunOne(last, f, After(args, 0, regmap, f, Padded(s, correction)));
  }

  /** What the called function finds at a location, once the return address and the
      frame pointer are pushed. */
  predicate Finds(s: State, kind: Kind, location: Location, value: int) {
    match location
    case InReg(id) => Get(Regs(s, kind), id) == value
    case OnStack(offset) =>
      && offset % WORD == 0 && 2 <= offset / WORD < 2 + |s.stack|
      && s.stack[offset / WORD - 2] == value
  }

  /** The called function finds the value read for each argument in the argument's place. */
  lemma FoundInPlace(args: seq<OutArg>, i: nat, regmap: PrepareMap, f: Frame, correction: nat, s: State)
    requires i < |args| && Numbered(args) && Ready(s)
    ensures Finds(AtCall(args, regmap, f, correction, s), args[i].kind, Place(KindsOf(args), i),
                  Read(args, i, regmap, f, Padded(s, correction)))
  {
    hide After, Read, AtCall, ByRegister;
    AtCallIs(args, regmap, f, correction, s);
    Lands(args, 0, i, regmap, f, Padded(s, correction));
    OverflowsByNumber(args, i);
    HeldIsFound(args, i, After(args, 0, regmap, f, Padded(s, correction)), Read(args, i, regmap, f, Padded(s, correction)),
                InXmm(args));
  }

  lemma {:induction false} HeldIsFound(args: seq<OutArg>, i: nat, s: State, value: int, count: nat)
    requires i < |args| && Numbered(args)
    requires Holds(s, args[i], EarlierOnStack(KindsOf(args), i), value)
    ensures Finds(s.(gp := Set(s.gp, RAX, count)), args[i].kind, Place(KindsOf(args), i), value)
  {
    hide EarlierOnStack, Earlier, Overflows;
    OverflowsByNumber(args, i);
    assert NumberedAt(args, i);
    var kind := args[i].kind;
    if ByRegister(args[i]) {
      ArgRegsAreOthers(args[i]);
      assert Place(KindsOf(args), i) == InReg(ArgRegs(kind)[args[i].argPos]);
    } else {
      assert Place(KindsOf(args), i) == OnStack(2 * WORD + WORD * EarlierOnStack(KindsOf(args), i));
    }
  }

  lemma ArgRegsAreOthers(arg: OutArg)
    requires ByRegister(arg)
    ensures arg.kind == Gp ==> ArgRegs(Gp)[arg.argPos] != RAX
  {
  }

  /** In state `t` the called function finds what the arguments were worth in state `s`. */
  predicate ArriveIn(args: seq<OutArg>, regmap: PrepareMap, f: Frame, s: State, t: State) {
    forall i :: 0 <= i < |args| ==> Finds(t, args[i].kind, Place(KindsOf(args), i), ValueOf(args[i], regmap, f, s))
  }

  predicate AllArrive(args: seq<OutArg>, regmap: PrepareMap, f: Frame, correction: nat, s: State) {
    ArriveIn(args, regmap, f, s, AtCall(args, regmap, f, correction, s))
  }

  lemma ArgumentsArrive(args: seq<OutArg>, regmap: PrepareMap, f: Frame, correction: nat, s: State)
    requires Numbered(args) && SourcesSafe(args, regmap) && !Clobbered(args, regmap) && Ready(s)
    ensures AllArrive(args, regmap, f, correction, s)
  {
    hide Read, AtCall, Finds, SourcesSafe, Numbered;
    forall i | 0 <= i < |args|
      ensures Finds(AtCall(args, regmap, f, correction, s), args[i].kind, Place(KindsOf(args), i),
                    ValueOf(args[i], regmap, f, s))
    {
      FoundInPlace(args, i, regmap, f, correction, s);
      ReadIsValue(args, i, regmap, f, Padded(s, correction));
    }
  }

  /** Between an argument from %rax and the next one moved through %rax. */
  lemma FirstUse(args: seq<OutArg>, k: nat, j: nat) returns (first: nat)
    requires k < j < |args| && ThroughRax(args[j])
    ensures k < first < |args| && ThroughRax(args[first])
    ensures forall i :: k < i < first ==> !ThroughRax(args[i])
  {
    first := k + 1;
    while !ThroughRax(args[first])
      invariant k < first <= j
      invariant forall i :: k < i < first ==> !ThroughRax(args[i])
      decreases j - first
    {
      first := first + 1;
    }
  }

  function ImmediateOf(arg: OutArg, f: Frame): int
    requires arg.source.Imm?
  {
    Sized(f, arg.single, arg.source.value)
  }

  /** After an argument moved through %rax, its value is there until the next use. */
  lemma {:induction false} RaxHolds(args: seq<OutArg>, k: nat, first: nat, regmap: PrepareMap, f: Frame, s: State)
    requires k <= first < |args| && ThroughRax(args[first]) && Ready(s)
    requires forall i :: k <= i < first ==> !ThroughRax(args[i])
    ensures Get(After(args, k, regmap, f, s).gp, RAX) == ImmediateOf(args[first], f)
    decreases first - k
  {
    AfterReady(args, k + 1, regmap, f, s);
    if k < first {
      RaxHolds(args, k + 1, first, regmap, f, s);
    }
  }

  /** When %rax is used in between, some contents of it do not arrive. */
  lemma ClobberedIsLost(args: seq<OutArg>, regmap: PrepareMap, f: Frame, correction: nat) returns (s: State)
    requires Numbered(args) && Clobbered(args, regmap)
    ensures Ready(s) && !AllArrive(args, regmap, f, correction, s)
  {
    var k, j :| 0 <= k < j < |args| && FromRax(args[k], regmap) && ThroughRax(args[j]);
    var first := FirstUse(args, k, j);
    var other := ImmediateOf(args[first], f) + 1;
    s := State(seq(16, i => other), seq(16, i => 0), []);
    RaxHolds(args, k + 1, first, regmap, f, Padded(s, correction));
    FoundInPlace(args, k, regmap, f, correction, s);
    LostIsNotFound(args, k, regmap, f, correction, s, other);
  }

  lemma {:induction false} LostIsNotFound(args: seq<OutArg>, k: nat, regmap: PrepareMap, f: Frame, correction: nat, s: State, other: int)
    requires k < |args| && Numbered(args) && FromRax(args[k], regmap) && Ready(s) && s.gp[RAX] == other
    requires Get(After(args, k + 1, regmap, f, Padded(s, correction)).gp, RAX) != other
    requires Finds(AtCall(args, regmap, f, correction, s), args[k].kind, Place(KindsOf(args), k),
                   Read(args, k, regmap, f, Padded(s, correction)))
    ensures !AllArrive(args, regmap, f, correction, s)
  {
    hide After, AtCall, Place;
    assert NumberedAt(args, k);
    assert ValueOf(args[k], regmap, f, s) == other;
    assert Read(args, k, regmap, f, Padded(s, correction)) != other;
  }

  /** The arguments arrive from every state exactly when no argument in %rax comes
      before one moved through %rax. */
  lemma CallPasses(args: seq<OutArg>, regmap: PrepareMap, f: Frame, correction: nat)
    requires Numbered(args) && SourcesSafe(args, regmap)
    ensures (forall s :: Ready(s) ==> AllArrive(args, regmap, f, correction, s)) <==> !Clobbered(args, regmap)
  {
    hide AllArrive, Clobbered, Numbered, SourcesSafe;
    if Clobbered(args, regmap) {
      var s := ClobberedIsLost(args, regmap, f, correction);
    } else {
      forall s | Ready(s)
        ensures AllArrive(args, regmap, f, correction, s)
      {
        ArgumentsArrive(args, regmap, f, correction, s);
      }
    }
  }

  // ----- Emitting -----

  /** `emit_arguments`. */
  method EmitArguments(prepared: PreparedArgs, regmap: PrepareMap, f: Frame, pushCount: nat, hasProlog: bool)
    returns (code: seq<Insn>, correction: nat)
    requires prepared.Valid() && prepared.ready == prepared.count
    ensures correction == Correction(prepared.args[..], pushCount, hasProlog)
    ensures code == Arguments(prepared.args[..], regmap, f, correction)
  {
    hide EmitArg, KindsOf, Numbered;
    var args := prepared.args;
    assert args[..prepared.ready] == args[..];
    code, correction := [], 0;
    var gpPushed := Excess(prepared.gpArgs, |GP_ARG_REGS|);
    var fpPushed := Excess(prepared.fpArgs, |FP_ARG_REGS|);
    if hasProlog {
      if (pushCount + gpPushed + fpPushed) % 2 == 1 {
        code, correction := code + [SubRsp], 8;
      }
    } else {
      if (pushCount + gpPushed + fpPushed) % 2 == 0 {
        code, correction := code + [SubRsp], 8;
      }
    }
    ghost var pad := code;
    for x := prepared.count downto 0
      invariant code == pad + CodeFrom(args[..], x, regmap, f)
    {
      code := code + EmitArg(args[x], regmap, f);
    }
    var fpRegArgCnt := if prepared.fpArgs < |FP_ARG_REGS| then prepared.fpArgs else |FP_ARG_REGS|;
    code := code + [ImmGp(RAX, fpRegArgCnt)];
  }

  /** `emit_funcall`: the code before the call instruction, that instruction, and the
      bytes popped after it.  They are the bytes pushed, and they leave the stack
      aligned; the call goes where it is meant to, and finds its arguments if they
      arrive. */
  method EmitFuncall(prepared: PreparedArgs, callee: Callee, regmap: PrepareMap, callMap: PrepareMap, f: Frame,
                     pushCount: nat, hasProlog: bool)
    returns (code: seq<Insn>, call: CallInsn, popped: nat)
    requires prepared.Valid() && prepared.ready == prepared.count
    ensures popped % WORD == 0 && (pushCount + popped / WORD) % 2 == if hasProlog then 0 else 1
    ensures forall s :: Ready(s) ==> Restores(code, f, s, popped / WORD)
    ensures CalleeSafe(prepared.args[..], callMap, callee) ==>
      forall s :: Ready(s) ==> GoalOf(call, f, Run(code, f, s)) == MeantGoal(callee, callMap, f, s)
    ensures SourcesSafe(prepared.args[..], regmap) && !Clobbered(prepared.args[..], regmap) ==>
      forall s :: Ready(s) ==> ArriveIn(prepared.args[..], regmap, f, s, Run(code, f, s))
  {
    hide Arguments, Restores, KindsOf, Numbered, Earlier, EarlierOnStack, Run, CalleeSafe, SourcesSafe, Clobbered, ArriveIn, GoalOf, MeantGoal;
    var correction: nat;
    code, correction := EmitArguments(prepared, regmap, f, pushCount, hasProlog);
    ghost var args := prepared.args[..];
    assert prepared.args[..prepared.ready] == args;
    popped := correction + prepared.stackSize;
    ExcessIsOnStack(KindsOf(args), |args|);
    match callee {
      case Pointer(v) => call := if v in callMap then CallGp(callMap[v]) else CallSlot(v);
      case Label(position) => call := CallNear(position);
      case Address(value) => code, call := code + [ImmGp(R11, value)], CallGp(R11);
    }
    assert code == Arguments(args, regmap, f, correction) + ToR11(callee) && call == CallFor(callee, callMap);
    forall s | Ready(s)
      ensures Restores(code, f, s, popped / WORD)
      ensures CalleeSafe(args, callMap, callee) ==> GoalOf(call, f, Run(code, f, s)) == MeantGoal(callee, callMap, f, s)
      ensures SourcesSafe(args, regmap) && !Clobbered(args, regmap) ==> ArriveIn(args, regmap, f, s, Run(code, f, s))
    {
      CallBalances(args, regmap, f, correction, callee, s);
      if CalleeSafe(args, callMap, callee) {
        CallGoes(args, regmap, f, correction, callee, callMap, s);
      }
      if SourcesSafe(args, regmap) && !Clobbered(args, regmap) {
        CalledFinds(args, regmap, f, correction, callee, s);
      }
    }
  }

  // ----- The call -----

  const R11: nat := 11

  /** What is called: a function whose address is in a virtual register, a label of this
      code, or a function elsewhere. */
  datatype Callee = Pointer(reg: VReg) | Label(position: nat) | Address(value: int)

  datatype CallInsn = CallGp(rs: nat) | CallSlot(reg: VReg) | CallNear(position: nat)

  datatype Goal = AtLabel(position: nat) | AtAddress(value: int)

  /** An address elsewhere goes through %r11. */
  function ToR11(callee: Callee): seq<Insn> {
    match callee
    case Address(value) => [ImmGp(R11, value)]
    case _ => []
  }

  function CallFor(callee: Callee, callMap: PrepareMap): CallInsn {
    match callee
    case Pointer(v) => if v in callMap then CallGp(callMap[v]) else CallSlot(v)
    case Label(position) => CallNear(position)
    case Address(value) => CallGp(R11)
  }

  /** Where a call instruction goes. */
  function GoalOf(call: CallInsn, f: Frame, s: State): Goal {
    match call
    case CallGp(rs) => AtAddress(Get(s.gp, rs))
    case CallSlot(reg) => AtAddress(f.slots(reg))
    case CallNear(position) => AtLabel(position)
  }

  /** What is called, in the state before the arguments are passed. */
  function MeantGoal(callee: Callee, callMap: PrepareMap, f: Frame, s: State): Goal {
    match callee
    case Pointer(v) => AtAddress(if v in callMap then Get(s.gp, callMap[v]) else f.slots(v))
    case Label(position) => AtLabel(position)
    case Address(value) => AtAddress(value)
  }

  /** The register with the called address is not written on the way. */
  predicate CalleeSafe(args: seq<OutArg>, callMap: PrepareMap, callee: Callee) {
    callee.Pointer? && callee.reg in callMap ==> callMap[callee.reg] != RAX && Untouched(args, Gp, callMap[callee.reg])
  }

  function Reached(args: seq<OutArg>, regmap: PrepareMap, f: Frame, correction: nat, callee: Callee, s: State): State {
    Run(Arguments(args, regmap, f, correction) + ToR11(callee), f, s)
  }

  lemma ReachedIs(args: seq<OutArg>, regmap: PrepareMap, f: Frame, correction: nat, callee: Callee, s: State)
    ensures var t := AtCall(args, regmap, f, correction, s);
      Reached(args, regmap, f, correction, callee, s) == if callee.Address? then t.(gp := Set(t.gp, R11, callee.value)) else t
  {
    hide Arguments, Run;
    RunAppend(Arguments(args, regmap, f, correction), ToR11(callee), f, s);
    if callee.Address? {
      RunOne(ImmGp(R11, callee.value), f, AtCall(args, regmap, f, correction, s));
    } else {
      RunNone(f, AtCall(args, regmap, f, correction, s));
    }
  }

  lemma CallGoes(args: seq<OutArg>, regmap: PrepareMap, f: Frame, correction: nat, callee: Callee, callMap: PrepareMap, s: State)
    requires Numbered(args) && CalleeSafe(args, callMap, callee) && Ready(s)
    ensures GoalOf(CallFor(callee, callMap), f, Reached(args, regmap, f, correction, callee, s)) == MeantGoal(callee, callMap, f, s)
  {
    hide AtCall, Reached, After, Numbered, Untouched;
    ReachedIs(args, regmap, f, correction, callee, s);
    AtCallIs(args, regmap, f, correction, s);
    AfterReady(args, 0, regmap, f, Padded(s, correction));
    if callee.Pointer? && callee.reg in callMap {
      RegisterKept(args, 0, regmap, f, Padded(s, correction), Gp, callMap[callee.reg]);
    }
  }

  lemma CalledFinds(args: seq<OutArg>, regmap: PrepareMap, f: Frame, correction: nat, callee: Callee, s: State)
    requires Numbered(args) && SourcesSafe(args, regmap) && !Clobbered(args, regmap) && Ready(s)
    ensures ArriveIn(args, regmap, f, s, Reached(args, regmap, f, correction, callee, s))
  {
    hide AtCall, Reached, Finds, Place, ValueOf, KindsOf, Numbered, SourcesSafe, Clobbered;
    ReachedIs(args, regmap, f, correction, callee, s);
    ArgumentsArrive(args, regmap, f, correction, s);
    forall i | 0 <= i < |args|
      ensures Finds(Reached(args, regmap, f, correction, callee, s), args[i].kind, Place(KindsOf(args), i), ValueOf(args[i], regmap, f, s))
    {
      R11Aside(AtCall(args, regmap, f, correction, s), KindsOf(args), i, ValueOf(args[i], regmap, f, s), callee);
    }
  }

  /** No argument is passed in %r11. */
  lemma R11Aside(t: State, kinds: seq<Kind>, i: nat, value: int, callee: Callee)
    requires i < |kinds| && Finds(t, kinds[i], Place(kinds, i), value)
    ensures callee.Address? ==> Finds(t.(gp := Set(t.gp, R11, callee.value)), kinds[i], Place(kinds, i), value)
  {
    hide Earlier, EarlierOnStack;
    assert forall q :: 0 <= q < |GP_ARG_REGS| ==> GP_ARG_REGS[q] != R11;
  }

  /** Running the code pushes `words` words onto the stack and changes nothing below. */
  predicate Restores(code: seq<Insn>, f: Frame, s: State, words: nat) {
    OnTopOf(Run(code, f, s).stack, words, s.stack)
  }

  lemma {:induction false} CallBalances(args: seq<OutArg>, regmap: PrepareMap, f: Frame, correction: nat, callee: Callee, s: State)
    requires Numbered(args) && Ready(s) && (correction == 0 || correction == WORD)
    ensures Restores(Arguments(args, regmap, f, correction) + ToR11(callee), f, s,
                     correction / WORD + EarlierOnStack(KindsOf(args), |args|))
  {
    hide After, Arguments, KindsOf, Overflows, Numbered, AtCall;
    ReachedIs(args, regmap, f, correction, callee, s);
    AtCallIs(args, regmap, f, correction, s);
    StackBelow(args, 0, regmap, f, Padded(s, correction));
  }
}
