/** Registers kept across a call on AMD64: `emit_push_caller_saved_regs` at the PREPARE
    and `emit_pop_caller_saved_regs` behind the call (`myjit/common86-specific.h`),
    against what the machine of the allocation theorem says survives a call. */
module Amd64Save {
  import opened Ops
  import opened RegMap
  import opened Amd64Args
  import Machine

  // ----- The machine -----

  datatype Reg = Reg(kind: Kind, id: int)

  /** Offsets are from the stack pointer, in bytes. */
  datatype Insn = Store(r: Reg, offset: int) | Load(r: Reg, offset: int) | MoveSp(bytes: int)

  /** `mem` gives the word at an address. */
  datatype State = State(regs: Reg -> int, mem: int -> int, sp: int)

  function Put<K(==)>(f: K -> int, k: K, value: int): K -> int {
    x => if x == k then value else f(x)
  }

  function Step(i: Insn, s: State): State {
    match i
    case Store(r, offset) => s.(mem := Put(s.mem, s.sp + offset, s.regs(r)))
    case Load(r, offset) => s.(regs := Put(s.regs, r, s.mem(s.sp + offset)))
    case MoveSp(bytes) => s.(sp := s.sp + bytes)
  }

  function Run(code: seq<Insn>, s: State): State {
    if code == [] then s else Step(code[|code| - 1], Run(code[..|code| - 1], s))
  }

  // ----- The code -----

  /** A register is pushed when a call does not keep it and it holds what is live at the CALL. */
  predicate IsPushed(r: HwReg, skip: int, m: Rmap, liveIn: set<int>) {
    r.id != skip && !r.calleeSaved && exists v :: v in m && v in liveIn && m[v] == r.id
  }

  /** Those among the first `n` registers of a file, in order. */
  function PushedOf(kind: Kind, regs: seq<HwReg>, skip: int, m: Rmap, liveIn: set<int>, n: nat): seq<Reg>
    requires n <= |regs|
  {
    if n == 0 then []
    else
      var rs := PushedOf(kind, regs, skip, m, liveIn, n - 1);
      if IsPushed(regs[n - 1], skip, m, liveIn) then rs + [Reg(kind, regs[n - 1].id)] else rs
  }

  /** Stores below the stack pointer, under `first` words. */
  function Stores(rs: seq<Reg>, first: nat): seq<Insn> {
    if rs == [] then [] else Stores(rs[..|rs| - 1], first) + [Store(rs[|rs| - 1], -(WORD * (first + |rs|)))]
  }

  /** Loads from above the stack pointer, the last register first. */
  function Loads(rs: seq<Reg>, first: nat): seq<Insn> {
    if rs == [] then [] else [Load(rs[|rs| - 1], WORD * first)] + Loads(rs[..|rs| - 1], first + 1)
  }

  function Moved(bytes: int): seq<Insn> {
    if bytes == 0 then [] else [MoveSp(bytes)]
  }

  function PushCode(rs: seq<Reg>): seq<Insn> {
    Stores(rs, 0) + Moved(-(WORD * |rs|))
  }

  function PopCode(rs: seq<Reg>): seq<Insn> {
    Loads(rs, 0) + Moved(WORD * |rs|)
  }

  /** `rmap_is_associated` and the liveness test. */
  lemma HeldIsPushed(r: HwReg, skip: int, m: Rmap, liveIn: set<int>)
    requires r.id != skip && !r.calleeSaved
    ensures IsPushed(r, skip, m, liveIn) <==> var v := IsAssociated(m, r.id); v.Some? && v.value in liveIn
  {
  }

  /** `generic_push_caller_saved_regs`. */
  method GenericPush(kind: Kind, regs: seq<HwReg>, skip: int, m: Rmap, liveIn: set<int>, first: nat) returns (code: seq<Insn>, stackOffset: nat)
    ensures var rs := PushedOf(kind, regs, skip, m, liveIn, |regs|);
      code == Stores(rs, first) && stackOffset == WORD * (first + |rs|)
  {
    hide IsPushed;
    code, stackOffset := [], WORD * first;
    for i := 0 to |regs|
      invariant var rs := PushedOf(kind, regs, skip, m, liveIn, i);
        code == Stores(rs, first) && stackOffset == WORD * (first + |rs|)
    {
      ghost var rs := PushedOf(kind, regs, skip, m, liveIn, i);
      if regs[i].id == skip || regs[i].calleeSaved {
        SkippedIsNotPushed(regs[i], skip, m, liveIn);
      } else {
        HeldIsPushed(regs[i], skip, m, liveIn);
        var v := IsAssociated(m, regs[i].id);
        if v.Some? && v.value in liveIn {
          stackOffset := stackOffset + WORD;
          code := code + [Store(Reg(kind, regs[i].id), 0 - stackOffset)];
          assert (rs + [Reg(kind, regs[i].id)])[..|rs|] == rs;
        }
      }
    }
  }

  lemma SkippedIsNotPushed(r: HwReg, skip: int, m: Rmap, liveIn: set<int>)
    requires r.id == skip || r.calleeSaved
    ensures !IsPushed(r, skip, m, liveIn)
  {
  }

  /** `generic_pop_caller_saved_regs`: the same registers, from the last one down. */
  method GenericPop(kind: Kind, regs: seq<HwReg>, skip: int, m: Rmap, liveIn: set<int>, first: nat) returns (code: seq<Insn>, stackOffset: nat)
    ensures var rs := PushedOf(kind, regs, skip, m, liveIn, |regs|);
      code == Loads(rs, first) && stackOffset == WORD * (first + |rs|)
  {
    hide IsPushed;
    code, stackOffset := [], WORD * first;
    ghost var rs := PushedOf(kind, regs, skip, m, liveIn, |regs|);
    ghost var count := first;
    for i := |regs| downto 0
      invariant stackOffset == WORD * count && count + |PushedOf(kind, regs, skip, m, liveIn, i)| == first + |rs|
      invariant code + Loads(PushedOf(kind, regs, skip, m, liveIn, i), count) == Loads(rs, first)
    {
      ghost var left, upTo := PushedOf(kind, regs, skip, m, liveIn, i), PushedOf(kind, regs, skip, m, liveIn, i + 1);
      if regs[i].id == skip || regs[i].calleeSaved {
        SkippedIsNotPushed(regs[i], skip, m, liveIn);
      } else {
        HeldIsPushed(regs[i], skip, m, liveIn);
        var v := IsAssociated(m, regs[i].id);
        if v.Some? && v.value in liveIn {
          assert upTo == left + [Reg(kind, regs[i].id)] && upTo[..|left|] == left;
          assert Loads(upTo, count) == [Load(Reg(kind, regs[i].id), WORD * count)] + Loads(left, count + 1);
          var load := Load(Reg(kind, regs[i].id), stackOffset);
          assert code + ([load] + Loads(left, count + 1)) == (code + [load]) + Loads(left, count + 1);
          code := code + [load];
          stackOffset, count := stackOffset + WORD, count + 1;
        }
      }
    }
  }

  /** What the CALL knows: both register files, the registers results come in, both maps,
      and what is live. */
  datatype Saves = Saves(gp: seq<HwReg>, fp: seq<HwReg>, ret: int, fpret: int, gpMap: Rmap, fpMap: Rmap, liveIn: set<int>)
  {
    function Regs(): seq<Reg> {
      PushedOf(Gp, gp, ret, gpMap, liveIn, |gp|) + PushedOf(Fp, fp, fpret, fpMap, liveIn, |fp|)
    }
  }

  lemma {:induction false} StoresAppend(a: seq<Reg>, b: seq<Reg>, first: nat)
    ensures Stores(a, first) + Stores(b, first + |a|) == Stores(a + b, first)
  {
    if b == [] {
      assert a + b == a;
    } else {
      assert (a + b)[..|a + b| - 1] == a + b[..|b| - 1];
      StoresAppend(a, b[..|b| - 1], first);
    }
  }

  lemma {:induction false} LoadsAppend(a: seq<Reg>, b: seq<Reg>, first: nat)
    ensures Loads(b, first) + Loads(a, first + |b|) == Loads(a + b, first)
    decreases |b|
  {
    if b == [] {
      assert a + b == a;
    } else {
      assert (a + b)[..|a + b| - 1] == a + b[..|b| - 1];
      LoadsAppend(a, b[..|b| - 1], first + 1);
    }
  }

  /** `emit_push_caller_saved_regs`. */
  method EmitPushCallerSaved(x: Saves) returns (code: seq<Insn>, count: nat)
    ensures code == PushCode(x.Regs()) && count == |x.Regs()|
  {
    hide Stores, PushedOf;
    var gpCode, gpOffset := GenericPush(Gp, x.gp, x.ret, x.gpMap, x.liveIn, 0);
    var fpCode, offset := GenericPush(Fp, x.fp, x.fpret, x.fpMap, x.liveIn, gpOffset / WORD);
    StoresAppend(PushedOf(Gp, x.gp, x.ret, x.gpMap, x.liveIn, |x.gp|), PushedOf(Fp, x.fp, x.fpret, x.fpMap, x.liveIn, |x.fp|), 0);
    code := gpCode + fpCode;
    if offset != 0 {
      code := code + [MoveSp(0 - offset)];
    }
    count := offset / WORD;
  }

  /** `emit_pop_caller_saved_regs`. */
  method EmitPopCallerSaved(x: Saves) returns (code: seq<Insn>, count: nat)
    ensures code == PopCode(x.Regs()) && count == |x.Regs()|
  {
    hide Loads, PushedOf;
    var fpCode, fpOffset := GenericPop(Fp, x.fp, x.fpret, x.fpMap, x.liveIn, 0);
    var gpCode, offset := GenericPop(Gp, x.gp, x.ret, x.gpMap, x.liveIn, fpOffset / WORD);
    LoadsAppend(PushedOf(Gp, x.gp, x.ret, x.gpMap, x.liveIn, |x.gp|), PushedOf(Fp, x.fp, x.fpret, x.fpMap, x.liveIn, |x.fp|), 0);
    code := fpCode + gpCode;
    if offset != 0 {
      code := code + [MoveSp(offset)];
    }
    count := offset / WORD;
  }

  // ----- What it does -----

  predicate Distinct(rs: seq<Reg>) {
    forall i, j :: 0 <= i < j < |rs| ==> rs[i] != rs[j]
  }

  lemma {:induction false} RunStores(rs: seq<Reg>, s: State)
    ensures var t := Run(Stores(rs, 0), s);
      && t.regs == s.regs && t.sp == s.sp && (forall a :: a >= s.sp ==> t.mem(a) == s.mem(a))
      && forall j :: 0 <= j < |rs| ==> t.mem(s.sp - WORD * (j + 1)) == s.regs(rs[j])
  {
    if rs != [] {
      var less := rs[..|rs| - 1];
      RunStores(less, s);
      var code := Stores(rs, 0);
      assert code[..|code| - 1] == Stores(less, 0);
      forall j | 0 <= j < |less|
        ensures less[j] == rs[j]
      {
      }
    }
  }

  lemma {:induction false} RunAppend(a: seq<Insn>, b: seq<Insn>, s: State)
    ensures Run(a + b, s) == Run(b, Run(a, s))
    decreases |b|
  {
    hide Step;
    if b == [] {
      assert a + b == a;
    } else {
      assert (a + b)[..|a + b| - 1] == a + b[..|b| - 1];
      RunAppend(a, b[..|b| - 1], s);
    }
  }

  lemma RunOne(i: Insn, s: State)
    ensures Run([i], s) == Step(i, s)
  {
    assert [i][..0] == [];
  }

  /** Register j of rs is loaded from the word its store went to. */
  lemma {:induction false} RunLoads(rs: seq<Reg>, first: nat, s: State)
    requires Distinct(rs)
    ensures var t := Run(Loads(rs, first), s);
      && t.sp == s.sp && t.mem == s.mem && (forall r :: r !in rs ==> t.regs(r) == s.regs(r))
      && forall j :: 0 <= j < |rs| ==> t.regs(rs[j]) == s.mem(s.sp + WORD * (first + |rs| - 1 - j))
    decreases |rs|
  {
    hide Step, Run, Distinct;
    if rs == [] {
      RunNone(s);
    } else {
      var n := |rs| - 1;
      var less, i := rs[..n], Load(rs[n], WORD * first);
      RunAppend([i], Loads(less, first + 1), s);
      RunOne(i, s);
      OneMore(rs);
      RunLoads(less, first + 1, Step(i, s));
      LoadsRest(rs, first, s, Run(Loads(rs, first), s));
    }
  }

  lemma RunNone(s: State)
    ensures Run([], s) == s
  {
  }

  lemma OneMore(rs: seq<Reg>)
    requires rs != [] && Distinct(rs)
    ensures Distinct(rs[..|rs| - 1]) && rs[|rs| - 1] !in rs[..|rs| - 1]
  {
  }

  /** The last register, and then the others. */
  lemma LoadsRest(rs: seq<Reg>, first: nat, s: State, t: State)
    requires rs != [] && rs[|rs| - 1] !in rs[..|rs| - 1]
    requires var n := |rs| - 1; var d := Step(Load(rs[n], WORD * first), s); var less := rs[..n];
      && t.sp == d.sp && t.mem == d.mem && (forall r :: r !in less ==> t.regs(r) == d.regs(r))
      && forall j :: 0 <= j < |less| ==> t.regs(less[j]) == d.mem(d.sp + WORD * (first + 1 + |less| - 1 - j))
    ensures t.sp == s.sp && t.mem == s.mem && (forall r :: r !in rs ==> t.regs(r) == s.regs(r))
    ensures forall j :: 0 <= j < |rs| ==> t.regs(rs[j]) == s.mem(s.sp + WORD * (first + |rs| - 1 - j))
  {
    var less := rs[..|rs| - 1];
    forall j | 0 <= j < |rs|
      ensures t.regs(rs[j]) == s.mem(s.sp + WORD * (first + |rs| - 1 - j))
    {
      if j < |less| {
        assert less[j] == rs[j];
      }
    }
  }

  /** Pushed registers come back, whatever happened to them in between, if the stack
      above them was left alone; nothing else changes. */
  lemma SavedComeBack(rs: seq<Reg>, s: State, u: State)
    requires Distinct(rs)
    requires var t := Run(PushCode(rs), s); u.sp == t.sp && forall a :: a >= t.sp ==> u.mem(a) == t.mem(a)
    ensures var t, w := Run(PushCode(rs), s), Run(PopCode(rs), u);
      && t.regs == s.regs && t.sp == s.sp - WORD * |rs| && (forall a :: a >= s.sp ==> t.mem(a) == s.mem(a))
      && w.sp == s.sp && w.mem == u.mem
      && (forall r :: r in rs ==> w.regs(r) == s.regs(r)) && (forall r :: r !in rs ==> w.regs(r) == u.regs(r))
  {
    hide Stores, Loads;
    RunMoved(Stores(rs, 0), -(WORD * |rs|), s);
    RunMoved(Loads(rs, 0), WORD * |rs|, u);
    RunStores(rs, s);
    RunLoads(rs, 0, u);
    forall r | r in rs
      ensures Run(PopCode(rs), u).regs(r) == s.regs(r)
    {
      var j :| 0 <= j < |rs| && rs[j] == r;
      assert u.sp + WORD * (0 + |rs| - 1 - j) == s.sp - WORD * (j + 1);
    }
  }

  lemma RunMoved(code: seq<Insn>, bytes: int, s: State)
    ensures var t := Run(code, s); Run(code + Moved(bytes), s) == t.(sp := t.sp + bytes)
  {
    RunAppend(code, Moved(bytes), s);
    RunOne(MoveSp(bytes), Run(code, s));
  }

  // ----- What survives a call -----

  lemma {:induction false} PushedIn(kind: Kind, regs: seq<HwReg>, skip: int, m: Rmap, liveIn: set<int>, n: nat)
    requires n <= |regs|
    ensures var rs := PushedOf(kind, regs, skip, m, liveIn, n);
      && (forall r :: r in rs ==> r.kind == kind && exists i :: 0 <= i < n && IsPushed(regs[i], skip, m, liveIn) && regs[i].id == r.id)
      && (forall i :: 0 <= i < n && IsPushed(regs[i], skip, m, liveIn) ==> Reg(kind, regs[i].id) in rs)
  {
    hide IsPushed;
    if n > 0 {
      PushedIn(kind, regs, skip, m, liveIn, n - 1);
    }
  }

  lemma {:induction false} PushedDistinct(kind: Kind, regs: seq<HwReg>, skip: int, m: Rmap, liveIn: set<int>, n: nat)
    requires n <= |regs| && forall i, j :: 0 <= i < j < |regs| ==> regs[i].id != regs[j].id
    ensures Distinct(PushedOf(kind, regs, skip, m, liveIn, n))
  {
    hide IsPushed;
    if n > 0 {
      PushedDistinct(kind, regs, skip, m, liveIn, n - 1);
      PushedIn(kind, regs, skip, m, liveIn, n - 1);
    }
  }

  /** The CALL of the allocated list, as this code sees it. */
  function SavesAt(p: Pool, n: Machine.Node, fp: seq<HwReg>, fpret: int, fpMap: Rmap): Saves
    requires n.Core?
  {
    Saves(p.regs, fp, p.ret.id, fpret, n.rm, fpMap, n.liveIn)
  }

  predicate CalleeSaved(p: Pool, h: int) {
    exists r :: r in p.regs && r.id == h && r.calleeSaved
  }

  /** What survives a call for the allocator is what the called function keeps and what
      is pushed. */
  lemma SurvivorsAreSaved(p: Pool, n: Machine.Node, fp: seq<HwReg>, fpret: int, fpMap: Rmap, h: int)
    requires PoolOk(p) && n.Core? && InPool(p, n.rm) && IsFree(n.rm, p.ret.id)
    ensures Machine.Survives(p, n, h) <==>
      h == p.fpReg || CalleeSaved(p, h) || Reg(Gp, h) in SavesAt(p, n, fp, fpret, fpMap).Regs()
  {
    PushedIn(Gp, p.regs, p.ret.id, n.rm, n.liveIn, |p.regs|);
    PushedIn(Fp, fp, fpret, fpMap, n.liveIn, |fp|);
    hide PushedOf;
  }

  /** After a call that keeps callee-saved registers and the stack, every register the
      allocator counts on holds what it did, and the result is still in its register. */
  lemma CallKeepsSurvivors(p: Pool, n: Machine.Node, fp: seq<HwReg>, fpret: int, fpMap: Rmap, s: State, u: State)
    requires PoolOk(p) && n.Core? && InPool(p, n.rm) && IsFree(n.rm, p.ret.id)
    requires forall i, j :: 0 <= i < j < |fp| ==> fp[i].id != fp[j].id
    requires var t := Run(PushCode(SavesAt(p, n, fp, fpret, fpMap).Regs()), s);
      u.sp == t.sp && forall a :: a >= t.sp ==> u.mem(a) == t.mem(a)
    requires forall h :: h == p.fpReg || CalleeSaved(p, h) ==> u.regs(Reg(Gp, h)) == s.regs(Reg(Gp, h))
    ensures var w := Run(PopCode(SavesAt(p, n, fp, fpret, fpMap).Regs()), u);
      && w.sp == s.sp && w.regs(Reg(Gp, p.ret.id)) == u.regs(Reg(Gp, p.ret.id))
      && forall h :: Machine.Survives(p, n, h) ==> w.regs(Reg(Gp, h)) == s.regs(Reg(Gp, h))
  {
    hide PushedOf, Run, PushCode, PopCode, Machine.Survives, CalleeSaved;
    var rs := SavesAt(p, n, fp, fpret, fpMap).Regs();
    SavesDistinct(p, n, fp, fpret, fpMap);
    SavedComeBack(rs, s, u);
    forall h | Machine.Survives(p, n, h)
      ensures Run(PopCode(rs), u).regs(Reg(Gp, h)) == s.regs(Reg(Gp, h))
    {
      SurvivorsAreSaved(p, n, fp, fpret, fpMap, h);
    }
  }

  lemma SavesDistinct(p: Pool, n: Machine.Node, fp: seq<HwReg>, fpret: int, fpMap: Rmap)
    requires PoolOk(p) && n.Core? && forall i, j :: 0 <= i < j < |fp| ==> fp[i].id != fp[j].id
    ensures var rs := SavesAt(p, n, fp, fpret, fpMap).Regs(); Distinct(rs) && Reg(Gp, p.ret.id) !in rs
  {
    PushedDistinct(Gp, p.regs, p.ret.id, n.rm, n.liveIn, |p.regs|);
    PushedDistinct(Fp, fp, fpret, fpMap, n.liveIn, |fp|);
    PushedIn(Gp, p.regs, p.ret.id, n.rm, n.liveIn, |p.regs|);
    PushedIn(Fp, fp, fpret, fpMap, n.liveIn, |fp|);
    hide PushedOf;
  }
}
