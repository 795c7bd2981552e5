/** A call of the allocated list on AMD64: the machine of the allocation theorem reads
    the called address and all arguments at once; the code that is emitted does the same
    by and by. */
module Amd64Bridge {
  import opened Ops
  import opened Amd64Args
  import opened Amd64Call
  import opened Amd64Prepare
  import Machine
  import RegMap
  import RegAlloc

  /** The arguments put, as `funcall_put_arg` records them. */
  function OutArgOf(k: nat, o: Machine.Operand): OutArg {
    OutArg(Gp, k, match o case InReg(r) => Var(VReg(Gp, r)) case Const(i) => Imm(i), false)
  }

  function OutArgsOf(args: seq<Machine.Operand>): (r: seq<OutArg>)
    ensures |r| == |args| && forall k :: 0 <= k < |args| ==> r[k] == OutArgOf(k, args[k])
  {
    seq(|args|, k requires 0 <= k < |args| => OutArgOf(k, args[k]))
  }

  lemma PutArgsAreNumbered(args: seq<Machine.Operand>)
    ensures Numbered(OutArgsOf(args)) && GpArgs(OutArgsOf(args)) == |args|
  {
    var r := OutArgsOf(args);
    forall k | 0 <= k < |r|
      ensures NumberedAt(r, k)
    {
      CountAllGp(KindsOf(r), k);
    }
    CountAllGp(KindsOf(r), |r|);
  }

  /** The same registers and slots. */
  ghost predicate SameState<M>(s: Machine.Hw<int, M>, f: Frame, t: State) {
    && Ready(t) && (forall h :: 0 <= h < 16 ==> t.gp[h] == s.hw(h)) && (forall v :: f.slots(VReg(Gp, v)) == s.slot(v))
  }

  lemma InPoolInFile(p: RegMap.Pool, m: RegMap.Rmap, v: int)
    requires PoolFits(p) && RegMap.InPool(p, m) && v in m
    ensures 0 <= m[v] < 16
  {
  }

  /** Where the allocator says a value is, the code finds it. */
  lemma PlaceIsRead<M>(p: RegMap.Pool, m: RegMap.Rmap, s: Machine.Hw<int, M>, f: Frame, t: State, v: int)
    requires PoolFits(p) && RegMap.InPool(p, m) && SameState(s, f, t)
    ensures var r := VReg(Gp, v);
      (if r in MapAtCall(m) then Get(t.gp, MapAtCall(m)[r]) else f.slots(r)) == Machine.ValueOf(m, s, v)
  {
    if v in m {
      InPoolInFile(p, m, v);
    }
  }

  lemma ArgumentIsRead<M>(env: Machine.Env<int, M>, p: RegMap.Pool, s: Machine.Hw<int, M>, f: Frame, t: State, k: nat)
    requires PoolFits(p) && RegMap.InPool(p, s.argMap) && SameState(s, f, t) && (forall i :: env.imm(i) == i) && k < |s.args|
    ensures ValueOf(OutArgsOf(s.args)[k], MapAtCall(s.argMap), f, t) == Machine.HwArgValues(env, s)[k]
  {
    hide SameState;
    if s.args[k].InReg? {
      PlaceIsRead(p, s.argMap, s, f, t, s.args[k].r);
    }
  }

  /** The arguments the called function finds are those the machine of the theorem
      hands it, unless one in %rax comes before one moved through %rax. */
  lemma CalleeFindsArguments<M>(env: Machine.Env<int, M>, p: RegMap.Pool, site: RegMap.Site, a: RegAlloc.Alloc,
                                s: Machine.Hw<int, M>, f: Frame, t: State, correction: nat, callee: Callee)
    requires PoolFits(p) && RegMap.InPool(p, s.argMap) && (forall i :: env.imm(i) == i) && SameState(s, f, t)
    requires s.argMap == RegAlloc.PrepareRegistersForCall(p, site, a).rm && site.op.a0 == |s.args|
    ensures var args, m := OutArgsOf(s.args), MapAtCall(s.argMap);
      !Clobbered(args, m) ==>
        forall k :: 0 <= k < |s.args| ==>
          Finds(Reached(args, m, f, correction, callee, t), Gp, Place(KindsOf(args), k), Machine.HwArgValues(env, s)[k])
    ensures var args, m := OutArgsOf(s.args), MapAtCall(s.argMap);
      (forall u :: Ready(u) ==> AllArrive(args, m, f, correction, u)) <==> !Clobbered(args, m)
  {
    hide Clobbered, AllArrive, Finds, Reached, SameState, PoolFits, RegAlloc.PrepareRegistersForCall, Numbered, SourcesSafe, Place, KindsOf;
    var args, m := OutArgsOf(s.args), MapAtCall(s.argMap);
    assert Ready(t) by { StateReady(s, f, t); }
    PutArgsAreNumbered(s.args);
    PreparedIsSafe(p, site, a, args);
    CallPasses(args, m, f, correction);
    if !Clobbered(args, m) {
      CalledFinds(args, m, f, correction, callee, t);
      forall k | 0 <= k < |s.args|
        ensures Finds(Reached(args, m, f, correction, callee, t), Gp, Place(KindsOf(args), k), Machine.HwArgValues(env, s)[k])
      {
        ArgumentIsRead(env, p, s, f, t, k);
        assert args[k].kind == Gp;
      }
    }
  }

  lemma StateReady<M>(s: Machine.Hw<int, M>, f: Frame, t: State)
    requires SameState(s, f, t)
    ensures Ready(t)
  {
  }

  /** The function called is the one whose address the machine of the theorem reads. */
  lemma CallGoesWhereRead<M>(p: RegMap.Pool, site: RegMap.Site, a: RegAlloc.Alloc, call: RegMap.Site, info: seq<ArgInfo>,
                             s: Machine.Hw<int, M>, f: Frame, t: State, correction: nat)
    requires PoolFits(p) && SameState(s, f, t) && RegAlloc.SiteOk(p, call) && call.op.code == CALL
    requires s.argMap == RegAlloc.PrepareRegistersForCall(p, site, a).rm && site.op.a0 == |s.args|
    requires RegMap.InPool(p, RegAlloc.AssignRegs(p, call, info, s.argMap).rm)
    ensures var rm := RegAlloc.AssignRegs(p, call, info, s.argMap).rm; var callee := Pointer(VReg(Gp, call.op.a0));
      GoalOf(CallFor(callee, MapAtCall(rm)), f, Reached(OutArgsOf(s.args), MapAtCall(s.argMap), f, correction, callee, t))
      == AtAddress(Machine.ValueOf(rm, s, call.op.a0))
  {
    hide SameState, PoolFits, RegAlloc.PrepareRegistersForCall, RegAlloc.AssignRegs, RegAlloc.SiteOk, Numbered, Reached, CalleeSafe;
    var rm := RegAlloc.AssignRegs(p, call, info, s.argMap).rm;
    var callee := Pointer(VReg(Gp, call.op.a0));
    assert Ready(t) by { StateReady(s, f, t); }
    PutArgsAreNumbered(s.args);
    CalleeIsSafe(p, site, a, call, info, OutArgsOf(s.args), callee);
    CallGoes(OutArgsOf(s.args), MapAtCall(s.argMap), f, correction, callee, MapAtCall(rm), t);
    PlaceIsRead(p, rm, s, f, t, call.op.a0);
  }

  // ----- The called function -----

  /** The kinds of the arguments a function declares. */
  function DeclaredKinds(info: seq<ArgInfo>): (kinds: seq<Kind>)
    ensures |kinds| == |info| && forall i :: 0 <= i < |info| ==> kinds[i] == if info[i].isFloat then Fp else Gp
  {
    seq(|info|, i requires 0 <= i < |info| => if info[i].isFloat then Fp else Gp)
  }

  /** At a PROLOG the first arguments are in the argument registers, in order. */
  ghost predicate ArgsInOrder(p: RegMap.Pool, info: seq<ArgInfo>, n: nat, m: RegMap.Rmap)
    requires n <= |info|
  {
    var kinds := DeclaredKinds(info);
    forall i: nat :: i < n && !info[i].isFloat ==>
      (ArgReg(i) in m <==> Earlier(kinds, i, Gp) < |p.args|) && (ArgReg(i) in m ==> m[ArgReg(i)] == p.args[Earlier(kinds, i, Gp)].id)
  }

  lemma {:induction false} ArgMapIs(p: RegMap.Pool, info: seq<ArgInfo>, n: nat)
    requires RegMap.PoolOk(p) && n <= |info|
    ensures var (m, taken) := RegAlloc.ArgMap(p, info, n);
      taken == RegAlloc.Min(Earlier(DeclaredKinds(info), n, Gp), |p.args|) && ArgsInOrder(p, info, n, m)
  {
    hide RegMap.PoolOk, ArgsInOrder;
    if n == 0 {
      NoArgsInOrder(p, info);
    } else {
      ArgMapIs(p, info, n - 1);
      var (m, taken) := RegAlloc.ArgMap(p, info, n - 1);
      OneMoreArgInOrder(p, info, n, m, taken, RegAlloc.ArgMap(p, info, n).0);
    }
  }

  lemma NoArgsInOrder(p: RegMap.Pool, info: seq<ArgInfo>)
    ensures ArgsInOrder(p, info, 0, map[])
  {
  }

  lemma OneMoreArgInOrder(p: RegMap.Pool, info: seq<ArgInfo>, n: nat, m: RegMap.Rmap, taken: nat, m': RegMap.Rmap)
    requires 0 < n <= |info| && ArgsInOrder(p, info, n - 1, m)
    requires taken == RegAlloc.Min(Earlier(DeclaredKinds(info), n - 1, Gp), |p.args|)
    requires forall v :: v in m ==> exists i :: 0 <= i < n - 1 && v == ArgReg(i)
    requires if !info[n - 1].isFloat && taken < |p.args| then m' == m[ArgReg(n - 1) := p.args[taken].id] else m' == m
    ensures ArgsInOrder(p, info, n, m')
  {
    hide Earlier, ArgReg;
    ArgRegsDiffer();
  }

  lemma ArgRegsDiffer()
    ensures forall i, j :: ArgReg(i) == ArgReg(j) ==> i == j
  {
    assert forall i :: ArgReg(i) == 6 + 16 * i;
  }

  /** The allocator looks for an argument in a register exactly when it is passed in one,
      and in that one. */
  lemma {:induction false} PrologFinds(p: RegMap.Pool, info: seq<ArgInfo>, i: nat)
    requires PoolFits(p) && i < |info| && !info[i].isFloat
    ensures var m, kinds := RegAlloc.ArgMap(p, info, |info|).0, DeclaredKinds(info);
      && (ArgReg(i) in m <==> !Overflows(kinds, i))
      && (ArgReg(i) in m ==> Place(kinds, i) == InReg(m[ArgReg(i)]))
  {
    hide RegAlloc.ArgMap, Earlier, EarlierOnStack;
    FitsIsOk(p);
    ArgMapIs(p, info, |info|);
  }

  predicate OnStackAt(info: seq<ArgInfo>, i: nat, t: State, w: int) {
    && i < |info| && !info[i].isFloat && Overflows(DeclaredKinds(info), i)
    && Finds(t, Gp, Place(DeclaredKinds(info), i), w)
  }

  /** The called function's registers are those at the call, and the slot of an argument
      that is not passed in a register is its word on the stack. */
  ghost predicate Enters<M>(info: seq<ArgInfo>, t: State, s: Machine.Hw<int, M>) {
    && (forall h :: 0 <= h < 16 ==> s.hw(h) == Get(t.gp, h))
    && forall i: nat, w: int :: OnStackAt(info, i, t, w) ==> s.slot(ArgReg(i)) == w
  }

  /** What is found in an argument's place is what the allocator's map at the PROLOG says
      its register holds. */
  lemma {:induction false} ArgumentArrives<M>(p: RegMap.Pool, info: seq<ArgInfo>, t: State, s: Machine.Hw<int, M>, i: nat, w: int)
    requires PoolFits(p) && Enters(info, t, s) && i < |info| && !info[i].isFloat
    requires Finds(t, Gp, Place(DeclaredKinds(info), i), w)
    ensures Machine.ValueOf(RegAlloc.ArgMap(p, info, |info|).0, s, ArgReg(i)) == w
  {
    hide RegAlloc.ArgMap, RegMap.PoolOk, Overflows, Place;
    PrologFinds(p, info, i);
    var m := RegAlloc.ArgMap(p, info, |info|).0;
    if ArgReg(i) in m {
      InPoolInFile(p, m, ArgReg(i));
    } else {
      assert OnStackAt(info, i, t, w);
    }
  }

  /** A caller's arguments are what the called function begins with: value k the machine
      of the theorem hands over is where the start of the called function needs it. */
  lemma {:induction false} CallerMeetsCallee<M>(env: Machine.Env<int, M>, p: RegMap.Pool, site: RegMap.Site, a: RegAlloc.Alloc, s: Machine.Hw<int, M>,
                             f: Frame, t: State, correction: nat, callee: Callee, info: seq<ArgInfo>, s': Machine.Hw<int, M>, k: nat)
    requires PoolFits(p) && RegMap.InPool(p, s.argMap) && (forall i :: env.imm(i) == i) && SameState(s, f, t)
    requires s.argMap == RegAlloc.PrepareRegistersForCall(p, site, a).rm && site.op.a0 == |s.args|
    requires !Clobbered(OutArgsOf(s.args), MapAtCall(s.argMap))
    requires |info| == |s.args| && (forall i :: 0 <= i < |info| ==> !info[i].isFloat) && k < |info|
    requires Enters(info, Reached(OutArgsOf(s.args), MapAtCall(s.argMap), f, correction, callee, t), s')
    ensures Machine.ValueOf(RegAlloc.ArgMap(p, info, |info|).0, s', ArgReg(k)) == Machine.HwArgValues(env, s)[k]
  {
    hide PoolFits, Clobbered, AllArrive, Finds, Reached, SameState, Enters, RegAlloc.PrepareRegistersForCall, RegAlloc.ArgMap, Place, Machine.HwArgValue;
    CalleeFindsArguments(env, p, site, a, s, f, t, correction, callee);
    var args := OutArgsOf(s.args);
    SameKinds(args, info);
    var to := Reached(args, MapAtCall(s.argMap), f, correction, callee, t);
    ArgumentArrives(p, info, to, s', k, Machine.HwArgValues(env, s)[k]);
  }

  lemma SameKinds(args: seq<OutArg>, info: seq<ArgInfo>)
    requires |args| == |info| && (forall i :: 0 <= i < |info| ==> !info[i].isFloat) && forall i :: 0 <= i < |args| ==> args[i].kind == Gp
    ensures KindsOf(args) == DeclaredKinds(info)
  {
  }
}
